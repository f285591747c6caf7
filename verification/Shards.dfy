/** Which shard owns which instrument. */
module ShardMaps {
  import opened Types

  /** A `u16`. */
  type ShardId = n: int | 0 <= n < 0x1_0000

  datatype ShardMapError =
    | ZeroShardCount
    | OverrideOutOfRange(shard: ShardId, shardCount: ShardId)

  /** The routing rule: the pinned shard if there is one, the remainder otherwise. */
  function Route(shardCount: ShardId, overrides: map<InstrumentId, ShardId>, i: InstrumentId): ShardId
    requires shardCount > 0
  {
    if i in overrides then overrides[i] else i % shardCount
  }

  /** The first pin that names a shard that does not exist. */
  function FirstBad(shardCount: ShardId, pins: seq<(InstrumentId, ShardId)>): Option<ShardId> {
    if pins == [] then None
    else if FirstBad(shardCount, pins[..|pins| - 1]).Some? then FirstBad(shardCount, pins[..|pins| - 1])
    else if pins[|pins| - 1].1 >= shardCount then Some(pins[|pins| - 1].1)
    else None
  }

  /** Later pins of an instrument replace earlier ones. */
  function Pinned(pins: seq<(InstrumentId, ShardId)>): map<InstrumentId, ShardId> {
    if pins == [] then map[] else Pinned(pins[..|pins| - 1])[pins[|pins| - 1].0 := pins[|pins| - 1].1]
  }

  /** The last pin of an instrument decides. */
  lemma {:induction false} LastPinDecides(pins: seq<(InstrumentId, ShardId)>, k: nat)
    requires k < |pins| && forall j :: k < j < |pins| ==> pins[j].0 != pins[k].0
    ensures pins[k].0 in Pinned(pins) && Pinned(pins)[pins[k].0] == pins[k].1
  {
    if k == |pins| - 1 {
    } else {
      LastPinDecides(pins[..|pins| - 1], k);
    }
  }

  /** Nothing is pinned but by a pin, and accepted pins are in range. */
  lemma {:induction false} PinnedByPin(shardCount: ShardId, pins: seq<(InstrumentId, ShardId)>, i: InstrumentId)
    returns (k: nat)
    requires i in Pinned(pins)
    ensures k < |pins| && pins[k] == (i, Pinned(pins)[i])
    ensures FirstBad(shardCount, pins) == None ==> Pinned(pins)[i] < shardCount
  {
    var n := |pins| - 1;
    if pins[n].0 == i {
      k := n;
    } else {
      k := PinnedByPin(shardCount, pins[..n], i);
    }
  }

  /** Where a pin leads: the last one of its instrument decides. */
  lemma PinRoutes(shardCount: ShardId, pins: seq<(InstrumentId, ShardId)>, k: nat)
    requires shardCount > 0
    requires k < |pins| && forall j :: k < j < |pins| ==> pins[j].0 != pins[k].0
    ensures Route(shardCount, Pinned(pins), pins[k].0) == pins[k].1
  {
    LastPinDecides(pins, k);
  }

  /** Without a pin the remainder decides. */
  lemma RemainderRoutes(shardCount: ShardId, pins: seq<(InstrumentId, ShardId)>, i: InstrumentId)
    requires shardCount > 0
    requires forall k :: 0 <= k < |pins| ==> pins[k].0 != i
    ensures Route(shardCount, Pinned(pins), i) == i % shardCount
  {
    if i in Pinned(pins) {
      var k := PinnedByPin(shardCount, pins, i);
    }
  }

  /** A list of pins is refused for the first one that names no shard, and only then. */
  lemma {:induction false} FirstBadMeaning(shardCount: ShardId, pins: seq<(InstrumentId, ShardId)>)
    ensures FirstBad(shardCount, pins).None? <==> forall k :: 0 <= k < |pins| ==> pins[k].1 < shardCount
    ensures FirstBad(shardCount, pins).Some? ==>
              exists k :: 0 <= k < |pins| && pins[k].1 == FirstBad(shardCount, pins).value >= shardCount
                          && forall j :: 0 <= j < k ==> pins[j].1 < shardCount
  {
    if pins == [] {
    } else {
      var init := pins[..|pins| - 1];
      FirstBadMeaning(shardCount, init);
      assert forall k :: 0 <= k < |init| ==> pins[k] == init[k];
    }
  }

  /** A table made from pins sends an instrument to its last pin, or to the remainder if it has none. */
  lemma PinsDecide(m: ShardMap, pins: seq<(InstrumentId, ShardId)>, i: InstrumentId)
    requires m.Valid() && m.overrides == Pinned(pins)
    ensures forall k :: 0 <= k < |pins| && pins[k].0 == i && (forall j :: k < j < |pins| ==> pins[j].0 != i) ==>
              m.ShardFor(i) == pins[k].1
    ensures (forall k :: 0 <= k < |pins| ==> pins[k].0 != i) ==> m.ShardFor(i) == i % m.shardCount
  {
    forall k | 0 <= k < |pins| && pins[k].0 == i && forall j :: k < j < |pins| ==> pins[j].0 != i
      ensures m.ShardFor(i) == pins[k].1
    {
      PinRoutes(m.shardCount, pins, k);
    }
    if forall k :: 0 <= k < |pins| ==> pins[k].0 != i {
      RemainderRoutes(m.shardCount, pins, i);
    }
  }

  class ShardMap {
    const shardCount: ShardId
    var overrides: map<InstrumentId, ShardId>

    ghost predicate Valid()
      reads this
    {
      shardCount > 0 && forall i :: i in overrides ==> overrides[i] < shardCount
    }

    constructor (shardCount: ShardId)
      requires shardCount > 0
      ensures Valid() && this.shardCount == shardCount && overrides == map[]
    {
      this.shardCount := shardCount;
      overrides := map[];
    }

    method AddOverride(i: InstrumentId, shard: ShardId) returns (result: Result<(), ShardMapError>)
      requires Valid()
      modifies this
      ensures Valid()
      ensures result.Ok? <==> shard < shardCount
      ensures result.Ok? ==> overrides == old(overrides)[i := shard]
      ensures result.Err? ==> overrides == old(overrides) && result.error == OverrideOutOfRange(shard, shardCount)
    {
      if shard >= shardCount {
        return Err(OverrideOutOfRange(shard, shardCount));
      }
      overrides := overrides[i := shard];
      return Ok(());
    }

    static method WithOverrides(shardCount: ShardId, pins: seq<(InstrumentId, ShardId)>)
      returns (result: Result<ShardMap, ShardMapError>)
      ensures shardCount == 0 ==> result == Err(ZeroShardCount)
      ensures shardCount > 0 && FirstBad(shardCount, pins).Some? ==>
                result == Err(OverrideOutOfRange(FirstBad(shardCount, pins).value, shardCount))
      ensures shardCount > 0 && FirstBad(shardCount, pins).None? ==>
                && result.Ok? && fresh(result.value) && result.value.Valid()
                && result.value.shardCount == shardCount && result.value.overrides == Pinned(pins)
    {
      if shardCount == 0 {
        return Err(ZeroShardCount);
      }
      var m := new ShardMap(shardCount);
      for k := 0 to |pins|
        invariant fresh(m) && m.Valid() && m.shardCount == shardCount
        invariant FirstBad(shardCount, pins[..k]) == None && m.overrides == Pinned(pins[..k])
      {
        assert pins[..k + 1][..k] == pins[..k];
        var added := m.AddOverride(pins[k].0, pins[k].1);
        if added.Err? {
          StaysBad(shardCount, pins, k + 1);
          return Err(added.error);
        }
      }
      assert pins[..|pins|] == pins;
      return Ok(m);
    }

    static lemma {:induction false} StaysBad(shardCount: ShardId, pins: seq<(InstrumentId, ShardId)>, k: nat)
      requires k <= |pins| && FirstBad(shardCount, pins[..k]).Some?
      ensures FirstBad(shardCount, pins) == FirstBad(shardCount, pins[..k])
    {
      if k < |pins| {
        assert pins[..|pins| - 1][..k] == pins[..k];
        StaysBad(shardCount, pins[..|pins| - 1], k);
      } else {
        assert pins[..k] == pins;
      }
    }

    /** Every instrument has an owner, and it exists. */
    function ShardFor(i: InstrumentId): (shard: ShardId)
      requires Valid()
      reads this
      ensures shard < shardCount
      ensures shard == Route(shardCount, overrides, i)
    {
      if i in overrides then overrides[i] else (i % shardCount) % 0x1_0000  // the cast to `u16`
    }
  }
}

/** A shard answers requests about its own instruments. */
module Shards {
  import opened Types
  import opened BookSpec
  import opened EngineSpec
  import opened Engines
  import opened ShardMaps

  class Shard {
    const id: ShardId
    const engine: Engine

    ghost var Repr: set<object>

    ghost predicate Valid()
      reads this, Repr
      ensures Valid() ==> this in Repr
    {
      && this in Repr && engine in Repr && engine.books.Values <= Repr
      && engine.Valid()
    }

    ghost function State(): EngineState
      requires Valid()
      reads this, Repr
    {
      engine.State()
    }

    constructor (id: ShardId)
      ensures Valid() && fresh(Repr) && this.id == id && State() == map[]
    {
      hide Engines.Engine.Valid;
      this.id := id;
      engine := new Engine();
      new;
      Repr := {this, engine} + engine.books.Values;
    }

    /** One request, one reply, on the state that the single engine would have for these instruments. */
    method Process(request: Request) returns (reply: Reply)
      requires Valid()
      modifies Repr
      ensures Valid() && fresh(Repr - old(Repr))
      ensures (State(), reply) == EngineSpec.Process(old(State()), request)
    {
      hide Engines.Engine.Valid, BookSpec.Execute, NewEvents;
      match request {
        case Execute(command) =>
          var result := engine.Run(command);
          match result {
            case Err(e) =>
              reply := ExecuteReply(Err(e));
            case Ok((output, events)) =>
              var bestBid := engine.BestBid(command.instrument);
              var bestAsk := engine.BestAsk(command.instrument);
              reply := ExecuteReply(Ok(Executed(output, events, bestBid, bestAsk)));
          }
        case RegisterInstrument(i) =>
          var created := engine.RegisterInstrument(i);
          Repr := Repr + engine.books.Values;
          reply := RegisterReply(created);
        case OrderbookSnapshot(i) =>
          QueriesChangeNothing(State(), request);
          var snapshot := engine.OrderbookState(i);
          reply := SnapshotReply(snapshot);
        case TopOfBookQuery(i) =>
          QueriesChangeNothing(State(), request);
          if !engine.IsRegistered(i) {
            reply := TopReply(None);
          } else {
            reply := TopReply(Some((engine.BestBid(i), engine.BestAsk(i))));
          }
      }
    }
  }
}
