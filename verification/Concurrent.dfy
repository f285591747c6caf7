/**
 The running system: clients, shard threads, the event bus and its consumer, interleaved in any
 way. Channels are reliable queues, and every thread takes one step at a time.
 */
module Concurrent {
  import opened Types
  import opened BookSpec
  import opened EngineSpec
  import opened ShardMaps

  /** The routing table, fixed while the system runs. */
  datatype Config = Config(shardCount: ShardId, overrides: map<InstrumentId, ShardId>) {
    predicate Valid() {
      shardCount > 0 && forall i :: i in overrides ==> overrides[i] < shardCount
    }

    function Owner(i: InstrumentId): ShardId
      requires shardCount > 0
    {
      Route(shardCount, overrides, i)
    }
  }

  /** The running system routes by the pins that its table was made from. */
  lemma OwnerFollowsPins(c: Config, pins: seq<(InstrumentId, ShardId)>, i: InstrumentId)
    requires c.Valid() && c.overrides == Pinned(pins)
    ensures forall k :: 0 <= k < |pins| && pins[k].0 == i && (forall j :: k < j < |pins| ==> pins[j].0 != i) ==>
              c.Owner(i) == pins[k].1
    ensures (forall k :: 0 <= k < |pins| ==> pins[k].0 != i) ==> c.Owner(i) == i % c.shardCount
  {
    forall k | 0 <= k < |pins| && pins[k].0 == i && forall j :: k < j < |pins| ==> pins[j].0 != i
      ensures c.Owner(i) == pins[k].1
    {
      PinRoutes(c.shardCount, pins, k);
    }
    if forall k :: 0 <= k < |pins| ==> pins[k].0 != i {
      RemainderRoutes(c.shardCount, pins, i);
    }
  }

  /**
   One blocking call. `position` is its place in the order of processing, once it has one;
   `invoked` and `returned` are the times at which the client entered and left it.
   */
  datatype Call = Call(
    client: nat, request: Request, invoked: nat,
    position: Option<nat>, reply: Option<Reply>, returned: Option<nat>)

  /** A request that was processed: its events are being published, and the reply waits for that. */
  datatype Flight = Flight(ticket: nat, unpublished: seq<Event>, reply: Reply)

  /** The queue holds tickets, that is, indices into `calls`. */
  datatype ShardThread = ShardThread(queue: seq<nat>, engine: EngineState, busy: Option<Flight>, exited: bool)

  /** A ticket and the time at which it was processed. */
  datatype Entry = Entry(ticket: nat, time: nat)

  datatype System = System(
    clock: nat, calls: seq<Call>, order: seq<Entry>, shards: seq<ShardThread>,
    bus: seq<Event>, consumed: seq<Event>,
    routerOpen: bool, busOpen: bool, consumerDone: bool)

  datatype Step =
    | Invoke(client: nat, request: Request)
    | Take(shard: nat)
    | Publish(shard: nat)
    | Answer(shard: nat)
    | Return(ticket: nat)
    | Consume
    | CloseRouter
    | ExitShard(shard: nat)
    | CloseBus
    | ExitConsumer

  function Init(c: Config): System
  {
    System(0, [], [], seq(c.shardCount, _ => ShardThread([], map[], None, false)), [], [], true, true, false)
  }

  /** Nobody waits for a reply. */
  predicate AllReturned(s: System) {
    forall t :: 0 <= t < |s.calls| ==> s.calls[t].returned.Some?
  }

  // --- clients ----------------------------------------------------------------------------------

  /** A client has at most one call under way. */
  predicate CanInvoke(c: Config, s: System, client: nat, r: Request)
    requires c.Valid()
  {
    && s.routerOpen && c.Owner(r.Target()) < |s.shards|
    && forall t :: 0 <= t < |s.calls| && s.calls[t].client == client ==> s.calls[t].returned.Some?
  }

  function Invoked(c: Config, s: System, client: nat, r: Request): System
    requires c.Valid() && CanInvoke(c, s, client, r)
  {
    var k := c.Owner(r.Target());
    var h := s.shards[k];
    s.(clock := s.clock + 1,
       calls := s.calls + [Call(client, r, s.clock, None, None, None)],
       shards := s.shards[k := h.(queue := h.queue + [|s.calls|])])
  }

  predicate CanReturn(s: System, t: nat) {
    t < |s.calls| && s.calls[t].reply.Some? && s.calls[t].returned.None?
  }

  function Returned(s: System, t: nat): System
    requires CanReturn(s, t)
  {
    s.(clock := s.clock + 1, calls := s.calls[t := s.calls[t].(returned := Some(s.clock))])
  }

  // --- shard threads ----------------------------------------------------------------------------

  predicate CanTake(s: System, k: nat) {
    k < |s.shards| && s.shards[k].busy.None? && s.shards[k].queue != [] && s.shards[k].queue[0] < |s.calls|
  }

  /** Take the first request and process it. */
  function Taken(s: System, k: nat): System
    requires CanTake(s, k)
  {
    var h := s.shards[k];
    var t := h.queue[0];
    var (engine, reply) := Process(h.engine, s.calls[t].request);
    s.(clock := s.clock + 1,
       calls := s.calls[t := s.calls[t].(position := Some(|s.order|))],
       order := s.order + [Entry(t, s.clock)],
       shards := s.shards[k := ShardThread(h.queue[1..], engine, Some(Flight(t, EventsOf(reply), reply)), h.exited)])
  }

  predicate CanPublish(s: System, k: nat) {
    k < |s.shards| && s.shards[k].busy.Some? && s.shards[k].busy.value.unpublished != []
  }

  /** Send the next event to the bus. */
  function Published(s: System, k: nat): System
    requires CanPublish(s, k)
  {
    var h := s.shards[k];
    var u := h.busy.value.unpublished;
    s.(clock := s.clock + 1,
       bus := s.bus + [u[0]],
       shards := s.shards[k := h.(busy := Some(h.busy.value.(unpublished := u[1..])))])
  }

  predicate CanAnswer(s: System, k: nat) {
    && k < |s.shards| && s.shards[k].busy.Some? && s.shards[k].busy.value.unpublished == []
    && s.shards[k].busy.value.ticket < |s.calls|
  }

  /** Only then send the reply. */
  function Answered(s: System, k: nat): System
    requires CanAnswer(s, k)
  {
    var h := s.shards[k];
    var f := h.busy.value;
    s.(clock := s.clock + 1,
       calls := s.calls[f.ticket := s.calls[f.ticket].(reply := Some(f.reply))],
       shards := s.shards[k := h.(busy := None)])
  }

  /** A shard thread leaves its loop once its channel is closed and empty. */
  predicate CanExitShard(s: System, k: nat) {
    && k < |s.shards| && !s.routerOpen && s.shards[k].queue == [] && s.shards[k].busy.None?
    && !s.shards[k].exited
  }

  function ShardExited(s: System, k: nat): System
    requires CanExitShard(s, k)
  {
    s.(clock := s.clock + 1, shards := s.shards[k := s.shards[k].(exited := true)])
  }

  // --- the consumer and shutdown ------------------------------------------------------------------

  /** The consumer leaves its loop once every sender is gone and the channel is empty. */
  predicate CanExitConsumer(s: System) {
    && !s.busOpen && s.bus == [] && !s.consumerDone
    && forall k :: 0 <= k < |s.shards| ==> s.shards[k].exited
  }

  predicate Enabled(c: Config, s: System, step: Step)
    requires c.Valid()
  {
    match step
    case Invoke(client, r) => CanInvoke(c, s, client, r)
    case Take(k) => CanTake(s, k)
    case Publish(k) => CanPublish(s, k)
    case Answer(k) => CanAnswer(s, k)
    case Return(t) => CanReturn(s, t)
    case Consume => s.bus != [] && !s.consumerDone
    // Dropping the router needs sole ownership, so no call can be under way.
    case CloseRouter => s.routerOpen && AllReturned(s)
    case ExitShard(k) => CanExitShard(s, k)
    case CloseBus => s.busOpen
    case ExitConsumer => CanExitConsumer(s)
  }

  function Next(c: Config, s: System, step: Step): System
    requires c.Valid() && Enabled(c, s, step)
  {
    match step
    case Invoke(client, r) => Invoked(c, s, client, r)
    case Take(k) => Taken(s, k)
    case Publish(k) => Published(s, k)
    case Answer(k) => Answered(s, k)
    case Return(t) => Returned(s, t)
    case Consume => s.(clock := s.clock + 1, consumed := s.consumed + [s.bus[0]], bus := s.bus[1..])
    case CloseRouter => s.(clock := s.clock + 1, routerOpen := false)
    case ExitShard(k) => ShardExited(s, k)
    case CloseBus => s.(clock := s.clock + 1, busOpen := false)
    case ExitConsumer => s.(clock := s.clock + 1, consumerDone := true)
  }

  /** Where a schedule leads, if each of its steps can be taken. */
  function After(c: Config, steps: seq<Step>): Option<System>
    requires c.Valid()
  {
    if steps == [] then Some(Init(c))
    else
      var s := After(c, steps[..|steps| - 1]);
      if s.Some? && Enabled(c, s.value, steps[|steps| - 1]) then Some(Next(c, s.value, steps[|steps| - 1])) else None
  }

  // --- tickets --------------------------------------------------------------------------------

  function OwnerOf(c: Config, s: System, t: nat): ShardId
    requires c.Valid() && t < |s.calls|
  {
    c.Owner(s.calls[t].request.Target())
  }

  /** A shard holds only work and books that are routed to it. */
  ghost predicate ShardFormed(c: Config, s: System, k: nat)
    requires c.Valid() && k < |s.shards|
  {
    var h := s.shards[k];
    && (forall j :: 0 <= j < |h.queue| ==>
          h.queue[j] < |s.calls| && OwnerOf(c, s, h.queue[j]) == k && s.calls[h.queue[j]].position.None?)
    && (forall i, j :: 0 <= i < j < |h.queue| ==> h.queue[i] != h.queue[j])
    && (h.busy.Some? ==>
          var t := h.busy.value.ticket;
          t < |s.calls| && OwnerOf(c, s, t) == k && s.calls[t].position.Some? && s.calls[t].reply.None?)
    && (h.exited ==> !s.routerOpen && h.queue == [] && h.busy.None?)
    && (forall i :: i in h.engine ==> c.Owner(i) == k)
  }

  /** A call waits in its owner's queue, then flies, then has its reply. */
  ghost predicate CallFormed(c: Config, s: System, t: nat)
    requires c.Valid() && t < |s.calls| && OwnerOf(c, s, t) < |s.shards|
  {
    var call, h := s.calls[t], s.shards[OwnerOf(c, s, t)];
    && (call.position.None? ==> call.reply.None? && t in h.queue)
    && (call.position.Some? && call.reply.None? ==> h.busy.Some? && h.busy.value.ticket == t)
    && (call.returned.Some? ==> call.reply.Some?)
    && (!s.routerOpen ==> call.returned.Some?)
  }

  ghost predicate Sound(c: Config, s: System)
    requires c.Valid()
  {
    && |s.shards| == c.shardCount
    && (forall k :: 0 <= k < |s.shards| ==> ShardFormed(c, s, k))
    && (forall t :: 0 <= t < |s.calls| ==> CallFormed(c, s, t))
  }

  lemma OwnerExists(c: Config, i: InstrumentId)
    requires c.Valid()
    ensures c.Owner(i) < c.shardCount
  {}

  lemma InvokeKeepsShard(c: Config, s: System, client: nat, r: Request, k: nat)
    requires c.Valid() && CanInvoke(c, s, client, r) && k < |s.shards| && ShardFormed(c, s, k)
    ensures ShardFormed(c, Invoked(c, s, client, r), k)
  {
    hide Route, CallFormed, AllReturned;
    var s' := Invoked(c, s, client, r);
    var n, q, q' := |s.calls|, s.shards[k].queue, s'.shards[k].queue;
    assert s'.calls[n].request == r && s'.calls[..n] == s.calls;
    assert q' == if k == c.Owner(r.Target()) then q + [n] else q;
    forall j | 0 <= j < |q'|
      ensures q'[j] < |s'.calls| && OwnerOf(c, s', q'[j]) == k && s'.calls[q'[j]].position.None?
      ensures j < |q| ==> q'[j] < n
    {
      if j < |q| {
        assert q'[j] == q[j] && s'.calls[q[j]] == s.calls[q[j]];
      }
    }
  }

  lemma InvokeKeepsSound(c: Config, s: System, client: nat, r: Request)
    requires c.Valid() && Sound(c, s) && CanInvoke(c, s, client, r)
    ensures Sound(c, Invoked(c, s, client, r))
  {
    hide ShardFormed;
    var s' := Invoked(c, s, client, r);
    var n, owner := |s.calls|, c.Owner(r.Target());
    forall k | 0 <= k < |s'.shards| ensures ShardFormed(c, s', k) {
      InvokeKeepsShard(c, s, client, r, k);
    }
    forall t | 0 <= t < |s'.calls| ensures CallFormed(c, s', t) {
      if t < n {
        assert CallFormed(c, s, t);
        assert s'.calls[t] == s.calls[t];
      } else {
        assert s'.shards[owner].queue[|s.shards[owner].queue|] == n;
      }
    }
  }

  lemma TakeKeepsSound(c: Config, s: System, taken: nat)
    requires c.Valid() && Sound(c, s) && CanTake(s, taken)
    ensures Sound(c, Taken(s, taken))
  {
    hide Process;
    var s' := Taken(s, taken);
    var h := s.shards[taken];
    var ticket := h.queue[0];
    assert ShardFormed(c, s, taken);
    assert OwnerOf(c, s, ticket) == taken && s.calls[ticket].position.None?;
    assert CallFormed(c, s, ticket);
    ProcessIsLocal(h.engine, h.engine, s.calls[ticket].request);
    forall k | 0 <= k < |s'.shards| ensures ShardFormed(c, s', k) {
      assert ShardFormed(c, s, k);
      if k == taken {
        var e := s'.shards[k].engine;
        forall i | i in e ensures c.Owner(i) == k {
          assert i != s.calls[ticket].request.Target() ==> Lookup(e, i) == Lookup(h.engine, i);
        }
        assert forall j :: 0 <= j < |h.queue[1..]| ==> h.queue[1..][j] == h.queue[j + 1];
      } else {
        assert forall j :: 0 <= j < |s.shards[k].queue| ==> s.shards[k].queue[j] != ticket;
      }
    }
    forall t | 0 <= t < |s'.calls| ensures CallFormed(c, s', t) {
      assert CallFormed(c, s, t);
      if t != ticket && t in h.queue {
        assert t in h.queue[1..];
      }
    }
  }

  lemma AnswerKeepsSound(c: Config, s: System, answered: nat)
    requires c.Valid() && Sound(c, s) && CanAnswer(s, answered)
    ensures Sound(c, Answered(s, answered))
  {
    var s' := Answered(s, answered);
    assert ShardFormed(c, s, answered);
    assert CallFormed(c, s, s.shards[answered].busy.value.ticket);
    forall k | 0 <= k < |s'.shards| ensures ShardFormed(c, s', k) {
      assert ShardFormed(c, s, k);
    }
    forall t | 0 <= t < |s'.calls| ensures CallFormed(c, s', t) {
      assert CallFormed(c, s, t);
    }
  }

  /** A step that moves a ticket from one place to the next. */
  predicate Moves(step: Step) { step.Invoke? || step.Take? || step.Answer? }

  lemma OtherShardKeeps(c: Config, s: System, step: Step, k: nat)
    requires c.Valid() && Sound(c, s) && Enabled(c, s, step) && !Moves(step) && k < |s.shards|
    ensures |Next(c, s, step).shards| == |s.shards| && ShardFormed(c, Next(c, s, step), k)
  {
    hide Invoked, Taken, Answered, CanInvoke, CanTake, CanAnswer, CallFormed, AllReturned, Route;
    assert ShardFormed(c, s, k);
  }

  lemma OtherCallKeeps(c: Config, s: System, step: Step, t: nat)
    requires c.Valid() && Sound(c, s) && Enabled(c, s, step) && !Moves(step) && t < |s.calls|
    ensures |Next(c, s, step).calls| == |s.calls| && |Next(c, s, step).shards| == |s.shards|
    ensures OwnerOf(c, Next(c, s, step), t) < |s.shards| && CallFormed(c, Next(c, s, step), t)
  {
    hide Invoked, Taken, Answered, CanInvoke, CanTake, CanAnswer, ShardFormed;
    assert CallFormed(c, s, t);
  }

  lemma OthersKeepSound(c: Config, s: System, step: Step)
    requires c.Valid() && Sound(c, s) && Enabled(c, s, step) && !Moves(step)
    ensures Sound(c, Next(c, s, step))
  {
    hide Invoked, Taken, Answered, CanInvoke, CanTake, CanAnswer, ShardFormed, CallFormed;
    var s' := Next(c, s, step);
    forall k | 0 <= k < |s'.shards| ensures ShardFormed(c, s', k) {
      OtherShardKeeps(c, s, step, k);
    }
    forall t | 0 <= t < |s'.calls| ensures CallFormed(c, s', t) {
      OtherCallKeeps(c, s, step, t);
    }
  }

  lemma StepKeepsSound(c: Config, s: System, step: Step)
    requires c.Valid() && Sound(c, s) && Enabled(c, s, step)
    ensures Sound(c, Next(c, s, step))
  {
    hide Sound, CanInvoke, CanTake, CanAnswer, Invoked, Taken, Answered;
    match step
    case Invoke(client, r) => InvokeKeepsSound(c, s, client, r);
    case Take(k) => TakeKeepsSound(c, s, k);
    case Answer(k) => AnswerKeepsSound(c, s, k);
    case _ => OthersKeepSound(c, s, step);
  }
}
