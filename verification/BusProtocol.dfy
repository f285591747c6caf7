/** The event bus: nothing is lost, repeated or reordered within an instrument. */
module BusProtocol {
  import opened Types
  import opened BookSpec
  import opened Stamping
  import opened EngineSpec
  import opened ShardMaps
  import opened Concurrent
  import opened Linearizability

  function OfInstrument(events: seq<Event>, i: InstrumentId): seq<Event> {
    if events == [] then []
    else
      var e := events[|events| - 1];
      OfInstrument(events[..|events| - 1], i) + if e.instrument == i then [e] else []
  }

  lemma {:induction false} OfInstrumentAppend(a: seq<Event>, b: seq<Event>, i: InstrumentId)
    ensures OfInstrument(a + b, i) == OfInstrument(a, i) + OfInstrument(b, i)
  {
    if b == [] {
      assert a + b == a;
    } else {
      OfInstrumentAppend(a, b[..|b| - 1], i);
      assert (a + b)[..|a + b| - 1] == a + b[..|b| - 1];
    }
  }

  lemma {:induction false} OfInstrumentAllOrNone(events: seq<Event>, i: InstrumentId)
    ensures (forall e :: e in events ==> e.instrument == i) ==> OfInstrument(events, i) == events
    ensures (forall e :: e in events ==> e.instrument != i) ==> OfInstrument(events, i) == []
  {
    if events == [] {
    } else {
      var n := |events| - 1;
      OfInstrumentAllOrNone(events[..n], i);
      assert events == events[..n] + [events[n]];
      assert events[n] in events;
    }
  }

  /** All events that an engine ever emitted for an instrument. */
  function History(e: EngineState, i: InstrumentId): seq<Event> {
    if i in e then EventsSince(i, e[i].log, 0) else []
  }

  lemma EventsOfInstrument(i: InstrumentId, log: seq<Fact>, from: nat)
    requires from <= |log|
    ensures forall e :: e in EventsSince(i, log, from) ==> e.instrument == i
  {
    var events := EventsSince(i, log, from);
    forall n | 0 <= n < |events| ensures events[n].instrument == i {
      assert events[n] == EventAt(i, log, from + n);
    }
  }

  /** Processing a request adds its events to the history of its instrument, and nothing else. */
  lemma HistoryGrows(e: EngineState, r: Request, i: InstrumentId)
    ensures var (e', reply) := Process(e, r);
      && History(e', i) == History(e, i) + OfInstrument(EventsOf(reply), i)
      && forall x :: x in EventsOf(reply) ==> x.instrument == r.Target()
  {
    var (e', reply) := Process(e, r);
    var target := r.Target();
    ProcessIsLocal(e, e, r);
    if r.Execute? && target in e {
      var log, log' := e[target].log, e'[target].log;
      LogGrows(target, e[target], r.command.action);
      EventsSplit(target, log, log'[|log|..], 0);
      assert log' == log + log'[|log|..];
      EventsOfInstrument(target, log', |log|);
      assert EventsOf(reply) == EventsSince(target, log', |log|);
    }
    OfInstrumentAllOrNone(EventsOf(reply), i);
    if i != target {
      assert Lookup(e', i) == Lookup(e, i);
    }
  }

  /** The events of the replies to a sequence of requests are, by instrument, the histories they lead to. */
  lemma {:induction false} EventsAreHistory(requests: seq<Request>, i: InstrumentId)
    ensures OfInstrument(AllEvents(Serve(requests).1), i) == History(Serve(requests).0, i)
  {
    hide Process, EventsOf, History;
    if requests == [] {
      NoHistoryYet(i);
    } else {
      var init, r := requests[..|requests| - 1], requests[|requests| - 1];
      var (e, replies) := Serve(init);
      var reply := Process(e, r).1;
      EventsAreHistory(init, i);
      HistoryGrows(e, r, i);
      assert (replies + [reply])[..|init|] == replies;
      OfInstrumentAppend(AllEvents(replies), EventsOf(reply), i);
    }
  }

  lemma NoHistoryYet(i: InstrumentId)
    ensures History(map[], i) == []
  {}

  // --- the invariant ----------------------------------------------------------------------------

  function Unpublished(h: ShardThread): seq<Event> {
    if h.busy.Some? then h.busy.value.unpublished else []
  }

  /** Consumed, then queued, then still unpublished at the shard that owns the instrument. */
  function Stream(c: Config, s: System, i: InstrumentId): seq<Event>
    requires c.Valid() && |s.shards| == c.shardCount
  {
    s.consumed + s.bus + Unpublished(s.shards[c.Owner(i)])
  }

  ghost predicate Delivers(c: Config, s: System, i: InstrumentId)
    requires c.Valid() && |s.shards| == c.shardCount
  {
    OfInstrument(Stream(c, s, i), i) == History(s.shards[c.Owner(i)].engine, i)
  }

  ghost predicate OwnEvents(c: Config, s: System, k: nat)
    requires c.Valid() && k < |s.shards|
  {
    && (forall e :: e in Unpublished(s.shards[k]) ==> c.Owner(e.instrument) == k)
    && (s.shards[k].busy.Some? ==>
          forall e :: e in EventsOf(s.shards[k].busy.value.reply) ==>
            e in Unpublished(s.shards[k]) || e in s.bus || e in s.consumed)
  }

  /** A client that holds a reply finds its events on the bus. */
  ghost predicate RepliedAfterPublishing(s: System, t: nat)
    requires t < |s.calls|
  {
    s.calls[t].reply.Some? ==>
      forall e :: e in EventsOf(s.calls[t].reply.value) ==> e in s.bus || e in s.consumed
  }

  ghost predicate BusInv(c: Config, s: System)
    requires c.Valid()
  {
    && |s.shards| == c.shardCount
    && (forall i: InstrumentId :: Delivers(c, s, i))
    && (forall k :: 0 <= k < |s.shards| ==> OwnEvents(c, s, k))
    && (forall t :: 0 <= t < |s.calls| ==> RepliedAfterPublishing(s, t))
    && (s.consumerDone ==> s.bus == [] && forall k :: 0 <= k < |s.shards| ==> s.shards[k].exited)
  }

  lemma InitBus(c: Config)
    requires c.Valid()
    ensures BusInv(c, Init(c))
  {
    var s := Init(c);
    assert forall k :: 0 <= k < |s.shards| ==> s.shards[k] == ShardThread([], map[], None, false);
    forall i: InstrumentId ensures Delivers(c, s, i) {
      OwnerExists(c, i);
    }
  }

  lemma TakeBus(c: Config, s: System, k: nat)
    requires c.Valid() && Sound(c, s) && BusInv(c, s) && CanTake(s, k)
    ensures BusInv(c, Taken(s, k))
  {
    hide Process, EventsOf, History, Sound;
    var s' := Taken(s, k);
    var h := s.shards[k];
    var r := s.calls[h.queue[0]].request;
    assert ShardFormed(c, s, k) by {
      SoundShard(c, s, k);
    }
    assert c.Owner(r.Target()) == k && !h.exited;
    HistoryGrows(h.engine, r, 0);
    forall i: InstrumentId ensures Delivers(c, s', i) {
      assert Delivers(c, s, i);
      if c.Owner(i) == k {
        HistoryGrows(h.engine, r, i);
        assert s.consumed + s.bus + [] == s.consumed + s.bus;
        OfInstrumentAppend(s.consumed + s.bus, Unpublished(s'.shards[k]), i);
      }
    }
    forall j | 0 <= j < |s'.shards| ensures OwnEvents(c, s', j) {
      assert OwnEvents(c, s, j);
    }
    forall t | 0 <= t < |s'.calls| ensures RepliedAfterPublishing(s', t) {
      assert RepliedAfterPublishing(s, t);
    }
  }

  lemma SoundShard(c: Config, s: System, k: nat)
    requires c.Valid() && Sound(c, s) && k < |s.shards|
    ensures ShardFormed(c, s, k)
  {}

  /** Publishing moves an event along the stream of its own instrument and touches no other. */
  lemma PublishDelivers(c: Config, s: System, k: nat, i: InstrumentId)
    requires c.Valid() && |s.shards| == c.shardCount && CanPublish(s, k)
    requires OwnEvents(c, s, k) && Delivers(c, s, i)
    ensures Delivers(c, Published(s, k), i)
  {
    hide EventsOf, History, OfInstrument;
    var s' := Published(s, k);
    var u := s.shards[k].busy.value.unpublished;
    if c.Owner(i) == k {
      assert Stream(c, s', i) == Stream(c, s, i);
    } else {
      assert u[0] in u;
      var rest := Unpublished(s.shards[c.Owner(i)]);
      OfInstrumentAppend(s.consumed + s.bus, rest, i);
      OfInstrumentAppend(s.consumed + s.bus, [u[0]], i);
      OfInstrumentAllOrNone([u[0]], i);
      assert Stream(c, s', i) == s.consumed + s.bus + [u[0]] + rest;
      OfInstrumentAppend(s.consumed + s.bus + [u[0]], rest, i);
    }
  }

  lemma PublishBus(c: Config, s: System, k: nat)
    requires c.Valid() && BusInv(c, s) && CanPublish(s, k) && !s.shards[k].exited
    ensures BusInv(c, Published(s, k))
  {
    hide EventsOf, History, Delivers;
    var s' := Published(s, k);
    var u := s.shards[k].busy.value.unpublished;
    forall i: InstrumentId ensures Delivers(c, s', i) {
      PublishDelivers(c, s, k, i);
    }
    forall j | 0 <= j < |s'.shards| ensures OwnEvents(c, s', j) {
      assert OwnEvents(c, s, j);
      assert forall e :: e in u ==> e == u[0] || e in u[1..];
    }
    forall t | 0 <= t < |s'.calls| ensures RepliedAfterPublishing(s', t) {
      assert RepliedAfterPublishing(s, t);
    }
  }

  lemma AnswerBus(c: Config, s: System, k: nat)
    requires c.Valid() && BusInv(c, s) && CanAnswer(s, k)
    ensures BusInv(c, Answered(s, k))
  {
    hide EventsOf, History;
    var s' := Answered(s, k);
    assert OwnEvents(c, s, k);
    forall i: InstrumentId ensures Delivers(c, s', i) {
      assert Delivers(c, s, i);
      assert Stream(c, s', i) == Stream(c, s, i);
    }
    forall j | 0 <= j < |s'.shards| ensures OwnEvents(c, s', j) {
      assert OwnEvents(c, s, j);
    }
    forall t | 0 <= t < |s'.calls| ensures RepliedAfterPublishing(s', t) {
      assert RepliedAfterPublishing(s, t);
    }
  }

  /** What the bus invariant says of a state only depends on these parts of it. */
  predicate SameTraffic(s: System, s': System) {
    && s'.consumed + s'.bus == s.consumed + s.bus
    && |s'.shards| == |s.shards|
    && (forall k :: 0 <= k < |s.shards| ==>
          s'.shards[k].engine == s.shards[k].engine && s'.shards[k].busy == s.shards[k].busy)
    && |s.calls| <= |s'.calls|
    && (forall t :: 0 <= t < |s.calls| ==> s'.calls[t].reply == s.calls[t].reply)
    && (forall t :: |s.calls| <= t < |s'.calls| ==> s'.calls[t].reply.None?)
  }

  lemma OthersSameTraffic(c: Config, s: System, step: Step)
    requires c.Valid() && BusInv(c, s) && Enabled(c, s, step)
    requires !step.Take? && !step.Publish? && !step.Answer?
    ensures SameTraffic(s, Next(c, s, step))
    ensures Next(c, s, step).consumerDone ==>
              var s' := Next(c, s, step); s'.bus == [] && forall k :: 0 <= k < |s'.shards| ==> s'.shards[k].exited
  {
    hide Taken, Published, Answered, CanTake, CanPublish, CanAnswer, AllReturned, Route, Delivers, OwnEvents;
    hide RepliedAfterPublishing;
  }

  lemma SameTrafficBus(c: Config, s: System, s': System)
    requires c.Valid() && BusInv(c, s) && SameTraffic(s, s')
    requires s'.consumerDone ==> s'.bus == [] && forall k :: 0 <= k < |s'.shards| ==> s'.shards[k].exited
    ensures BusInv(c, s')
  {
    hide EventsOf, History, OfInstrument, Route;
    forall e ensures e in s.bus || e in s.consumed <==> e in s'.bus || e in s'.consumed {
      assert e in s.consumed + s.bus <==> e in s'.consumed + s'.bus;
    }
    forall i: InstrumentId ensures Delivers(c, s', i) {
      OwnerExists(c, i);
      assert Delivers(c, s, i);
    }
    forall j | 0 <= j < |s'.shards| ensures OwnEvents(c, s', j) {
      assert OwnEvents(c, s, j);
    }
    forall t | 0 <= t < |s'.calls| ensures RepliedAfterPublishing(s', t) {
      assert t < |s.calls| ==> RepliedAfterPublishing(s, t);
    }
  }

  lemma {:induction false} BusAlways(c: Config, steps: seq<Step>)
    requires c.Valid() && After(c, steps).Some?
    ensures BusInv(c, After(c, steps).value)
  {
    if steps == [] {
      InitBus(c);
    } else {
      var init, step := steps[..|steps| - 1], steps[|steps| - 1];
      var s := After(c, init).value;
      BusAlways(c, init);
      InvAlways(c, init);
      match step
      case Take(k) => TakeBus(c, s, k);
      case Publish(k) =>
        SoundShard(c, s, k);
        PublishBus(c, s, k);
      case Answer(k) => AnswerBus(c, s, k);
      case _ =>
        OthersSameTraffic(c, s, step);
        SameTrafficBus(c, s, Next(c, s, step));
    }
  }

  // --- what it means for consumers ----------------------------------------------------------------

  /**
   In every reachable state the events of an instrument that were consumed, are queued, or wait at
   its shard, in this order, are exactly those that the single engine emitted for it, numbered
   0, 1, 2, ...; and a client with a reply finds the events of its call on the bus.
   */
  lemma {:induction false} EventsArriveInOrder(c: Config, steps: seq<Step>, i: InstrumentId)
    requires c.Valid() && After(c, steps).Some?
    ensures var s := After(c, steps).value;
      && |s.shards| == c.shardCount
      && (forall p :: 0 <= p < |s.order| ==> s.order[p].ticket < |s.calls|)
      && var stream := OfInstrument(Stream(c, s, i), i);
      && stream == History(Serve(Served(s)).0, i)
      && (forall n :: 0 <= n < |stream| ==> stream[n].number == Min(n, U64_MAX) && stream[n].instrument == i)
      && (forall t :: 0 <= t < |s.calls| ==> RepliedAfterPublishing(s, t))
  {
    BusAlways(c, steps);
    InvAlways(c, steps);
    var s := After(c, steps).value;
    assert Delivers(c, s, i);
    var engine := Serve(Served(s)).0;
    assert Lookup(s.shards[c.Owner(i)].engine, i) == Lookup(engine, i);
    if i in engine {
      SequenceNumbers(i, engine[i].log);
    }
  }

  /** After shutdown the consumer has seen every event that the single engine emitted. */
  lemma {:induction false} ShutdownLosesNothing(c: Config, steps: seq<Step>, i: InstrumentId)
    requires c.Valid() && After(c, steps).Some? && After(c, steps).value.consumerDone
    ensures var s := After(c, steps).value;
      && (forall p :: 0 <= p < |s.order| ==> s.order[p].ticket < |s.calls|)
      && OfInstrument(s.consumed, i) == History(Serve(Served(s)).0, i)
      && AllReturned(s)
  {
    InvAlways(c, steps);
    BusAlways(c, steps);
    EventsArriveInOrder(c, steps, i);
    var s := After(c, steps).value;
    OwnerExists(c, i);
    assert ShardFormed(c, s, c.Owner(i));
    assert s.consumed + [] + [] == s.consumed;
    forall t | 0 <= t < |s.calls| ensures s.calls[t].returned.Some? {
      assert CallFormed(c, s, t);
    }
  }
}
