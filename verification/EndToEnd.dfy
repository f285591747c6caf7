/** From the clients to the consumer: what the consumer saw is enough to rebuild every book. */
module EndToEnd {
  import opened Types
  import opened BookSpec
  import opened Stamping
  import opened EventSourcing
  import opened EngineSpec
  import opened ShardMaps
  import opened Concurrent
  import opened Linearizability
  import opened BusProtocol
  import opened Projection

  predicate Proper(r: Request) {
    r.Execute? ==> Submittable(r.command.action)
  }

  lemma {:induction false} ProperActions(requests: seq<Request>, i: InstrumentId)
    requires forall p :: 0 <= p < |requests| ==> Proper(requests[p])
    ensures forall k :: 0 <= k < |ActionsOf(requests, i)| ==> Submittable(ActionsOf(requests, i)[k])
  {
    if requests == [] {
    } else {
      ProperActions(requests[..|requests| - 1], i);
    }
  }

  /** Every book of an engine that serves proper requests has a faithful log. */
  lemma ServedBooksAreFaithful(requests: seq<Request>, i: InstrumentId)
    requires forall p :: 0 <= p < |requests| ==> Proper(requests[p])
    requires i in Serve(requests).0
    ensures Faithful(Serve(requests).0[i])
  {
    ServedBooks(requests, i);
    ProperActions(requests, i);
    LogIsTheTruth(i, ActionsOf(requests, i));
  }

  /** In every reachable state the owner of an instrument has the book of a run of the commands served for it. */
  lemma ShardBooks(c: Config, steps: seq<Step>, i: InstrumentId)
    requires c.Valid() && After(c, steps).Some?
    ensures var s := After(c, steps).value;
      && |s.shards| == c.shardCount
      && (forall p :: 0 <= p < |s.order| ==> s.order[p].ticket < |s.calls|)
      && Lookup(s.shards[c.Owner(i)].engine, i) == BookOf(Served(s), i)
  {
    InvAlways(c, steps);
    ServedBooks(Served(After(c, steps).value), i);
  }

  /**
   However clients, shards and the bus were interleaved: once the system has shut down, replaying
   what the consumer saw of an instrument gives the book that a single engine would have had after
   serving the same calls, which is the book of a run of the commands for that instrument.
   */
  lemma ConsumerRebuildsEveryBook(c: Config, steps: seq<Step>, i: InstrumentId)
    requires c.Valid() && After(c, steps).Some? && After(c, steps).value.consumerDone
    requires forall t :: 0 <= t < |After(c, steps).value.calls| ==> Proper(After(c, steps).value.calls[t].request)
    ensures var s := After(c, steps).value;
      && (forall p :: 0 <= p < |s.order| ==> s.order[p].ticket < |s.calls|)
      && var engine := Serve(Served(s)).0;
      && var seen := FactsOf(OfInstrument(s.consumed, i));
      && Lookup(engine, i) == BookOf(Served(s), i)
      && (i in engine ==> seen == engine[i].log && Replay(seen) == PlainSides(engine[i].sides))
      && (i !in engine ==> seen == [])
  {
    ShutdownLosesNothing(c, steps, i);
    var s := After(c, steps).value;
    var engine := Serve(Served(s)).0;
    ServedBooks(Served(s), i);
    if i in engine {
      ServedBooksAreFaithful(Served(s), i);
      EventsCarryTheLog(i, engine[i].log);
    }
  }
}
