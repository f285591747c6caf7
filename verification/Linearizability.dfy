/** Every run of the sharded system answers as one engine does that serves one call at a time. */
module Linearizability {
  import opened Types
  import opened BookSpec
  import opened EngineSpec
  import opened ShardMaps
  import opened Concurrent

  /** The processed calls have places 0, 1, 2, ... in the order of the times they were processed at. */
  ghost predicate InPlace(s: System) {
    && (forall p :: 0 <= p < |s.order| ==>
          && s.order[p].ticket < |s.calls|
          && s.calls[s.order[p].ticket].position == Some(p)
          && s.calls[s.order[p].ticket].invoked < s.order[p].time < s.clock)
    && (forall p, q :: 0 <= p < q < |s.order| ==> s.order[p].time < s.order[q].time)
    && (forall t :: 0 <= t < |s.calls| ==> CallPlaced(s, t))
  }

  ghost predicate CallPlaced(s: System, t: nat)
    requires t < |s.calls|
  {
    var call := s.calls[t];
    && call.invoked < s.clock
    && (call.position.Some? ==> call.position.value < |s.order| && s.order[call.position.value].ticket == t)
    && (call.reply.Some? ==> call.position.Some?)
    && (call.returned.Some? ==>
          && call.reply.Some?
          && s.order[call.position.value].time < call.returned.value < s.clock)
  }

  /** The processed requests in that order. */
  function Served(s: System): seq<Request>
    requires forall p :: 0 <= p < |s.order| ==> s.order[p].ticket < |s.calls|
  {
    seq(|s.order|, p requires 0 <= p < |s.order| => s.calls[s.order[p].ticket].request)
  }

  /** The single engine that serves them gives the same replies and has the same books. */
  ghost predicate AnswersAlike(c: Config, s: System)
    requires c.Valid() && Sound(c, s) && InPlace(s)
  {
    var (engine, replies) := Serve(Served(s));
    && (forall t :: 0 <= t < |s.calls| && s.calls[t].reply.Some? ==> RepliedAs(s, t, replies))
    && (forall k :: 0 <= k < |s.shards| ==> FliesAs(s, k, replies))
    && (forall i: InstrumentId :: Lookup(s.shards[c.Owner(i)].engine, i) == Lookup(engine, i))
  }

  ghost predicate RepliedAs(s: System, t: nat, replies: seq<Reply>)
    requires t < |s.calls| && s.calls[t].reply.Some?
  {
    var p := s.calls[t].position;
    p.Some? && p.value < |replies| && s.calls[t].reply.value == replies[p.value]
  }

  ghost predicate FliesAs(s: System, k: nat, replies: seq<Reply>)
    requires k < |s.shards|
  {
    s.shards[k].busy.Some? ==>
      var f := s.shards[k].busy.value;
      f.ticket < |s.calls| &&
      var p := s.calls[f.ticket].position;
      p.Some? && p.value < |replies| && f.reply == replies[p.value]
  }

  ghost predicate Inv(c: Config, s: System)
    requires c.Valid()
  {
    Sound(c, s) && InPlace(s) && AnswersAlike(c, s)
  }

  lemma InitInv(c: Config)
    requires c.Valid()
    ensures Inv(c, Init(c))
  {
    hide Process;
    var s := Init(c);
    assert Served(s) == [];
    assert forall k :: 0 <= k < |s.shards| ==> s.shards[k] == ShardThread([], map[], None, false);
    forall i: InstrumentId ensures Lookup(s.shards[c.Owner(i)].engine, i) == None {
      OwnerExists(c, i);
    }
  }

  lemma TakePlaces(c: Config, s: System, k: nat)
    requires c.Valid() && Sound(c, s) && InPlace(s) && CanTake(s, k)
    ensures InPlace(Taken(s, k))
    ensures Served(Taken(s, k)) == Served(s) + [s.calls[s.shards[k].queue[0]].request]
  {
    hide Process;
    var s' := Taken(s, k);
    var ticket, n := s.shards[k].queue[0], |s.order|;
    assert ShardFormed(c, s, k);
    assert s.calls[ticket].position.None?;
    assert CallPlaced(s, ticket);
    forall t | 0 <= t < |s'.calls| ensures CallPlaced(s', t) {
      assert CallPlaced(s, t);
    }
    forall p | 0 <= p < |s'.order|
      ensures s'.order[p].ticket < |s'.calls| && s'.calls[s'.order[p].ticket].position == Some(p)
      ensures s'.calls[s'.order[p].ticket].invoked < s'.order[p].time < s'.clock
      ensures p < n ==> s'.order[p].time < s'.order[n].time
    {
      if p < n {
        assert s.calls[s.order[p].ticket].position == Some(p);
      }
    }
  }

  lemma TakeKeeps(c: Config, s: System, k: nat)
    requires c.Valid() && Inv(c, s) && CanTake(s, k)
    ensures Inv(c, Taken(s, k))
  {
    hide Process;
    var s' := Taken(s, k);
    var h := s.shards[k];
    var ticket := h.queue[0];
    var r := s.calls[ticket].request;
    TakeKeepsSound(c, s, k);
    TakePlaces(c, s, k);
    assert ShardFormed(c, s, k);
    assert OwnerOf(c, s, ticket) == k && s.calls[ticket].position.None?;
    assert CallPlaced(s, ticket);
    var (engine, replies) := Serve(Served(s));
    assert Served(s')[..|s.order|] == Served(s);
    ProcessIsLocal(h.engine, engine, r);
    ProcessIsLocal(engine, engine, r);
    var (engine', replies') := Serve(Served(s'));
    assert replies' == replies + [Process(engine, r).1];
    forall t | 0 <= t < |s'.calls| && s'.calls[t].reply.Some? ensures RepliedAs(s', t, replies') {
      assert CallPlaced(s, t);
      assert RepliedAs(s, t, replies);
    }
    forall j | 0 <= j < |s'.shards| ensures FliesAs(s', j, replies') {
      assert FliesAs(s, j, replies);
    }
    forall i: InstrumentId ensures Lookup(s'.shards[c.Owner(i)].engine, i) == Lookup(engine', i) {
      OwnerExists(c, i);
      assert Lookup(s.shards[c.Owner(i)].engine, i) == Lookup(engine, i);
    }
  }

  /** From `call` to `call'` the clock stood at `now`; only a placed call may get its reply. */
  predicate CallGoesOn(call: Call, call': Call, now: nat) {
    && call'.request == call.request && call'.invoked == call.invoked && call'.position == call.position
    && (call'.reply == call.reply || (call.position.Some? && call'.reply.Some?))
    && (call'.returned == call.returned || (call'.reply.Some? && call'.returned == Some(now)))
  }

  /** The order of processing stays; calls go on, and a new one may come. */
  ghost predicate GoesOn(s: System, s': System) {
    && s'.order == s.order && s'.clock == s.clock + 1 && |s.calls| <= |s'.calls|
    && (forall t :: 0 <= t < |s.calls| ==> CallGoesOn(s.calls[t], s'.calls[t], s.clock))
    && (forall t :: |s.calls| <= t < |s'.calls| ==>
          && s'.calls[t].invoked == s.clock
          && s'.calls[t].position == None && s'.calls[t].reply == None && s'.calls[t].returned == None)
  }

  lemma OtherStepsGoOn(c: Config, s: System, step: Step)
    requires c.Valid() && Sound(c, s) && Enabled(c, s, step) && !step.Take?
    ensures GoesOn(s, Next(c, s, step))
  {
    hide Taken, CanTake, CallFormed, AllReturned, Route, Process;
    if step.Answer? {
      assert ShardFormed(c, s, step.shard);
    }
  }

  lemma GoingOnPlaces(s: System, s': System)
    requires InPlace(s) && GoesOn(s, s')
    ensures InPlace(s') && Served(s') == Served(s)
  {
    forall t | 0 <= t < |s'.calls| ensures CallPlaced(s', t) {
      if t < |s.calls| {
        assert CallPlaced(s, t) && CallGoesOn(s.calls[t], s'.calls[t], s.clock);
      }
    }
    forall p | 0 <= p < |s.order|
      ensures s'.order[p].ticket < |s'.calls|
      ensures s'.calls[s'.order[p].ticket].request == s.calls[s.order[p].ticket].request
      ensures s'.calls[s'.order[p].ticket].position == Some(p)
      ensures s'.calls[s'.order[p].ticket].invoked < s'.order[p].time < s'.clock
    {
      assert CallGoesOn(s.calls[s.order[p].ticket], s'.calls[s.order[p].ticket], s.clock);
    }
  }

  /** No step but taking a request changes a book, or an answer already given or on its way. */
  lemma OtherStepsAnswer(c: Config, s: System, step: Step, replies: seq<Reply>, t: nat)
    requires c.Valid() && Sound(c, s) && Enabled(c, s, step) && !step.Take?
    requires forall k :: 0 <= k < |s.shards| ==> FliesAs(s, k, replies)
    requires t < |s.calls| && s.calls[t].reply.Some? ==> RepliedAs(s, t, replies)
    requires t < |Next(c, s, step).calls| && Next(c, s, step).calls[t].reply.Some?
    ensures RepliedAs(Next(c, s, step), t, replies)
  {
    if step.Answer? {
      assert FliesAs(s, step.shard, replies);
      assert ShardFormed(c, s, step.shard);
    }
  }

  lemma OtherStepsShard(c: Config, s: System, step: Step, k: nat)
    requires c.Valid() && Enabled(c, s, step) && !step.Take? && k < |s.shards|
    ensures |Next(c, s, step).shards| == |s.shards|
    ensures var h, h' := s.shards[k], Next(c, s, step).shards[k];
      && h'.engine == h.engine
      && (h'.busy.Some? ==>
            && h.busy.Some?
            && h'.busy.value.ticket == h.busy.value.ticket && h'.busy.value.reply == h.busy.value.reply)
  {
    hide Process, Taken, CanTake, AllReturned, Route;
    match step
    case Invoke(_, _) =>
    case Publish(_) =>
    case Answer(_) =>
    case _ =>
  }

  lemma OtherStepsFly(c: Config, s: System, step: Step, replies: seq<Reply>, k: nat)
    requires c.Valid() && Sound(c, s) && Enabled(c, s, step) && !step.Take?
    requires k < |s.shards| && FliesAs(s, k, replies)
    ensures k < |Next(c, s, step).shards| && FliesAs(Next(c, s, step), k, replies)
    ensures Next(c, s, step).shards[k].engine == s.shards[k].engine
  {
    hide Sound, Enabled, Next;
    OtherStepsGoOn(c, s, step);
    OtherStepsShard(c, s, step, k);
    var s' := Next(c, s, step);
    if s'.shards[k].busy.Some? {
      var t := s.shards[k].busy.value.ticket;
      assert CallGoesOn(s.calls[t], s'.calls[t], s.clock);
    }
  }

  lemma OtherStepsKeep(c: Config, s: System, step: Step)
    requires c.Valid() && Inv(c, s) && Enabled(c, s, step) && !step.Take?
    ensures Inv(c, Next(c, s, step))
  {
    hide Enabled, Next, Serve, FliesAs, RepliedAs, GoesOn;
    var s' := Next(c, s, step);
    StepKeepsSound(c, s, step);
    OtherStepsGoOn(c, s, step);
    GoingOnPlaces(s, s');
    var (engine, replies) := Serve(Served(s));
    forall t | 0 <= t < |s'.calls| && s'.calls[t].reply.Some? ensures RepliedAs(s', t, replies) {
      OtherStepsAnswer(c, s, step, replies, t);
    }
    forall k | 0 <= k < |s'.shards| ensures FliesAs(s', k, replies) {
      OtherStepsFly(c, s, step, replies, k);
    }
    forall i: InstrumentId ensures Lookup(s'.shards[c.Owner(i)].engine, i) == Lookup(engine, i) {
      OwnerExists(c, i);
      OtherStepsFly(c, s, step, replies, c.Owner(i));
      assert Lookup(s.shards[c.Owner(i)].engine, i) == Lookup(engine, i);
    }
  }

  lemma StepKeeps(c: Config, s: System, step: Step)
    requires c.Valid() && Inv(c, s) && Enabled(c, s, step)
    ensures Inv(c, Next(c, s, step))
  {
    if step.Take? {
      TakeKeeps(c, s, step.shard);
    } else {
      OtherStepsKeep(c, s, step);
    }
  }

  lemma {:induction false} InvAlways(c: Config, steps: seq<Step>)
    requires c.Valid() && After(c, steps).Some?
    ensures Inv(c, After(c, steps).value)
  {
    if steps == [] {
      InitInv(c);
    } else {
      InvAlways(c, steps[..|steps| - 1]);
      StepKeeps(c, After(c, steps[..|steps| - 1]).value, steps[|steps| - 1]);
    }
  }

  lemma InvIsSound(c: Config, s: System)
    requires c.Valid() && Inv(c, s)
    ensures Sound(c, s)
  {}

  lemma SoundAfter(c: Config, steps: seq<Step>)
    requires c.Valid() && After(c, steps).Some?
    ensures Sound(c, After(c, steps).value)
  {
    InvAlways(c, steps);
    InvIsSound(c, After(c, steps).value);
  }

  /** `a` had returned when `b`, processed by now, was made. */
  predicate Before(a: Call, b: Call) {
    a.returned.Some? && b.position.Some? && a.returned.value < b.invoked
  }

  lemma EarlierIsBefore(s: System, a: nat, b: nat)
    requires InPlace(s) && a < |s.calls| && b < |s.calls| && Before(s.calls[a], s.calls[b])
    ensures s.calls[a].position.Some? && s.calls[a].position.value < s.calls[b].position.value
  {
    assert CallPlaced(s, a) && CallPlaced(s, b);
    var p, q := s.calls[a].position.value, s.calls[b].position.value;
    assert s.order[p].time < s.calls[a].returned.value < s.calls[b].invoked < s.order[q].time;
  }

  lemma PlaceIsOwn(s: System, t: nat)
    requires InPlace(s) && t < |s.calls| && s.calls[t].position.Some?
    ensures s.calls[t].position.value < |s.order| && s.order[s.calls[t].position.value].ticket == t
  {
    assert CallPlaced(s, t);
  }

  /**
   Linearizability. In every reachable state the processed calls stand in one order such that a
   single engine serving them in that order gives each client the reply it got, and a call that
   had returned before another was made comes before it.
   */
  lemma RunsAreLinearizable(c: Config, steps: seq<Step>)
    requires c.Valid() && After(c, steps).Some?
    ensures var s := After(c, steps).value;
      && (forall p :: 0 <= p < |s.order| ==> s.order[p].ticket < |s.calls|)
      && var replies := Serve(Served(s)).1;
      && (forall t :: 0 <= t < |s.calls| && s.calls[t].reply.Some? ==> RepliedAs(s, t, replies))
      && (forall t :: 0 <= t < |s.calls| && s.calls[t].position.Some? ==>
            s.calls[t].position.value < |s.order| && s.order[s.calls[t].position.value].ticket == t)
      && (forall a, b | 0 <= a < |s.calls| && 0 <= b < |s.calls| && Before(s.calls[a], s.calls[b]) ::
            s.calls[a].position.Some? && s.calls[a].position.value < s.calls[b].position.value)
  {
    hide After, Sound, Serve, RepliedAs, FliesAs, CallPlaced;
    InvAlways(c, steps);
    var s := After(c, steps).value;
    forall a, b | 0 <= a < |s.calls| && 0 <= b < |s.calls| && Before(s.calls[a], s.calls[b])
      ensures s.calls[a].position.Some? && s.calls[a].position.value < s.calls[b].position.value
    {
      EarlierIsBefore(s, a, b);
    }
    forall t | 0 <= t < |s.calls| && s.calls[t].position.Some?
      ensures s.calls[t].position.value < |s.order| && s.order[s.calls[t].position.value].ticket == t
    {
      PlaceIsOwn(s, t);
    }
  }
}
