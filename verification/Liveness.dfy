/** Calls come back and the system can always be shut down. */
module Liveness {
  import opened Types
  import opened EngineSpec
  import opened ShardMaps
  import opened Concurrent
  import opened Linearizability
  import opened BusProtocol

  // --- how far a call is from its return ----------------------------------------------------------

  /** How many tickets are ahead of `t`. */
  function Ahead(queue: seq<nat>, t: nat): nat {
    if queue == [] || queue[0] == t then 0 else 1 + Ahead(queue[1..], t)
  }

  /**
   The first number counts what its shard has to take and to answer before this call has its reply,
   and then the return; the second counts the events that wait for the bus.
   */
  function Distance(c: Config, s: System, t: nat): (nat, nat)
    requires c.Valid() && |s.shards| == c.shardCount && t < |s.calls|
  {
    OwnerExists(c, s.calls[t].request.Target());
    var call, h := s.calls[t], s.shards[OwnerOf(c, s, t)];
    if call.returned.Some? then (0, 0)
    else if call.reply.Some? then (1, 0)
    else if call.position.Some? then (2, |Unpublished(h)|)
    else (3 + 2 * Ahead(h.queue, t) + (if h.busy.Some? then 1 else 0), |Unpublished(h)|)
  }

  predicate Nearer(d: (nat, nat), e: (nat, nat)) { d.0 < e.0 || (d.0 == e.0 && d.1 < e.1) }

  /** The one step that the call `t` waits for. */
  function Awaited(c: Config, s: System, t: nat): Step
    requires c.Valid() && |s.shards| == c.shardCount && t < |s.calls|
  {
    OwnerExists(c, s.calls[t].request.Target());
    var k := OwnerOf(c, s, t);
    if s.calls[t].reply.Some? then Return(t)
    else if s.shards[k].busy.None? then Take(k)
    else if s.shards[k].busy.value.unpublished != [] then Publish(k)
    else Answer(k)
  }

  lemma AwaitedIsEnabled(c: Config, s: System, t: nat)
    requires c.Valid() && Sound(c, s) && t < |s.calls| && s.calls[t].returned.None?
    ensures Enabled(c, s, Awaited(c, s, t))
  {
    var k := OwnerOf(c, s, t);
    OwnerExists(c, s.calls[t].request.Target());
    assert ShardFormed(c, s, k) && CallFormed(c, s, t);
    if s.calls[t].position.None? {
      assert s.shards[k].queue[0] < |s.calls|;
    }
  }

  lemma {:induction false} AheadOfOthers(queue: seq<nat>, queue': seq<nat>, t: nat)
    requires queue <= queue' && t in queue
    ensures Ahead(queue', t) == Ahead(queue, t)
  {
    if queue[0] == t {
    } else {
      AheadOfOthers(queue[1..], queue'[1..], t);
    }
  }

  /** What the distance does not depend on: other calls, other shards, and later requests. */
  lemma SameDistance(c: Config, s: System, s': System, t: nat)
    requires c.Valid() && |s.shards| == |s'.shards| == c.shardCount && t < |s.calls| && t < |s'.calls|
    requires s'.calls[t] == s.calls[t] && OwnerOf(c, s, t) < c.shardCount
    requires var h, h' := s.shards[OwnerOf(c, s, t)], s'.shards[OwnerOf(c, s, t)];
      h'.busy == h.busy && h.queue <= h'.queue && (s.calls[t].position.None? ==> t in h.queue)
    ensures Distance(c, s', t) == Distance(c, s, t) && Awaited(c, s', t) == Awaited(c, s, t)
  {
    hide Route;
    if s.calls[t].position.None? {
      AheadOfOthers(s.shards[OwnerOf(c, s, t)].queue, s'.shards[OwnerOf(c, s, t)].queue, t);
    }
  }

  /** A step that neither belongs to the call's shard nor returns the call. */
  predicate Foreign(c: Config, s: System, step: Step, t: nat)
    requires c.Valid() && t < |s.calls|
  {
    match step
    case Take(k) => k != OwnerOf(c, s, t)
    case Publish(k) => k != OwnerOf(c, s, t)
    case Answer(k) => k != OwnerOf(c, s, t)
    case Return(r) => r != t
    case _ => true
  }

  lemma ForeignStepsStay(c: Config, s: System, step: Step, t: nat)
    requires c.Valid() && Sound(c, s) && Enabled(c, s, step) && t < |s.calls| && Foreign(c, s, step, t)
    ensures var s' := Next(c, s, step);
      && |s'.shards| == c.shardCount && t < |s'.calls|
      && Distance(c, s', t) == Distance(c, s, t) && Awaited(c, s', t) == Awaited(c, s, t)
  {
    hide Distance, Awaited, Process, Sound, ShardFormed, AllReturned;
    var s' := Next(c, s, step);
    OwnerExists(c, s.calls[t].request.Target());
    CallInHand(c, s, t);
    if step.Take? {
      ShardsTickets(c, s, step.shard);
    } else if step.Answer? {
      ShardsTickets(c, s, step.shard);
    }
    SameDistance(c, s, s', t);
  }

  lemma CallInHand(c: Config, s: System, t: nat)
    requires c.Valid() && Sound(c, s) && t < |s.calls|
    ensures OwnerOf(c, s, t) < |s.shards| == c.shardCount && CallFormed(c, s, t)
  {
    OwnerExists(c, s.calls[t].request.Target());
  }

  /** The tickets that a shard works on are its own, and none of them has its reply. */
  lemma ShardsTickets(c: Config, s: System, k: nat)
    requires c.Valid() && Sound(c, s) && k < |s.shards|
    ensures var h := s.shards[k];
      && (h.queue != [] ==>
            var t := h.queue[0];
            t < |s.calls| && OwnerOf(c, s, t) == k && s.calls[t].position.None?)
      && (h.busy.Some? ==>
            var t := h.busy.value.ticket;
            t < |s.calls| && OwnerOf(c, s, t) == k && s.calls[t].position.Some? && s.calls[t].reply.None?)
  {
    assert ShardFormed(c, s, k);
  }

  lemma TakeNears(c: Config, s: System, t: nat)
    requires c.Valid() && Sound(c, s) && t < |s.calls| && s.calls[t].reply.None? && CanTake(s, OwnerOf(c, s, t))
    ensures var s' := Taken(s, OwnerOf(c, s, t));
      && |s'.shards| == c.shardCount && t < |s'.calls|
      && Nearer(Distance(c, s', t), Distance(c, s, t))
  {
    hide Process, Sound, ShardFormed, Route;
    CallInHand(c, s, t);
    ShardsTickets(c, s, OwnerOf(c, s, t));
  }

  lemma PublishNears(c: Config, s: System, t: nat)
    requires c.Valid() && Sound(c, s) && t < |s.calls| && s.calls[t].reply.None? && CanPublish(s, OwnerOf(c, s, t))
    ensures var s' := Published(s, OwnerOf(c, s, t));
      && |s'.shards| == c.shardCount && t < |s'.calls|
      && Nearer(Distance(c, s', t), Distance(c, s, t))
  {
    hide Sound, ShardFormed, Route;
    CallInHand(c, s, t);
  }

  lemma AnswerNears(c: Config, s: System, t: nat)
    requires c.Valid() && Sound(c, s) && t < |s.calls| && s.calls[t].reply.None? && CanAnswer(s, OwnerOf(c, s, t))
    ensures var s' := Answered(s, OwnerOf(c, s, t));
      && |s'.shards| == c.shardCount && t < |s'.calls|
      && Nearer(Distance(c, s', t), Distance(c, s, t))
  {
    hide Sound, ShardFormed, Route;
    CallInHand(c, s, t);
    ShardsTickets(c, s, OwnerOf(c, s, t));
  }

  /** A call with its reply waits for nothing but its own return. */
  lemma RepliedStays(c: Config, s: System, step: Step, t: nat)
    requires c.Valid() && Sound(c, s) && Enabled(c, s, step) && t < |s.calls| && s.calls[t].reply.Some?
    requires step != Return(t)
    ensures var s' := Next(c, s, step);
      && |s'.shards| == c.shardCount && t < |s'.calls|
      && Distance(c, s', t) == Distance(c, s, t) && Awaited(c, s', t) == Awaited(c, s, t)
  {
    hide Process, Sound, ShardFormed, Route, AllReturned;
    CallInHand(c, s, t);
    if step.Take? || step.Answer? {
      ShardsTickets(c, s, step.shard);
    }
  }

  /**
   A call under way can always take the step it waits for; that step brings it nearer to its
   return, and no other step changes the distance or the step it waits for.
   */
  lemma CallsApproachTheirReturn(c: Config, steps: seq<Step>, step: Step, t: nat)
    requires c.Valid() && After(c, steps).Some? && Enabled(c, After(c, steps).value, step)
    requires t < |After(c, steps).value.calls| && After(c, steps).value.calls[t].returned.None?
    ensures var s := After(c, steps).value;
      && |s.shards| == c.shardCount && Enabled(c, s, Awaited(c, s, t))
      && var s' := Next(c, s, step);
      && |s'.shards| == c.shardCount && t < |s'.calls|
      && if step == Awaited(c, s, t) then Nearer(Distance(c, s', t), Distance(c, s, t))
         else Distance(c, s', t) == Distance(c, s, t) && Awaited(c, s', t) == Awaited(c, s, t)
  {
    hide Sound, After, Inv;
    var s := After(c, steps).value;
    assert Sound(c, s) by {
      InvAlways(c, steps);
      InvIsSound(c, s);
    }
    StepNears(c, s, step, t);
  }

  lemma StepNears(c: Config, s: System, step: Step, t: nat)
    requires c.Valid() && Sound(c, s) && Enabled(c, s, step)
    requires t < |s.calls| && s.calls[t].returned.None?
    ensures |s.shards| == c.shardCount && Enabled(c, s, Awaited(c, s, t))
    ensures var s' := Next(c, s, step);
      && |s'.shards| == c.shardCount && t < |s'.calls|
      && if step == Awaited(c, s, t) then Nearer(Distance(c, s', t), Distance(c, s, t))
         else Distance(c, s', t) == Distance(c, s, t) && Awaited(c, s', t) == Awaited(c, s, t)
  {
    hide Sound, Distance, Taken, Published, Answered, Route, AllReturned, Nearer;
    CallInHand(c, s, t);
    AwaitedIsEnabled(c, s, t);
    if step == Return(t) {
      ReturnNears(c, s, t);
    } else if s.calls[t].reply.Some? {
      RepliedStays(c, s, step, t);
    } else if Foreign(c, s, step, t) {
      ForeignStepsStay(c, s, step, t);
    } else {
      match step
      case Take(_) => TakeNears(c, s, t);
      case Publish(_) => PublishNears(c, s, t);
      case Answer(_) => AnswerNears(c, s, t);
    }
  }

  lemma ReturnNears(c: Config, s: System, t: nat)
    requires c.Valid() && Sound(c, s) && CanReturn(s, t)
    ensures |s.shards| == c.shardCount && Nearer(Distance(c, Returned(s, t), t), Distance(c, s, t))
  {}

  // --- schedules ----------------------------------------------------------------------------------

  /** Nothing that was finished in `s` is undone in `s'`, and no call is new. */
  predicate Settles(s: System, s': System) {
    && |s'.calls| == |s.calls| && |s'.shards| == |s.shards|
    && (forall t :: 0 <= t < |s.calls| && s.calls[t].returned.Some? ==> s'.calls[t].returned.Some?)
    && (forall k :: 0 <= k < |s.shards| && s.shards[k].exited ==> s'.shards[k].exited)
    && (!s.routerOpen ==> !s'.routerOpen) && (!s.busOpen ==> !s'.busOpen)
  }

  /** `steps'` goes on from where `steps` led, and makes no new call. */
  predicate Continues(c: Config, steps: seq<Step>, steps': seq<Step>)
    requires c.Valid()
  {
    && steps <= steps' && After(c, steps).Some? && After(c, steps').Some?
    && (forall i :: |steps| <= i < |steps'| ==> !steps'[i].Invoke?)
    && Settles(After(c, steps).value, After(c, steps').value)
  }

  lemma ContinuesOn(c: Config, a: seq<Step>, b: seq<Step>, d: seq<Step>)
    requires c.Valid() && Continues(c, a, b) && Continues(c, b, d)
    ensures Continues(c, a, d)
  {
    hide After;
    assert forall i :: |a| <= i < |b| ==> d[i] == b[i];
  }

  lemma StepSettles(c: Config, s: System, step: Step)
    requires c.Valid() && Enabled(c, s, step) && !step.Invoke?
    ensures Settles(s, Next(c, s, step))
  {
    hide Process, AllReturned, Route;
  }

  /** One more step. */
  lemma GoOn(c: Config, steps: seq<Step>, step: Step) returns (steps': seq<Step>)
    requires c.Valid() && After(c, steps).Some? && Enabled(c, After(c, steps).value, step) && !step.Invoke?
    ensures Continues(c, steps, steps')
    ensures After(c, steps').value == Next(c, After(c, steps).value, step)
  {
    steps' := steps + [step];
    assert steps'[..|steps|] == steps;
    StepSettles(c, After(c, steps).value, step);
  }

  /** Taking the steps that a call waits for ends with its return. */
  lemma {:induction false} CallReturns(c: Config, steps: seq<Step>, t: nat) returns (steps': seq<Step>)
    requires c.Valid() && After(c, steps).Some? && Sound(c, After(c, steps).value)
    requires t < |After(c, steps).value.calls|
    ensures Continues(c, steps, steps') && After(c, steps').value.calls[t].returned.Some?
    decreases Distance(c, After(c, steps).value, t).0, Distance(c, After(c, steps).value, t).1
  {
    hide After, Sound, Enabled, Next, Settles, Distance;
    var s := After(c, steps).value;
    if s.calls[t].returned.Some? {
      steps' := steps;
      SettledAlready(s);
    } else {
      CallInHand(c, s, t);
      AwaitedIsEnabled(c, s, t);
      var step := Awaited(c, s, t);
      StepNears(c, s, step, t);
      steps' := GoOn(c, steps, step);
      SoundAfter(c, steps');
      var steps'' := CallReturns(c, steps', t);
      ContinuesOn(c, steps, steps', steps'');
      steps' := steps'';
    }
  }

  lemma SettledAlready(s: System)
    ensures Settles(s, s)
  {}

  lemma {:induction false} CallsReturn(c: Config, steps: seq<Step>, n: nat) returns (steps': seq<Step>)
    requires c.Valid() && After(c, steps).Some? && n <= |After(c, steps).value.calls|
    ensures Continues(c, steps, steps')
    ensures forall t :: 0 <= t < n ==> After(c, steps').value.calls[t].returned.Some?
  {
    hide After, Sound;
    if n == 0 {
      steps' := steps;
    } else {
      var mid := CallsReturn(c, steps, n - 1);
      SoundAfter(c, mid);
      steps' := CallReturns(c, mid, n - 1);
      ContinuesOn(c, steps, mid, steps');
    }
  }

  lemma ShardCanExit(c: Config, s: System, k: nat)
    requires c.Valid() && Sound(c, s) && AllReturned(s) && !s.routerOpen && k < |s.shards| && !s.shards[k].exited
    ensures CanExitShard(s, k)
  {
    ShardsTickets(c, s, k);
    var h := s.shards[k];
    if h.queue != [] {
      CallInHand(c, s, h.queue[0]);
    }
    if h.busy.Some? {
      CallInHand(c, s, h.busy.value.ticket);
    }
  }

  lemma {:induction false} ShardsExit(c: Config, steps: seq<Step>, n: nat) returns (steps': seq<Step>)
    requires c.Valid() && After(c, steps).Some? && n <= |After(c, steps).value.shards|
    requires AllReturned(After(c, steps).value) && !After(c, steps).value.routerOpen
    ensures Continues(c, steps, steps')
    ensures forall k :: 0 <= k < n ==> After(c, steps').value.shards[k].exited
  {
    hide After, Sound;
    if n == 0 {
      steps' := steps;
    } else {
      steps' := ShardsExit(c, steps, n - 1);
      var s := After(c, steps').value;
      if !s.shards[n - 1].exited {
        SoundAfter(c, steps');
        ShardCanExit(c, s, n - 1);
        var more := GoOn(c, steps', ExitShard(n - 1));
        ContinuesOn(c, steps, steps', more);
        steps' := more;
      }
    }
  }

  lemma {:induction false} ConsumerLeaves(c: Config, steps: seq<Step>) returns (steps': seq<Step>)
    requires c.Valid() && After(c, steps).Some?
    requires var s := After(c, steps).value; !s.busOpen && forall k :: 0 <= k < |s.shards| ==> s.shards[k].exited
    ensures Continues(c, steps, steps') && After(c, steps').value.consumerDone
    decreases |After(c, steps).value.bus|
  {
    hide After;
    var s := After(c, steps).value;
    if s.consumerDone {
      steps' := steps;
    } else if s.bus == [] {
      steps' := GoOn(c, steps, ExitConsumer);
    } else {
      var mid := GoOn(c, steps, Consume);
      steps' := ConsumerLeaves(c, mid);
      ContinuesOn(c, steps, mid, steps');
    }
  }

  lemma Closing(c: Config, steps: seq<Step>) returns (steps': seq<Step>)
    requires c.Valid() && After(c, steps).Some? && AllReturned(After(c, steps).value)
    ensures Continues(c, steps, steps')
    ensures !After(c, steps').value.routerOpen && !After(c, steps').value.busOpen
  {
    hide After;
    steps' := steps;
    if After(c, steps').value.routerOpen {
      steps' := GoOn(c, steps', CloseRouter);
    }
    if After(c, steps').value.busOpen {
      var more := GoOn(c, steps', CloseBus);
      ContinuesOn(c, steps, steps', more);
      steps' := more;
    }
  }

  /**
   From every reachable state, without another call, the system can answer all calls and shut down
   until the consumer has left.
   */
  lemma ShutdownIsReachable(c: Config, steps: seq<Step>) returns (steps': seq<Step>)
    requires c.Valid() && After(c, steps).Some?
    ensures Continues(c, steps, steps')
    ensures After(c, steps').value.consumerDone && AllReturned(After(c, steps').value)
  {
    hide After;
    var a := CallsReturn(c, steps, |After(c, steps).value.calls|);
    var b := Closing(c, a);
    ContinuesOn(c, steps, a, b);
    var d := ShardsExit(c, b, |After(c, b).value.shards|);
    ContinuesOn(c, steps, b, d);
    steps' := ConsumerLeaves(c, d);
    ContinuesOn(c, steps, d, steps');
  }
}
