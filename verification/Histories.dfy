/** The times in a state are those at which its steps were taken. */
module Histories {
  import opened Types
  import opened EngineSpec
  import opened ShardMaps
  import opened Concurrent
  import opened Linearizability

  /** The client made this very request when it is said to have, and got back when it is said to have. */
  predicate CallTimed(steps: seq<Step>, t: nat, call: Call) {
    && call.invoked < |steps| && steps[call.invoked] == Invoke(call.client, call.request)
    && (call.returned.Some? ==> call.returned.value < |steps| && steps[call.returned.value] == Return(t))
  }

  /** The request was taken, at the shard that owns its instrument, when it is said to have been. */
  predicate EntryTimed(c: Config, steps: seq<Step>, s: System, e: Entry)
    requires c.Valid()
  {
    e.ticket < |s.calls| && e.time < |steps| && steps[e.time] == Take(OwnerOf(c, s, e.ticket))
  }

  /** Step number `j` left its mark. */
  ghost predicate StepRecorded(s: System, step: Step, j: nat) {
    match step
    case Invoke(_, _) => exists t :: 0 <= t < |s.calls| && s.calls[t].invoked == j
    case Return(t) => t < |s.calls| && s.calls[t].returned == Some(j)
    case Take(_) => exists p :: 0 <= p < |s.order| && s.order[p].time == j
    case _ => true
  }

  ghost predicate Recorded(c: Config, steps: seq<Step>, s: System)
    requires c.Valid()
  {
    && s.clock == |steps|
    && (forall t :: 0 <= t < |s.calls| ==> CallTimed(steps, t, s.calls[t]))
    && (forall t, u :: 0 <= t < u < |s.calls| ==> s.calls[t].invoked < s.calls[u].invoked)
    && (forall p :: 0 <= p < |s.order| ==> EntryTimed(c, steps, s, s.order[p]))
    && (forall j :: 0 <= j < |steps| ==> StepRecorded(s, steps[j], j))
    && (s.routerOpen <==> CloseRouter !in steps)
  }

  lemma CallStaysTimed(c: Config, steps: seq<Step>, s: System, step: Step, t: nat)
    requires c.Valid() && Enabled(c, s, step) && s.clock == |steps|
    requires t < |s.calls| ==> CallTimed(steps, t, s.calls[t])
    requires t < |Next(c, s, step).calls|
    ensures CallTimed(steps + [step], t, Next(c, s, step).calls[t])
  {
    hide Process, AllReturned, Route;
    match step
    case Invoke(_, _) =>
    case Take(_) =>
    case Answer(_) =>
    case Return(_) =>
    case _ =>
  }

  /** What was done to a call is not undone, and the calls keep their places. */
  lemma CallStays(c: Config, s: System, step: Step, t: nat)
    requires c.Valid() && Enabled(c, s, step) && t < |s.calls|
    ensures |s.calls| <= |Next(c, s, step).calls|
    ensures var call, call' := s.calls[t], Next(c, s, step).calls[t];
      && call'.invoked == call.invoked && call'.request == call.request
      && (call.returned.Some? ==> call'.returned == call.returned)
  {
    hide Process, AllReturned, Route;
    match step
    case Invoke(_, _) =>
    case Take(_) =>
    case Answer(_) =>
    case Return(_) =>
    case _ =>
  }

  lemma OrderStays(c: Config, s: System, step: Step)
    requires c.Valid() && Enabled(c, s, step)
    ensures var s' := Next(c, s, step);
      s'.order == if step.Take? then s.order + [Entry(s.shards[step.shard].queue[0], s.clock)] else s.order
  {
    hide Process, AllReturned, Route;
  }

  lemma EntryStaysTimed(c: Config, steps: seq<Step>, s: System, step: Step, p: nat)
    requires c.Valid() && Sound(c, s) && Enabled(c, s, step) && s.clock == |steps|
    requires p < |s.order| ==> EntryTimed(c, steps, s, s.order[p])
    requires p < |Next(c, s, step).order|
    ensures EntryTimed(c, steps + [step], Next(c, s, step), Next(c, s, step).order[p])
  {
    hide Next, Sound;
    OrderStays(c, s, step);
    if p < |s.order| {
      CallStays(c, s, step, s.order[p].ticket);
    } else {
      assert ShardFormed(c, s, step.shard) by {
        SoundHas(c, s, step.shard);
      }
      CallStays(c, s, step, s.shards[step.shard].queue[0]);
    }
  }

  lemma SoundHas(c: Config, s: System, k: nat)
    requires c.Valid() && Sound(c, s) && k < |s.shards|
    ensures ShardFormed(c, s, k)
  {}

  lemma StepStaysRecorded(c: Config, s: System, step: Step, earlier: Step, j: nat)
    requires c.Valid() && Enabled(c, s, step) && StepRecorded(s, earlier, j)
    ensures StepRecorded(Next(c, s, step), earlier, j)
  {
    hide Next, Enabled;
    OrderStays(c, s, step);
    var s' := Next(c, s, step);
    match earlier
    case Invoke(_, _) =>
      var t :| 0 <= t < |s.calls| && s.calls[t].invoked == j;
      CallStays(c, s, step, t);
      assert s'.calls[t].invoked == j;
    case Return(t) => CallStays(c, s, step, t);
    case Take(_) =>
      var p :| 0 <= p < |s.order| && s.order[p].time == j;
      assert s'.order[p].time == j;
    case _ =>
  }

  lemma NewStepRecorded(c: Config, s: System, step: Step)
    requires c.Valid() && Enabled(c, s, step)
    ensures StepRecorded(Next(c, s, step), step, s.clock) && Next(c, s, step).clock == s.clock + 1
    ensures Next(c, s, step).routerOpen <==> s.routerOpen && !step.CloseRouter?
  {
    hide Process, AllReturned, Route;
    var s' := Next(c, s, step);
    match step
    case Invoke(_, _) => assert s'.calls[|s.calls|].invoked == s.clock;
    case Take(_) => assert s'.order[|s.order|].time == s.clock;
    case Return(_) =>
    case _ =>
  }

  lemma StaysRecorded(c: Config, steps: seq<Step>, s: System, step: Step)
    requires c.Valid() && Sound(c, s) && Enabled(c, s, step) && Recorded(c, steps, s)
    ensures Recorded(c, steps + [step], Next(c, s, step))
  {
    hide Next, Enabled, Sound, CallTimed, EntryTimed, StepRecorded;
    var s', steps' := Next(c, s, step), steps + [step];
    NewStepRecorded(c, s, step);
    forall t | 0 <= t < |s'.calls| ensures CallTimed(steps', t, s'.calls[t]) {
      CallStaysTimed(c, steps, s, step, t);
    }
    forall t, u | 0 <= t < u < |s'.calls| ensures s'.calls[t].invoked < s'.calls[u].invoked {
      InvokedInTurn(c, steps, s, step, t, u);
    }
    forall p | 0 <= p < |s'.order| ensures EntryTimed(c, steps', s', s'.order[p]) {
      EntryStaysTimed(c, steps, s, step, p);
    }
    forall j | 0 <= j < |steps'| ensures StepRecorded(s', steps'[j], j) {
      if j < |steps| {
        StepStaysRecorded(c, s, step, steps[j], j);
      }
    }
  }

  lemma InvokedInTurn(c: Config, steps: seq<Step>, s: System, step: Step, t: nat, u: nat)
    requires c.Valid() && Enabled(c, s, step) && Recorded(c, steps, s) && t < u < |Next(c, s, step).calls|
    ensures Next(c, s, step).calls[t].invoked < Next(c, s, step).calls[u].invoked
  {
    hide Process, AllReturned, Route, EntryTimed, StepRecorded;
    assert CallTimed(steps, t, s.calls[t]);
    CallStays(c, s, step, t);
    if u < |s.calls| {
      CallStays(c, s, step, u);
    }
  }

  /**
   The history that the states carry is the true one: each call is one invocation by its client,
   with that client's request, in the order of the invocations; it is processed by one step of the
   shard that owns its instrument and ends with its own return; and all three happened at the times
   that the state names.
   */
  lemma {:induction false} TimesAreTrue(c: Config, steps: seq<Step>)
    requires c.Valid() && After(c, steps).Some?
    ensures Recorded(c, steps, After(c, steps).value)
  {
    hide Enabled, Next, Sound, Inv;
    if steps == [] {
    } else {
      var init, step := steps[..|steps| - 1], steps[|steps| - 1];
      TimesAreTrue(c, init);
      SoundAfter(c, init);
      StaysRecorded(c, init, After(c, init).value, step);
      assert steps == init + [step];
    }
  }

  /** A client can make any request exactly as long as the router is there and its last call came back. */
  lemma ClientsCanCall(c: Config, steps: seq<Step>, client: nat, r: Request)
    requires c.Valid() && After(c, steps).Some?
    ensures var s := After(c, steps).value;
      Enabled(c, s, Invoke(client, r)) <==>
        && CloseRouter !in steps
        && forall t :: 0 <= t < |s.calls| && s.calls[t].client == client ==> s.calls[t].returned.Some?
  {
    hide After, Sound, Route;
    TimesAreTrue(c, steps);
    SoundAfter(c, steps);
    OwnerExists(c, r.Target());
    assert |After(c, steps).value.shards| == c.shardCount by {
      SoundCount(c, After(c, steps).value);
    }
  }

  lemma SoundCount(c: Config, s: System)
    requires c.Valid() && Sound(c, s)
    ensures |s.shards| == c.shardCount
  {}
}
