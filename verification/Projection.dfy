/** Each book of an engine is the run of the commands that the engine was given for it. */
module Projection {
  import opened Types
  import opened Queues
  import opened Matching
  import opened BookSpec
  import opened BookInvariant
  import opened EngineSpec
  import opened Answers

  predicate Registered(requests: seq<Request>, i: InstrumentId) {
    Request.RegisterInstrument(i) in requests
  }

  /** The commands for `i` since it was first registered, in order. */
  function ActionsOf(requests: seq<Request>, i: InstrumentId): seq<Action> {
    if requests == [] then []
    else
      var init, r := requests[..|requests| - 1], requests[|requests| - 1];
      if r.Execute? && r.command.instrument == i && Registered(init, i) then ActionsOf(init, i) + [r.command.action]
      else ActionsOf(init, i)
  }

  /** The book of `i` after these requests, if there is one. */
  function BookOf(requests: seq<Request>, i: InstrumentId): Option<Book> {
    if Registered(requests, i) then Some(Run(i, ActionsOf(requests, i))) else None
  }

  lemma {:induction false} NoActionsBefore(requests: seq<Request>, i: InstrumentId)
    requires !Registered(requests, i)
    ensures ActionsOf(requests, i) == []
  {
    if requests == [] {
    } else {
      assert requests == requests[..|requests| - 1] + [requests[|requests| - 1]];
      NoActionsBefore(requests[..|requests| - 1], i);
    }
  }

  /** How the book of one instrument goes on with one more request. */
  lemma OneMoreRequest(init: seq<Request>, r: Request, i: InstrumentId)
    ensures BookOf(init + [r], i)
         == match r
            case RegisterInstrument(j) =>
              if j == i && BookOf(init, i).None? then Some(EMPTY_BOOK) else BookOf(init, i)
            case Execute(c) =>
              if c.instrument == i && BookOf(init, i).Some?
              then Some(BookSpec.Execute(i, BookOf(init, i).value, c.action).0) else BookOf(init, i)
            case _ => BookOf(init, i)
  {
    hide BookSpec.Execute;
    var requests := init + [r];
    assert requests[..|init|] == init;
    assert Registered(requests, i) <==> Registered(init, i) || r == Request.RegisterInstrument(i);
    if !Registered(init, i) {
      NoActionsBefore(init, i);
    } else if r.Execute? && r.command.instrument == i {
      var actions := ActionsOf(init, i);
      assert (actions + [r.command.action])[..|actions|] == actions;
    }
  }

  /**
   An instrument has a book exactly if it was registered, and the book is that of a run of the
   commands for the instrument since then, in the order in which they came.
   */
  lemma {:induction false} ServedBooks(requests: seq<Request>, i: InstrumentId)
    ensures Lookup(Serve(requests).0, i) == BookOf(requests, i)
  {
    hide BookSpec.Execute, BookOf;
    if requests == [] {
      NoBookYet(i);
    } else {
      var init, r := requests[..|requests| - 1], requests[|requests| - 1];
      assert requests == init + [r];
      ServedBooks(init, i);
      OneMoreRequest(init, r, i);
    }
  }

  lemma NoBookYet(i: InstrumentId)
    ensures BookOf([], i) == None
  {}

  /** A reply only depends on the requests before its own. */
  lemma {:induction false} ServedInTurn(requests: seq<Request>, n: nat)
    requires n < |requests|
    ensures Serve(requests).1[n] == Process(Serve(requests[..n]).0, requests[n]).1
  {
    hide Process;
    var init := requests[..|requests| - 1];
    if n == |init| {
    } else {
      ServedInTurn(init, n);
      assert init[..n] == requests[..n];
    }
  }

  /** What a request is owed, given the book of its instrument before it. */
  ghost predicate Owed(before: seq<Request>, r: Request, reply: Reply) {
    match r
    case Execute(c) =>
      var book := BookOf(before, c.instrument);
      if book.None? then reply == ExecuteReply(Err(UnknownInstrument(c.instrument)))
      else
        var (after, output) := BookSpec.Execute(c.instrument, book.value, c.action);
        && |book.value.log| <= |after.log|
        && reply == ExecuteReply(Ok(Executed(
             output, EventsSince(c.instrument, after.log, |book.value.log|),
             Best(after.sides.bids), Best(after.sides.asks))))
    case RegisterInstrument(i) => reply == RegisterReply(!Registered(before, i))
    case OrderbookSnapshot(i) =>
      reply.SnapshotReply? && (reply.snapshot.Some? <==> Registered(before, i)) &&
      (reply.snapshot.Some? ==>
         var s := Run(i, ActionsOf(before, i)).sides;
         RowsOf(Buy, s.bids, reply.snapshot.value.bids) && RowsOf(Sell, s.asks, reply.snapshot.value.asks))
    case TopOfBookQuery(i) =>
      reply.TopReply? && (reply.top.Some? <==> Registered(before, i)) &&
      (reply.top.Some? ==>
         var s := Run(i, ActionsOf(before, i)).sides;
         var (bid, ask) := reply.top.value;
         BestOf(Buy, s.bids, bid) && BestOf(Sell, s.asks, ask)
         && (bid.Some? && ask.Some? ==> bid.value < ask.value))
  }

  /** Every reply is what its request is owed after the requests before it. */
  lemma ServedReplies(requests: seq<Request>, n: nat)
    requires n < |requests|
    ensures Owed(requests[..n], requests[n], Serve(requests).1[n])
  {
    hide Serve, BookSpec.Execute, ActionsOf, Depth, RowsOf, BestOf, Run;
    var before, r := requests[..n], requests[n];
    ServedInTurn(requests, n);
    ServedBooks(before, r.Target());
    if r.Execute? && Registered(before, r.Target()) {
      LogGrows(r.Target(), Run(r.Target(), ActionsOf(before, r.Target())), r.command.action);
    }
    if !r.Execute? {
      Quoted(r.instrument, ActionsOf(before, r.instrument));
    }
  }

  lemma Quoted(instrument: InstrumentId, actions: seq<Action>)
    ensures var s := Run(instrument, actions).sides;
      && RowsOf(Buy, s.bids, Depth(s.bids)) && RowsOf(Sell, s.asks, Depth(s.asks))
      && BestOf(Buy, s.bids, s.Top().0) && BestOf(Sell, s.asks, s.Top().1)
      && (s.Top().0.Some? && s.Top().1.Some? ==> s.Top().0.value < s.Top().1.value)
  {
    var s := Run(instrument, actions).sides;
    ReachableBooks(instrument, actions);
    DepthIsRows(Buy, s.bids);
    DepthIsRows(Sell, s.asks);
    TopIsBest(s);
  }
}
