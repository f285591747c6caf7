/** Buyers and sellers are treated alike: the book commutes with swapping the two sides. */
module Mirror {
  import opened Types
  import opened Queues
  import opened Matching
  import opened BookSpec
  import opened BookInvariant

  function FlipOrder(o: Order): Order { o.(side := o.side.Opposite(), price := -o.price) }

  function FlipQueue(q: seq<Order>): seq<Order> {
    seq(|q|, i requires 0 <= i < |q| => FlipOrder(q[i]))
  }

  function FlipSides(s: Sides): Sides { Sides(FlipQueue(s.asks), FlipQueue(s.bids)) }

  function FlipPrice(p: Option<Price>): Option<Price> {
    match p case None => None case Some(x) => Some(-x)
  }

  function FlipFact(f: Fact): Fact {
    match f
    case Accepted(id, side, price, quantity) => Accepted(id, side.Opposite(), -price, quantity)
    case Traded(price, quantity, maker, taker, side) => Fact.Traded(-price, quantity, maker, taker, side.Opposite())
    case TopOfBook(bid, ask) => TopOfBook(FlipPrice(ask), FlipPrice(bid))
    case Rejected(_, _) => f
    case Canceled(_, _) => f
  }

  function FlipFacts(facts: seq<Fact>): seq<Fact> {
    seq(|facts|, i requires 0 <= i < |facts| => FlipFact(facts[i]))
  }

  function FlipBook(b: Book): Book { Book(FlipSides(b.sides), FlipFacts(b.log)) }

  function FlipAction(a: Action): Action {
    match a
    case PlaceOrder(o) => PlaceOrder(FlipOrder(o))
    case CancelOrder(_) => a
    case CancelOrders(_) => a
    case ModifyOrder(m) => ModifyOrder(FlipModify(m))
  }

  function FlipModify(m: OrderModify): OrderModify { m.(side := m.side.Opposite(), price := -m.price) }

  function FlipActions(actions: seq<Action>): seq<Action> {
    seq(|actions|, i requires 0 <= i < |actions| => FlipAction(actions[i]))
  }

  // --- queues --------------------------------------------------------------------------------

  lemma FlipCons(x: Order, q: seq<Order>)
    ensures FlipQueue([x] + q) == [FlipOrder(x)] + FlipQueue(q)
  {}

  lemma FlipTail(q: seq<Order>)
    requires q != []
    ensures FlipQueue(q)[1..] == FlipQueue(q[1..])
  {}

  lemma {:induction false} FlipInsert(side: Side, q: seq<Order>, o: Order)
    ensures FlipQueue(Insert(side, q, o)) == Insert(side.Opposite(), FlipQueue(q), FlipOrder(o))
  {
    if q == [] {
    } else if Better(side, o.price, q[0].price) {
      FlipCons(o, q);
    } else {
      FlipInsert(side, q[1..], o);
      FlipCons(q[0], Insert(side, q[1..], o));
      FlipTail(q);
    }
  }

  lemma {:induction false} FlipRemove(q: seq<Order>, id: OrderId)
    ensures FlipQueue(Remove(q, id)) == Remove(FlipQueue(q), id)
  {
    if q == [] {
    } else {
      FlipRemove(q[1..], id);
      FlipTail(q);
      FlipCons(q[0], Remove(q[1..], id));
    }
  }

  lemma {:induction false} FlipFind(q: seq<Order>, id: OrderId)
    ensures Find(FlipQueue(q), id) == match Find(q, id) case None => None case Some(o) => Some(FlipOrder(o))
  {
    if q == [] {
    } else {
      FlipFind(q[1..], id);
      FlipTail(q);
    }
  }

  lemma {:induction false} FlipAtPrice(q: seq<Order>, p: Price)
    ensures AtPrice(FlipQueue(q), -p) == FlipQueue(AtPrice(q, p))
    ensures Total(FlipQueue(q)) == Total(q)
  {
    if q == [] {
    } else {
      FlipAtPrice(q[1..], p);
      FlipTail(q);
      FlipCons(q[0], AtPrice(q[1..], p));
    }
  }

  // --- matching ------------------------------------------------------------------------------

  function FlipFills(fills: seq<Fill>): seq<Fill> {
    seq(|fills|, i requires 0 <= i < |fills| => fills[i].(price := -fills[i].price))
  }

  lemma FlipReduceHead(q: seq<Order>, t: Quantity)
    requires q != [] && t <= q[0].remaining
    ensures ReduceHead(FlipQueue(q), t) == FlipQueue(ReduceHead(q, t))
  {
    FlipTail(q);
  }

  function FlipResult(r: MatchResult): MatchResult {
    r.(fills := FlipFills(r.fills), rest := FlipQueue(r.rest))
  }

  lemma FlipFillsCons(fill: Fill, fills: seq<Fill>)
    ensures FlipFills([fill] + fills) == [fill.(price := -fill.price)] + FlipFills(fills)
  {}

  lemma {:induction false} FlipMatch(side: Side, limit: Price, quantity: Quantity, makers: seq<Order>)
    ensures Match(side.Opposite(), -limit, quantity, FlipQueue(makers))
         == FlipResult(Match(side, limit, quantity, makers))
  {
    hide FlipFills, ReduceHead;
    if !CanMatch(side, limit, makers) {
      NoFlipFills();
    } else {
      var m := makers[0];
      var t := Min(quantity, m.remaining);
      var fill := Fill(m.price, t, m.id);
      if t == quantity {
        FlipReduceHead(makers, t);
        NoFlipFills();
        FlipFillsCons(fill, []);
        assert [fill] + [] == [fill];
      } else {
        FlipTail(makers);
        FlipMatch(side, limit, quantity - t, makers[1..]);
        FlipFillsCons(fill, Match(side, limit, quantity - t, makers[1..]).fills);
      }
    }
  }

  lemma NoFlipFills()
    ensures FlipFills([]) == []
  {}

  lemma {:induction false} FlipDepth(side: Side, limit: Price, q: seq<Order>)
    ensures Shown(side.Opposite(), -limit, Depth(FlipQueue(q))) == Shown(side, limit, Depth(q))
    decreases |q|
  {
    if q == [] {
    } else {
      var p := q[0].price;
      AtPriceElements(q, p);
      FlipAtPrice(q, p);
      FlipAtPrice(AtPrice(q, p), p);
      var n := |AtPrice(q, p)|;
      assert n > 0;
      assert FlipQueue(q)[n..] == FlipQueue(q[n..]);
      FlipDepth(side, limit, q[n..]);
    }
  }

  // --- commands ------------------------------------------------------------------------------

  lemma FlipHas(s: Sides, id: OrderId)
    requires WellFormed(s)
    ensures FlipSides(s).Find(id) == match s.Find(id) case None => None case Some(o) => Some(FlipOrder(o))
  {
    FlipFind(s.bids, id);
    FlipFind(s.asks, id);
    FindMeaning(s.bids, id);
    FindMeaning(s.asks, id);
  }

  lemma FlipOf(s: Sides, side: Side, q: seq<Order>)
    ensures FlipSides(s).Of(side.Opposite()) == FlipQueue(s.Of(side))
    ensures FlipSides(s).With(side.Opposite(), FlipQueue(q)) == FlipSides(s.With(side, q))
    ensures FlipSides(s).Top() == (FlipPrice(s.Top().1), FlipPrice(s.Top().0))
  {}

  lemma FlipAppend(a: seq<Fact>, b: seq<Fact>)
    ensures FlipFacts(a + b) == FlipFacts(a) + FlipFacts(b)
  {}

  function FlipPlaced(p: Placed): Placed { Placed(FlipSides(p.sides), FlipFacts(p.facts), p.reject) }

  lemma FlipAdmit(s: Sides, o: Order)
    requires WellFormed(s)
    ensures Admit(FlipSides(s), FlipOrder(o)) ==
            match Admit(s, o) case Err(r) => Err(r) case Ok(e) => Ok(FlipOrder(e))
  {
    hide WellFormed, Shown, Depth, FlipSides;
    var makers := s.Of(o.side.Opposite());
    FlipHas(s, o.id);
    FlipOf(s, o.side.Opposite(), makers);
    FlipDepth(o.side, o.price, makers);
  }

  lemma FlipEnter(s: Sides, o: Order, ioc: bool)
    ensures Enter(FlipSides(s), FlipOrder(o), ioc) == FlipPlaced(Enter(s, o, ioc))
  {
    hide Match, FlipSides, FlipQueue, FlipFills;
    var other := o.side.Opposite();
    var makers, own := s.Of(other), s.Of(o.side);
    var m := Match(o.side, o.price, o.remaining, makers);
    var r := o.(remaining := m.left);
    FlipOf(s, o.side, own);
    FlipOf(s, other, makers);
    FlipMatch(o.side, o.price, o.remaining, makers);
    FlipInsert(o.side, own, r);
    var own' := if m.done || ioc then own else Insert(o.side, own, r);
    FlipOf(s, o.side, own');
    FlipOf(s.With(o.side, own'), other, m.rest);
    FlipTradeFacts(m.fills, o.id, other);
    var head := [Accepted(o.id, o.side, o.price, o.initial)];
    var tail := if ioc && !m.done then [Canceled(o.id, m.left)] else [];
    FlipAppend(head + TradeFacts(m.fills, o.id, other), tail);
    FlipAppend(head, TradeFacts(m.fills, o.id, other));
    assert FlipFacts(head) == [FlipFact(head[0])];
    assert FlipFacts(tail) == tail;
  }

  lemma FlipTradeFacts(fills: seq<Fill>, taker: OrderId, side: Side)
    ensures TradeFacts(FlipFills(fills), taker, side.Opposite()) == FlipFacts(TradeFacts(fills, taker, side))
  {}

  lemma FlipPlace(s: Sides, o: Order)
    requires WellFormed(s)
    ensures Place(FlipSides(s), FlipOrder(o)) == FlipPlaced(Place(s, o))
  {
    FlipAdmit(s, o);
    match Admit(s, o)
    case Err(r) =>
      assert FlipFacts([Rejected(o.id, PlaceReason(r))]) == [Rejected(o.id, PlaceReason(r))];
    case Ok(e) =>
      FlipEnter(s, e, ImmediateOrCancel(o.kind));
  }

  function FlipCanceling(c: Canceling): Canceling { c.(sides := FlipSides(c.sides), facts := FlipFacts(c.facts)) }

  lemma FlipCancel(s: Sides, id: OrderId)
    requires WellFormed(s)
    ensures Cancel(FlipSides(s), id) == FlipCanceling(Cancel(s, id))
  {
    hide WellFormed;
    FlipHas(s, id);
    match s.Find(id)
    case None =>
      assert FlipFacts([]) == [];
    case Some(o) =>
      FlipRemove(s.Of(o.side), id);
      FlipOf(s, o.side, Remove(s.Of(o.side), id));
      assert FlipFacts([Canceled(id, o.remaining)]) == [Canceled(id, o.remaining)];
  }

  lemma {:induction false} FlipCancelAll(s: Sides, ids: seq<OrderId>)
    requires WellFormed(s)
    ensures CancelAll(FlipSides(s), ids) == FlipCanceling(CancelAll(s, ids))
  {
    hide WellFormed, FlipSides, FlipFacts, Cancel;
    if ids == [] {
      NoFlipFacts();
    } else {
      var c := CancelAll(s, ids[..|ids| - 1]);
      FlipCancelAll(s, ids[..|ids| - 1]);
      CancelAllKeeps(s, ids[..|ids| - 1]);
      FlipCancel(c.sides, ids[|ids| - 1]);
      FlipAppend(c.facts, Cancel(c.sides, ids[|ids| - 1]).facts);
    }
  }

  lemma NoFlipFacts()
    ensures FlipFacts([]) == []
  {}

  lemma FlipModified(s: Sides, m: OrderModify)
    requires WellFormed(s)
    ensures Modify(FlipSides(s), FlipModify(m)) ==
            var r := Modify(s, m); r.(sides := FlipSides(r.sides), facts := FlipFacts(r.facts))
  {
    hide WellFormed, FlipSides, Cancel, Place;
    FlipHas(s, m.id);
    match s.Find(m.id)
    case None =>
    case Some(o) =>
      if o.side == m.side {
        CancelKeeps(s, m.id);
        FlipCancel(s, m.id);
        var c := Cancel(s, m.id);
        FlipPlace(c.sides, m.Modify(o.kind));
        FlipAppend(c.facts, Place(c.sides, m.Modify(o.kind)).facts);
      }
  }

  lemma FlipCommit(b: Book, after: Sides, facts: seq<Fact>)
    ensures Commit(FlipBook(b), FlipSides(after), FlipFacts(facts)) == FlipBook(Commit(b, after, facts))
  {
    var top := TopFacts(b.sides, after);
    FlipAppend(b.log + facts, top);
    FlipAppend(b.log, facts);
    FlipOf(b.sides, Buy, []);
    FlipOf(after, Buy, []);
  }

  // --- outputs --------------------------------------------------------------------------------

  function FlipTrade(t: Trade): Trade { t.(price := -t.price, makerSide := t.makerSide.Opposite()) }

  function FlipTrades(trades: seq<Trade>): seq<Trade> {
    seq(|trades|, i requires 0 <= i < |trades| => FlipTrade(trades[i]))
  }

  function FlipOutput(o: Output): Output {
    match o
    case PlaceOutput(Ok(trades)) => PlaceOutput(Ok(FlipTrades(trades)))
    case ModifyOutput(Ok(trades)) => ModifyOutput(Ok(FlipTrades(trades)))
    case _ => o
  }

  lemma {:induction false} FlipTradeCount(log: seq<Fact>)
    ensures TradeCount(FlipFacts(log)) == TradeCount(log)
  {
    if log == [] {
    } else {
      FlipTradeCount(log[..|log| - 1]);
      assert FlipFacts(log)[..|log| - 1] == FlipFacts(log[..|log| - 1]);
    }
  }

  lemma {:induction false} FlipTradesSince(instrument: InstrumentId, log: seq<Fact>, from: nat)
    ensures TradesSince(instrument, FlipFacts(log), from) == FlipTrades(TradesSince(instrument, log, from))
  {
    if |log| <= from {
    } else {
      var k := |log| - 1;
      FlipTradesSince(instrument, log[..k], from);
      assert FlipFacts(log)[..k] == FlipFacts(log[..k]);
      FlipTradeCount(log[..k]);
    }
  }

  /** One command: the mirrored command takes the mirrored book to the mirrored book and output. */
  lemma FlipExecute(instrument: InstrumentId, b: Book, a: Action)
    requires WellFormed(b.sides)
    ensures var r := Execute(instrument, b, a);
      Execute(instrument, FlipBook(b), FlipAction(a)) == (FlipBook(r.0), FlipOutput(r.1))
  {
    hide WellFormed, FlipSides, FlipFacts, FlipTrades, Place, Cancel, CancelAll, Modify, Commit, TradesSince;
    assert |FlipFacts(b.log)| == |b.log| by {
      FlipLength(b.log);
    }
    match a
    case PlaceOrder(o) =>
      var p := Place(b.sides, o);
      FlipPlace(b.sides, o);
      FlipCommit(b, p.sides, p.facts);
      FlipTradesSince(instrument, Commit(b, p.sides, p.facts).log, |b.log|);
    case CancelOrder(id) =>
      var c := Cancel(b.sides, id);
      FlipCancel(b.sides, id);
      FlipCommit(b, c.sides, c.facts);
    case CancelOrders(ids) =>
      var c := CancelAll(b.sides, ids);
      FlipCancelAll(b.sides, ids);
      FlipCommit(b, c.sides, c.facts);
    case ModifyOrder(m) =>
      var r := Modify(b.sides, m);
      FlipModified(b.sides, m);
      FlipCommit(b, r.sides, r.facts);
      FlipTradesSince(instrument, Commit(b, r.sides, r.facts).log, |b.log|);
  }

  lemma FlipLength(log: seq<Fact>)
    ensures |FlipFacts(log)| == |log|
  {}

  /** Whole runs: the mirrored commands lead to the mirrored book and log. */
  lemma {:induction false} FlipRun(instrument: InstrumentId, actions: seq<Action>)
    ensures Run(instrument, FlipActions(actions)) == FlipBook(Run(instrument, actions))
  {
    if actions == [] {
      assert FlipBook(EMPTY_BOOK) == EMPTY_BOOK;
    } else {
      var init := actions[..|actions| - 1];
      FlipRun(instrument, init);
      assert FlipActions(actions)[..|actions| - 1] == FlipActions(init);
      ReachableBooks(instrument, init);
      FlipExecute(instrument, Run(instrument, init), actions[|actions| - 1]);
    }
  }
}
