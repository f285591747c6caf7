/** What a client is told, in terms of the book before its command and of the events of the command. */
module Answers {
  import opened Types
  import opened Queues
  import opened Matching
  import opened BookSpec
  import opened BookInvariant
  import opened Stamping
  import opened Taking
  import opened Laws
  import opened Grammar

  // --- placing ----------------------------------------------------------------------------------

  ghost predicate Live(s: Sides, id: OrderId) {
    exists x :: (x in s.bids || x in s.asks) && x.id == id
  }

  /** Some opposing order is within the limit. */
  ghost predicate WouldTrade(s: Sides, o: Order) {
    exists x :: x in s.Of(o.side.Opposite()) && if o.side.Buy? then x.price <= o.price else o.price <= x.price
  }

  /** Why an order is refused, if it is. */
  ghost function Refusal(s: Sides, o: Order): Option<PlaceReject> {
    var makers := s.Of(o.side.Opposite());
    if Live(s, o.id) then Some(DuplicateOrderId)
    else
      match o.kind
      case GoodTillCancel => None
      case Market => if makers == [] then Some(NoLiquidityForMarket) else None
      case PostOnly => if WouldTrade(s, o) then Some(PostOnlyWouldTakeLiquidity) else None
      case FillAndKill => if WouldTrade(s, o) then None else Some(FillAndKillNoMatch)
      case FillOrKill =>
        if WouldTrade(s, o) && o.initial <= Shown(o.side, o.price, Depth(makers)) then None
        else Some(FillOrKillInsufficientLiquidity)
  }

  lemma LiveMeansHas(s: Sides, id: OrderId)
    ensures Live(s, id) <==> s.Has(id)
  {
    HasMeaning(s, id);
    FindMeaning(s.bids, id);
    FindMeaning(s.asks, id);
  }

  /** The head of the opposing queue decides whether an order would trade. */
  lemma HeadDecides(s: Sides, o: Order)
    requires WellFormed(s)
    ensures WouldTrade(s, o) <==> CanMatch(o.side, o.price, s.Of(o.side.Opposite()))
  {
    var makers := s.Of(o.side.Opposite());
    if WouldTrade(s, o) {
      var x :| x in makers && if o.side.Buy? then x.price <= o.price else o.price <= x.price;
      SortedHead(o.side.Opposite(), makers, x);
    }
    if CanMatch(o.side, o.price, makers) {
      assert makers[0] in makers;
    }
  }

  /** The limit of a market order is the worst opposing price, which takes in all opposing orders. */
  ghost predicate FarEnd(side: Side, makers: seq<Order>, limit: Price) {
    && (exists x :: x in makers && x.price == limit)
    && forall x :: x in makers ==> if side.Buy? then x.price <= limit else limit <= x.price
  }

  lemma LastIsFarEnd(side: Side, makers: seq<Order>)
    requires Sorted(side.Opposite(), makers) && makers != []
    ensures FarEnd(side, makers, makers[|makers| - 1].price)
  {
    assert makers[|makers| - 1] in makers;
    forall i | 0 <= i < |makers|
      ensures !Better(side.Opposite(), makers[|makers| - 1].price, makers[i].price)
    {}
  }

  /**
   A placement is refused exactly for the reason that its type gives; then nothing but that
   rejection is logged and nothing else changes. Otherwise it is accepted, and the first thing
   logged is its acceptance, at its own price or, for a market order, at the worst opposing price.
   */
  lemma PlaceAnswer(instrument: InstrumentId, b: Book, o: Order)
    requires WellFormed(b.sides)
    ensures var (b', output) := Execute(instrument, b, PlaceOrder(o));
      match Refusal(b.sides, o)
      case Some(r) =>
        output == PlaceOutput(Err(r)) && b' == Book(b.sides, b.log + [Rejected(o.id, PlaceReason(r))])
      case None =>
        && output.PlaceOutput? && output.placed.Ok?
        && |b.log| < |b'.log| && b'.log[..|b.log|] == b.log
        && var first := b'.log[|b.log|];
        && first.Accepted? && first == Accepted(o.id, o.side, first.price, o.initial)
        && (if o.kind == Market then FarEnd(o.side, b.sides.Of(o.side.Opposite()), first.price)
            else first.price == o.price)
  {
    hide WellFormed, WouldTrade, Live, CanMatch, Shown, Depth, FarEnd, Match, TradesSince;
    var makers := b.sides.Of(o.side.Opposite());
    LiveMeansHas(b.sides, o.id);
    HeadDecides(b.sides, o);
    if Admit(b.sides, o).Err? {
      CommitsOnly(b, Place(b.sides, o).facts);
    }
    if o.kind == Market && makers != [] {
      assert Sorted(o.side.Opposite(), makers) by {
        WellFormedBySide(b.sides, o.side);
      }
      LastIsFarEnd(o.side, makers);
    }
  }

  // --- canceling ----------------------------------------------------------------------------------

  function Rid(s: Sides, ids: set<OrderId>): Sides { Sides(Without(s.bids, ids), Without(s.asks, ids)) }

  /** A cancel says whether the order was live; that order is gone and nothing else. */
  lemma CancelAnswer(instrument: InstrumentId, b: Book, id: OrderId)
    requires WellFormed(b.sides)
    ensures var (b', output) := Execute(instrument, b, CancelOrder(id));
      output == CancelOutput(Live(b.sides, id)) && b'.sides == Rid(b.sides, {id})
  {
    hide WellFormed, Live, Cancel;
    LiveMeansHas(b.sides, id);
    WithoutNone(b.sides.bids);
    WithoutNone(b.sides.asks);
    CancelIsWithout(b.sides, {}, id);
    CancelCounts(b.sides, id);
    assert {} + {id} == {id};
  }

  /** The ids of a list that were live, each counted once. */
  ghost function LiveListed(s: Sides, ids: seq<OrderId>): set<OrderId> {
    set id | id in ids && Live(s, id)
  }

  /** What a batch cancel logs: each live order of the list, where it is first listed, with what it has left. */
  function Cancellations(s: Sides, ids: seq<OrderId>): seq<Fact> {
    if ids == [] then []
    else
      var init, id := ids[..|ids| - 1], ids[|ids| - 1];
      Cancellations(s, init)
        + if s.Has(id) && id !in init then [Canceled(id, s.Find(id).value.remaining)] else []
  }

  lemma {:induction false} FindWithout(q: seq<Order>, ids: set<OrderId>, id: OrderId)
    requires id !in ids
    ensures Find(Without(q, ids), id) == Find(q, id)
  {
    if q == [] {
    } else {
      FindWithout(q[1..], ids, id);
    }
  }

  lemma {:induction false} BatchLogs(s: Sides, ids: seq<OrderId>)
    requires WellFormed(s)
    ensures CancelAll(s, ids).facts == Cancellations(s, ids)
  {
    hide WellFormed, Cancel, Without;
    if ids == [] {
    } else {
      var init, id := ids[..|ids| - 1], ids[|ids| - 1];
      var t := CancelAll(s, init).sides;
      BatchLogs(s, init);
      BatchSides(s, init);
      CancelIsWithout(s, Listed(init), id);
      CancelCounts(t, id);
      if id !in init {
        FindWithout(s.bids, Listed(init), id);
        FindWithout(s.asks, Listed(init), id);
      }
    }
  }

  /**
   A batch cancel answers how many listed orders were live and how much of the list is left over;
   those orders are gone and nothing else, and they are logged in the order of the list.
   */
  lemma CancelsAnswer(instrument: InstrumentId, b: Book, ids: seq<OrderId>)
    requires WellFormed(b.sides)
    ensures var (b', output) := Execute(instrument, b, CancelOrders(ids));
      var n := |LiveListed(b.sides, ids)|;
      && n <= |ids| && output == CancelsOutput(n, |ids| - n)
      && b'.sides == Rid(b.sides, Listed(ids))
      && b'.log == b.log + Cancellations(b.sides, ids) + TopFacts(b.sides, b'.sides)
  {
    hide Execute, WellFormed, CancelAll, Cancellations, LiveListed, LiveAmong, Listed, Without, TopFacts;
    BatchExecutes(instrument, b, ids);
    BatchCancel(b.sides, ids);
    BatchLogs(b.sides, ids);
    LiveListedHas(b.sides, ids);
  }

  lemma BatchExecutes(instrument: InstrumentId, b: Book, ids: seq<OrderId>)
    ensures var c := CancelAll(b.sides, ids);
      Execute(instrument, b, CancelOrders(ids))
        == (Book(c.sides, b.log + c.facts + TopFacts(b.sides, c.sides)), CancelsOutput(c.count, c.notFound))
  {
    hide CancelAll, TopFacts, TradesSince;
  }

  lemma LiveListedHas(s: Sides, ids: seq<OrderId>)
    ensures LiveListed(s, ids) == LiveAmong(s, ids)
  {
    hide Live;
    forall id ensures Live(s, id) <==> s.Has(id) {
      LiveMeansHas(s, id);
    }
  }

  // --- trades -----------------------------------------------------------------------------------

  /** The trades that an answer carries. */
  function ReturnedTrades(output: Output): seq<Trade> {
    match output
    case PlaceOutput(Ok(trades)) => trades
    case ModifyOutput(Ok(trades)) => trades
    case _ => []
  }

  predicate Tradeless(facts: seq<Fact>) { forall f :: f in facts ==> !f.Traded? }

  lemma {:induction false} TradelessAppend(instrument: InstrumentId, log: seq<Fact>, facts: seq<Fact>, from: nat)
    requires Tradeless(facts) && from <= |log|
    ensures TradesSince(instrument, log + facts, from) == TradesSince(instrument, log, from)
    ensures TradeCount(log + facts) == TradeCount(log)
  {
    if facts == [] {
      assert log + facts == log;
    } else {
      var init, f := facts[..|facts| - 1], facts[|facts| - 1];
      TradelessAppend(instrument, log, init, from);
      assert log + facts == (log + init) + [f] && f in facts;
      TradesAppend(instrument, log + init, f, from);
    }
  }

  lemma {:induction false} OwnTrades(instrument: InstrumentId, log: seq<Fact>, from: nat)
    ensures forall t :: t in TradesSince(instrument, log, from) ==> t.instrument == instrument
  {
    if |log| <= from {
    } else {
      OwnTrades(instrument, log[..|log| - 1], from);
    }
  }

  predicate Accepts(v: Verdict) { v == Placing(None) || v == Modifying(None) }

  /** A command that accepts no order trades nothing. */
  lemma RefusedTradeless(s: Sides, a: Action)
    requires !Accepts(EffectOf(s, a).verdict)
    ensures Tradeless(EffectOf(s, a).facts + TopFacts(s, EffectOf(s, a).sides))
  {
    hide Place, Cancel, CancelAll, Modify;
    match a
    case PlaceOrder(o) => PlaceHasShape(s, o);
    case CancelOrder(id) => CancelCounts(s, id);
    case CancelOrders(ids) => CancelAllCancels(s, ids);
    case ModifyOrder(m) =>
      var facts := Modify(s, m).facts;
      ModifyHasShape(s, m);
      assert facts == [facts[0]] + facts[1..];
  }

  lemma OnlyAcceptedTrade(instrument: InstrumentId, b: Book, a: Action)
    ensures ReturnedTrades(Execute(instrument, b, a).1)
         == TradesSince(instrument, Execute(instrument, b, a).0.log, |b.log|)
  {
    hide EffectOf, TopFacts, Tradeless;
    var e := EffectOf(b.sides, a);
    var facts := e.facts + TopFacts(b.sides, e.sides);
    assert Execute(instrument, b, a).0.log == b.log + facts;
    if !Accepts(e.verdict) {
      RefusedTradeless(b.sides, a);
      TradelessAppend(instrument, b.log, facts, |b.log|);
    }
  }

  /**
   The trades that a command returns are those that its trade events report, in their order, and
   a command that returns none reports none.
   */
  lemma ReturnedTradesAreReported(instrument: InstrumentId, b: Book, a: Action)
    ensures var (b', output) := Execute(instrument, b, a);
      && |b.log| <= |b'.log|
      && ReturnedTrades(output) == TradesIn(EventsSince(instrument, b'.log, |b.log|))
      && forall t :: t in ReturnedTrades(output) ==> t.instrument == instrument
  {
    hide Execute, TradesSince, EventsSince, ReturnedTrades;
    var b' := Execute(instrument, b, a).0;
    LogGrows(instrument, b, a);
    OnlyAcceptedTrade(instrument, b, a);
    ReturnedTradesAreEvents(instrument, b'.log, |b.log|);
    OwnTrades(instrument, b'.log, |b.log|);
  }

  // --- modifying ----------------------------------------------------------------------------------

  /** Trades depend on what came before only through the number of trades in it. */
  lemma {:induction false} SameTrades(instrument: InstrumentId, a: seq<Fact>, b: seq<Fact>, facts: seq<Fact>)
    requires TradeCount(a) == TradeCount(b)
    ensures TradesSince(instrument, a + facts, |a|) == TradesSince(instrument, b + facts, |b|)
    ensures TradeCount(a + facts) == TradeCount(b + facts)
  {
    if facts == [] {
      assert a + facts == a && b + facts == b;
    } else {
      var init, f := facts[..|facts| - 1], facts[|facts| - 1];
      SameTrades(instrument, a, b, init);
      assert a + facts == (a + init) + [f] && b + facts == (b + init) + [f];
      TradesAppend(instrument, a + init, f, |a|);
      TradesAppend(instrument, b + init, f, |b|);
      assert (a + facts)[..|a + init|] == a + init && (b + facts)[..|b + init|] == b + init;
    }
  }

  lemma TopTradeless(before: Sides, after: Sides)
    ensures Tradeless(TopFacts(before, after))
  {}

  /** A cancellation or a report before them, and a report after them, do not change the trades. */
  lemma TradesBetween(instrument: InstrumentId, log: seq<Fact>, cancel: Fact,
                      top: seq<Fact>, facts: seq<Fact>, u: seq<Fact>, v: seq<Fact>)
    requires !cancel.Traded? && Tradeless(top) && Tradeless(u) && Tradeless(v)
    ensures var mid := log + [cancel] + top;
      TradesSince(instrument, log + ([cancel] + facts) + v, |log|)
        == TradesSince(instrument, mid + facts + u, |mid|)
  {
    hide TradesSince, TradeCount, Tradeless;
    var c, mid := log + [cancel], log + [cancel] + top;
    TradelessAppend(instrument, c, top, |c|);
    TradelessAppend(instrument, c + facts, v, |log|);
    TradelessAppend(instrument, mid + facts, u, |mid|);
    TradesShift(instrument, c + facts, |log|);
    SameTrades(instrument, c, mid, facts);
    assert log + ([cancel] + facts) + v == c + facts + v;
  }

  /** The answer to a placement as a modify gives it. */
  function AsModify(placed: Output): Output {
    match placed
    case PlaceOutput(Ok(trades)) => ModifyOutput(Ok(trades))
    case PlaceOutput(Err(r)) => ModifyOutput(Err(PlaceRejected(r)))
    case _ => placed
  }

  /** A command that leaves the queues alone reports no top of the book. */
  lemma CommitsOnly(b: Book, facts: seq<Fact>)
    ensures Commit(b, b.sides, facts) == Book(b.sides, b.log + facts)
  {
    assert b.log + facts + [] == b.log + facts;
  }

  /** Without the order there is nothing to modify. */
  lemma ModifyUnknown(instrument: InstrumentId, b: Book, m: OrderModify)
    requires !Live(b.sides, m.id)
    ensures Execute(instrument, b, ModifyOrder(m))
         == (Book(b.sides, b.log + [Rejected(m.id, OrderNotFound)]), ModifyOutput(Err(ModifyNotFound)))
  {
    LiveMeansHas(b.sides, m.id);
    CommitsOnly(b, [Rejected(m.id, OrderNotFound)]);
  }

  /**
   An order `x` cannot change its side. Otherwise the answer, its trades included, and the queues
   are those of placing the changed order, of the same type, once `x` is canceled.
   */
  lemma ModifyAnswer(instrument: InstrumentId, b: Book, m: OrderModify, x: Order)
    requires WellFormed(b.sides) && (x in b.sides.bids || x in b.sides.asks) && x.id == m.id
    ensures var (b', output) := Execute(instrument, b, ModifyOrder(m));
      if x.side != m.side then
        && output == ModifyOutput(Err(ModifySideChange))
        && b' == Book(b.sides, b.log + [Rejected(m.id, SideChangeNotAllowed)])
      else
        var mid := Execute(instrument, b, CancelOrder(m.id)).0;
        var changed := Order(m.id, m.side, x.kind, m.price, m.quantity, m.quantity);
        var (two, placed) := Execute(instrument, mid, PlaceOrder(changed));
        output == AsModify(placed) && b'.sides == two.sides
  {
    hide Place, Cancel, TopFacts, TradesSince, WellFormed;
    FindsLive(b.sides, x);
    CommitsOnly(b, [Rejected(m.id, SideChangeNotAllowed)]);
    if x.side == m.side {
      var c := Cancel(b.sides, m.id);
      var p := Place(c.sides, m.Modify(x.kind));
      CancelCounts(b.sides, m.id);
      TopTradeless(b.sides, c.sides);
      TopTradeless(c.sides, p.sides);
      TopTradeless(b.sides, p.sides);
      TradesBetween(instrument, b.log, CancelFact(b.sides, m.id), TopFacts(b.sides, c.sides), p.facts,
                    TopFacts(c.sides, p.sides), TopFacts(b.sides, p.sides));
    }
  }

  lemma FindsLive(s: Sides, x: Order)
    requires WellFormed(s) && (x in s.bids || x in s.asks)
    ensures s.Find(x.id) == Some(x)
  {
    FindMeaning(s.bids, x.id);
    FindMeaning(s.asks, x.id);
  }

  // --- quotes -------------------------------------------------------------------------------------

  /** `p` is the best price of `q`, if there is any. */
  ghost predicate BestOf(side: Side, q: seq<Order>, p: Option<Price>) {
    && (p.None? ==> q == [])
    && (p.Some? ==>
          && (exists x :: x in q && x.price == p.value)
          && forall x :: x in q ==> if side.Buy? then x.price <= p.value else p.value <= x.price)
  }

  /** The top of the book is the highest bid and the lowest ask, and the bid lies below the ask. */
  lemma TopIsBest(s: Sides)
    requires WellFormed(s)
    ensures var (bid, ask) := s.Top();
      && BestOf(Buy, s.bids, bid) && BestOf(Sell, s.asks, ask)
      && (bid.Some? && ask.Some? ==> bid.value < ask.value)
  {
    forall x | x in s.bids ensures x.price <= s.bids[0].price {
      SortedHead(Buy, s.bids, x);
    }
    forall x | x in s.asks ensures s.asks[0].price <= x.price {
      SortedHead(Sell, s.asks, x);
    }
    assert s.bids != [] ==> s.bids[0] in s.bids;
    assert s.asks != [] ==> s.asks[0] in s.asks;
  }

  /** What rests on a side at one price, as 32 bits hold it. */
  ghost predicate RowOf(side: Side, q: seq<Order>, row: LevelInfo) {
    && (exists x :: x in q && x.side == side && x.price == row.price)
    && row.quantity == Total(AtPrice(q, row.price)) % 0x1_0000_0000
  }

  /** The rows of a side are the prices of its own orders, best first and none left out. */
  ghost predicate RowsOf(side: Side, q: seq<Order>, rows: seq<LevelInfo>) {
    && (forall j :: 0 <= j < |rows| ==> RowOf(side, q, rows[j]))
    && (forall i, j :: 0 <= i < j < |rows| ==> Better(side, rows[i].price, rows[j].price))
    && (forall x :: x in q ==> exists j :: 0 <= j < |rows| && rows[j].price == x.price)
  }

  lemma DepthIsRows(side: Side, q: seq<Order>)
    requires SideFormed(side, q)
    ensures RowsOf(side, q, Depth(q))
  {
    hide Depth, AtPrice;
    var rows := Depth(q);
    forall j | 0 <= j < |rows| ensures RowOf(side, q, rows[j]) {
      DepthRow(side, q, j);
    }
    forall i, j | 0 <= i < j < |rows| ensures Better(side, rows[i].price, rows[j].price) {
      DepthOrder(side, q, i, j);
    }
    forall x | x in q ensures exists j :: 0 <= j < |rows| && rows[j].price == x.price {
      var j := DepthCovers(side, q, x);
    }
  }
}
