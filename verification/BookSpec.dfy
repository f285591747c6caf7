/**
 The reference book of one instrument: two flat priority queues and the log of everything that
 happened. Each command is a function from one book to the next.
 */
module BookSpec {
  import opened Types
  import opened Queues
  import opened Matching

  datatype Sides = Sides(bids: seq<Order>, asks: seq<Order>) {
    function Of(side: Side): seq<Order> { if side.Buy? then bids else asks }

    function With(side: Side, q: seq<Order>): Sides {
      if side.Buy? then Sides(q, asks) else Sides(bids, q)
    }

    function Find(id: OrderId): Option<Order> {
      if Queues.Find(bids, id).Some? then Queues.Find(bids, id) else Queues.Find(asks, id)
    }

    predicate Has(id: OrderId) { Find(id).Some? }

    function Top(): (Option<Price>, Option<Price>) { (Best(bids), Best(asks)) }
  }

  /** The log holds the facts of all events emitted since the book was created. */
  datatype Book = Book(sides: Sides, log: seq<Fact>)

  const EMPTY_SIDES := Sides([], [])
  const EMPTY_BOOK := Book(EMPTY_SIDES, [])

  function Best(q: seq<Order>): Option<Price> { if q == [] then None else Some(q[0].price) }

  // --- placing -----------------------------------------------------------------------

  /** Admission control: the order that enters the book, or why none does. */
  function Admit(s: Sides, o: Order): Result<Order, PlaceReject> {
    var makers := s.Of(o.side.Opposite());
    if s.Has(o.id) then Err(DuplicateOrderId)
    else if o.kind == PostOnly && CanMatch(o.side, o.price, makers) then Err(PostOnlyWouldTakeLiquidity)
    else if o.kind == Market then
      if makers == [] then Err(NoLiquidityForMarket)
      else Ok(o.(kind := GoodTillCancel, price := makers[|makers| - 1].price))
    else if o.kind == FillAndKill && !CanMatch(o.side, o.price, makers) then Err(FillAndKillNoMatch)
    else if o.kind == FillOrKill && !CanFullyFill(o.side, o.price, o.initial, makers) then
      Err(FillOrKillInsufficientLiquidity)
    else Ok(o)
  }

  predicate ImmediateOrCancel(kind: OrderType) { kind == FillAndKill || kind == Market }

  function TradeFacts(fills: seq<Fill>, taker: OrderId, makerSide: Side): seq<Fact> {
    seq(|fills|, i requires 0 <= i < |fills| =>
      Fact.Traded(fills[i].price, fills[i].quantity, fills[i].maker, taker, makerSide))
  }

  datatype Placed = Placed(sides: Sides, facts: seq<Fact>, reject: Option<PlaceReject>)

  /** An admitted order meets the other side; what is left of it rests or is canceled. */
  function Enter(s: Sides, o: Order, ioc: bool): (p: Placed)
    ensures p.reject == None
  {
    var other := o.side.Opposite();
    var m := Match(o.side, o.price, o.remaining, s.Of(other));
    var own := if m.done || ioc then s.Of(o.side) else Insert(o.side, s.Of(o.side), o.(remaining := m.left));
    Placed(
      s.With(o.side, own).With(other, m.rest),
      [Accepted(o.id, o.side, o.price, o.initial)]
        + TradeFacts(m.fills, o.id, other)
        + (if ioc && !m.done then [Canceled(o.id, m.left)] else []),
      None)
  }

  function Place(s: Sides, o: Order): Placed {
    match Admit(s, o)
    case Err(r) => Placed(s, [Rejected(o.id, PlaceReason(r))], Some(r))
    case Ok(e) => Enter(s, e, ImmediateOrCancel(o.kind))
  }

  // --- canceling -----------------------------------------------------------------------

  datatype Canceling = Canceling(sides: Sides, facts: seq<Fact>, count: nat, notFound: nat)

  function Cancel(s: Sides, id: OrderId): Canceling {
    match s.Find(id)
    case None => Canceling(s, [], 0, 1)
    case Some(o) => Canceling(s.With(o.side, Remove(s.Of(o.side), id)), [Canceled(id, o.remaining)], 1, 0)
  }

  function CancelAll(s: Sides, ids: seq<OrderId>): Canceling {
    if ids == [] then Canceling(s, [], 0, 0)
    else
      var c := CancelAll(s, ids[..|ids| - 1]);
      var d := Cancel(c.sides, ids[|ids| - 1]);
      Canceling(d.sides, c.facts + d.facts, c.count + d.count, c.notFound + d.notFound)
  }

  // --- modifying -----------------------------------------------------------------------

  datatype Modified = Modified(sides: Sides, facts: seq<Fact>, reject: Option<ModifyReject>)

  function Modify(s: Sides, m: OrderModify): Modified {
    match s.Find(m.id)
    case None => Modified(s, [Rejected(m.id, OrderNotFound)], Some(ModifyNotFound))
    case Some(o) =>
      if o.side != m.side then Modified(s, [Rejected(m.id, SideChangeNotAllowed)], Some(ModifySideChange))
      else
        var c := Cancel(s, m.id);
        var p := Place(c.sides, m.Modify(o.kind));
        Modified(p.sides, c.facts + p.facts,
                 match p.reject case None => None case Some(r) => Some(PlaceRejected(r)))
  }

  // --- commands ------------------------------------------------------------------------

  /** A command reports the top of the book if it changed it. */
  function TopFacts(before: Sides, after: Sides): seq<Fact> {
    if before.Top() == after.Top() then [] else [TopOfBook(after.Top().0, after.Top().1)]
  }

  function Commit(b: Book, after: Sides, facts: seq<Fact>): Book {
    Book(after, b.log + facts + TopFacts(b.sides, after))
  }

  /** What a command answers, but for the trades. */
  datatype Verdict =
    | Placing(placeReject: Option<PlaceReject>)
    | CancelingOne(cancelled: bool)
    | CancelingMany(count: nat, notFound: nat)
    | Modifying(modifyReject: Option<ModifyReject>)

  /** What a command does before it reports the top of the book. */
  datatype Effect = Effect(sides: Sides, facts: seq<Fact>, verdict: Verdict)

  function EffectOf(s: Sides, a: Action): Effect {
    match a
    case PlaceOrder(o) =>
      var p := Place(s, o);
      Effect(p.sides, p.facts, Placing(p.reject))
    case CancelOrder(id) =>
      var c := Cancel(s, id);
      Effect(c.sides, c.facts, CancelingOne(c.count == 1))
    case CancelOrders(ids) =>
      var c := CancelAll(s, ids);
      Effect(c.sides, c.facts, CancelingMany(c.count, c.notFound))
    case ModifyOrder(m) =>
      var r := Modify(s, m);
      Effect(r.sides, r.facts, Modifying(r.reject))
  }

  function OutputOf(v: Verdict, trades: seq<Trade>): Output {
    match v
    case Placing(None) => PlaceOutput(Ok(trades))
    case Placing(Some(r)) => PlaceOutput(Err(r))
    case CancelingOne(cancelled) => CancelOutput(cancelled)
    case CancelingMany(count, notFound) => CancelsOutput(count, notFound)
    case Modifying(None) => ModifyOutput(Ok(trades))
    case Modifying(Some(r)) => ModifyOutput(Err(r))
  }

  function Execute(instrument: InstrumentId, b: Book, a: Action): (Book, Output) {
    var e := EffectOf(b.sides, a);
    var b' := Commit(b, e.sides, e.facts);
    (b', OutputOf(e.verdict, TradesSince(instrument, b'.log, |b.log|)))
  }

  lemma LogGrows(instrument: InstrumentId, b: Book, a: Action)
    ensures b.log <= Execute(instrument, b, a).0.log
  {}

  /** The book after a run of commands from an empty book. */
  function Run(instrument: InstrumentId, actions: seq<Action>): Book {
    if actions == [] then EMPTY_BOOK
    else Execute(instrument, Run(instrument, actions[..|actions| - 1]), actions[|actions| - 1]).0
  }

  /** Placed orders come from a constructor, so nothing of them is filled yet. */
  predicate Submittable(a: Action) { a.PlaceOrder? ==> a.order.Fresh() }

  // --- stamping ------------------------------------------------------------------------

  function Saturate(n: nat): nat { Min(n, U64_MAX) }

  function TradeCount(log: seq<Fact>): nat {
    if log == [] then 0
    else TradeCount(log[..|log| - 1]) + if log[|log| - 1].Traded? then 1 else 0
  }

  /** The trade that fact number `k` reports. */
  function TradeAt(instrument: InstrumentId, log: seq<Fact>, k: nat): Trade
    requires k < |log| && log[k].Traded?
  {
    var f := log[k];
    Trade(f.price, f.quantity, f.maker, f.taker, f.makerSide, instrument, Saturate(TradeCount(log[..k])))
  }

  /** The event that carries fact number `k`. */
  function EventAt(instrument: InstrumentId, log: seq<Fact>, k: nat): Event
    requires k < |log|
  {
    var number := Saturate(k);
    match log[k]
    case Accepted(id, side, price, quantity) => OrderAccepted(number, instrument, id, side, price, quantity)
    case Rejected(id, reason) => OrderRejected(number, instrument, id, reason)
    case Canceled(id, remaining) => OrderCanceled(number, instrument, id, remaining)
    case Traded(_, _, _, _, _) => TradeExecuted(number, instrument, TradeAt(instrument, log, k))
    case TopOfBook(bid, ask) => TopOfBookUpdated(number, instrument, bid, ask)
  }

  function EventsSince(instrument: InstrumentId, log: seq<Fact>, from: nat): seq<Event>
    requires from <= |log|
  {
    seq(|log| - from, i requires 0 <= i < |log| - from => EventAt(instrument, log, from + i))
  }

  function TradesSince(instrument: InstrumentId, log: seq<Fact>, from: nat): seq<Trade> {
    if |log| <= from then []
    else
      var k := |log| - 1;
      TradesSince(instrument, log[..k], from) + if log[k].Traded? then [TradeAt(instrument, log, k)] else []
  }

  // --- what holds between commands --------------------------------------------------------

  ghost predicate Uncrossed(s: Sides) {
    s.bids != [] && s.asks != [] ==> s.bids[0].price < s.asks[0].price
  }

  ghost predicate OnSide(side: Side, q: seq<Order>) {
    forall x :: x in q ==> x.side == side
  }

  /** Sorted queues and one entry for each live id. */
  ghost predicate Formed(s: Sides) {
    && Sorted(Buy, s.bids) && Sorted(Sell, s.asks)
    && Distinct(s.bids) && Distinct(s.asks)
    && OnSide(Buy, s.bids) && OnSide(Sell, s.asks)
    && (forall x, y :: x in s.bids && y in s.asks ==> x.id != y.id)
  }

  /** Besides, no bid could trade with an ask. */
  ghost predicate WellFormed(s: Sides) { Formed(s) && Uncrossed(s) }

  ghost predicate Resting(q: seq<Order>) {
    forall x :: x in q ==> x.kind == GoodTillCancel || x.kind == PostOnly
  }

  /** Only good-till-cancel and post-only orders rest. */
  ghost predicate OnlyRestingKinds(s: Sides) { Resting(s.bids) && Resting(s.asks) }
}
