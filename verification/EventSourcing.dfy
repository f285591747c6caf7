/**
 The event log as the single source of truth: replaying it rebuilds the book, each entry is
 legal at the state replayed so far, and the quantities it reports are conserved.
 */
module EventSourcing {
  import opened Types
  import opened Queues
  import opened Matching
  import opened BookSpec
  import opened BookInvariant
  import opened Levels
  import opened Taking

  // --- a consumer of the log ------------------------------------------------------------------

  /** Take `t` off the order `id`, dropping it once nothing is left. */
  function Reduce(q: seq<Order>, id: OrderId, t: Quantity): seq<Order> {
    if q == [] then []
    else if q[0].id == id then
      if q[0].remaining <= t then q[1..] else [q[0].(remaining := q[0].remaining - t)] + q[1..]
    else [q[0]] + Reduce(q[1..], id, t)
  }

  /** What a consumer does with one fact. Events do not carry order types, so it assumes one. */
  function Apply(s: Sides, f: Fact): Sides {
    match f
    case Accepted(id, side, price, quantity) =>
      s.With(side, Insert(side, s.Of(side), NewOrder(id, side, GoodTillCancel, price, quantity)))
    case Traded(_, quantity, maker, taker, makerSide) =>
      var m := s.With(makerSide, Reduce(s.Of(makerSide), maker, quantity));
      m.With(makerSide.Opposite(), Reduce(m.Of(makerSide.Opposite()), taker, quantity))
    case Canceled(id, _) => Sides(Remove(s.bids, id), Remove(s.asks, id))
    case Rejected(_, _) => s
    case TopOfBook(_, _) => s
  }

  function ReplayFrom(s: Sides, log: seq<Fact>): Sides {
    if log == [] then s else Apply(ReplayFrom(s, log[..|log| - 1]), log[|log| - 1])
  }

  function Replay(log: seq<Fact>): Sides { ReplayFrom(EMPTY_SIDES, log) }

  /**
   What each fact claims about the state before it. A trade is between the two heads, at the
   maker's price and within the taker's, for as much as both can give.
   */
  predicate Legal(s: Sides, f: Fact) {
    match f
    case Accepted(id, _, _, _) => !s.Has(id)
    case Traded(price, quantity, maker, taker, makerSide) =>
      var makers, takers := s.Of(makerSide), s.Of(makerSide.Opposite());
      && makers != [] && takers != []
      && makers[0].id == maker && takers[0].id == taker
      && price == makers[0].price
      && Crosses(makerSide.Opposite(), takers[0].price, price)
      && quantity == Min(makers[0].remaining, takers[0].remaining)
    case Canceled(id, remaining) => s.Has(id) && s.Find(id).value.remaining == remaining
    case Rejected(id, reason) =>
      s.Has(id) <==> reason == PlaceReason(DuplicateOrderId) || reason == SideChangeNotAllowed
    case TopOfBook(bid, ask) => (bid, ask) == s.Top()
  }

  predicate LegalFrom(s: Sides, log: seq<Fact>) {
    log == [] || (LegalFrom(s, log[..|log| - 1]) && Legal(ReplayFrom(s, log[..|log| - 1]), log[|log| - 1]))
  }

  predicate LegalLog(log: seq<Fact>) { LegalFrom(EMPTY_SIDES, log) }

  lemma {:induction false} ReplayAppend(s: Sides, a: seq<Fact>, b: seq<Fact>)
    ensures ReplayFrom(s, a + b) == ReplayFrom(ReplayFrom(s, a), b)
    ensures LegalFrom(s, a + b) <==> LegalFrom(s, a) && LegalFrom(ReplayFrom(s, a), b)
  {
    if b == [] {
      assert a + b == a;
    } else {
      ReplayAppend(s, a, b[..|b| - 1]);
      assert (a + b)[..|a + b| - 1] == a + b[..|b| - 1];
    }
  }

  lemma ReplayNone(s: Sides)
    ensures ReplayFrom(s, []) == s && LegalFrom(s, [])
  {}

  lemma ReplayOne(s: Sides, f: Fact)
    ensures ReplayFrom(s, [f]) == Apply(s, f)
    ensures LegalFrom(s, [f]) <==> Legal(s, f)
  {
    assert [f][..0] == [];
  }

  // --- a book without order types ----------------------------------------------------------------

  function Plain(o: Order): Order { o.(kind := GoodTillCancel) }

  function PlainQueue(q: seq<Order>): seq<Order> {
    seq(|q|, i requires 0 <= i < |q| => Plain(q[i]))
  }

  function PlainSides(s: Sides): Sides { Sides(PlainQueue(s.bids), PlainQueue(s.asks)) }

  lemma PlainCons(x: Order, q: seq<Order>)
    ensures PlainQueue([x] + q) == [Plain(x)] + PlainQueue(q)
  {}

  lemma {:induction false} PlainInsert(side: Side, q: seq<Order>, o: Order)
    ensures PlainQueue(Insert(side, q, o)) == Insert(side, PlainQueue(q), Plain(o))
  {
    if q == [] {
    } else if Better(side, o.price, q[0].price) {
      PlainCons(o, q);
    } else {
      PlainInsert(side, q[1..], o);
      PlainCons(q[0], Insert(side, q[1..], o));
      assert PlainQueue(q)[1..] == PlainQueue(q[1..]);
    }
  }

  lemma {:induction false} PlainRemove(q: seq<Order>, id: OrderId)
    ensures PlainQueue(Remove(q, id)) == Remove(PlainQueue(q), id)
  {
    if q == [] {
    } else {
      PlainRemove(q[1..], id);
      assert PlainQueue(q)[1..] == PlainQueue(q[1..]);
      PlainCons(q[0], Remove(q[1..], id));
    }
  }

  lemma {:induction false} PlainFind(q: seq<Order>, id: OrderId)
    ensures HasId(PlainQueue(q), id) <==> HasId(q, id)
    ensures HasId(q, id) ==> Find(PlainQueue(q), id) == Some(Plain(Find(q, id).value))
  {
    if q == [] {
    } else {
      PlainFind(q[1..], id);
      assert PlainQueue(q)[1..] == PlainQueue(q[1..]);
    }
  }

  lemma PlainHas(s: Sides, id: OrderId)
    ensures PlainSides(s).Has(id) <==> s.Has(id)
    ensures s.Has(id) ==> PlainSides(s).Find(id) == Some(Plain(s.Find(id).value))
    ensures PlainSides(s).Top() == s.Top()
  {
    PlainFind(s.bids, id);
    PlainFind(s.asks, id);
  }

  lemma PlainReduceHead(q: seq<Order>, t: Quantity)
    requires q != [] && t <= q[0].remaining
    ensures Reduce(PlainQueue(q), q[0].id, t) == PlainQueue(ReduceHead(q, t))
  {
    assert PlainQueue(q)[1..] == PlainQueue(q[1..]);
  }

  // --- trades --------------------------------------------------------------------------------------

  /** The trade between two crossing heads is legal, and replaying it reduces both. */
  lemma FrontTradeReplays(s: Sides, takerSide: Side)
    requires s.bids != [] && s.asks != [] && s.bids[0].price >= s.asks[0].price
    ensures var f := FrontTrade(s, s.Of(takerSide)[0].id, takerSide);
      Legal(PlainSides(s), f) && Apply(PlainSides(s), f) == PlainSides(AfterFront(s))
  {
    PlainReduceHead(s.bids, FrontQuantity(s));
    PlainReduceHead(s.asks, FrontQuantity(s));
  }

  /** Where matching from `p` ends. */
  function Onward(o: Order, p: Progress): Progress {
    var r := Match(o.side, o.price, p.left, p.makers);
    Progress(r.left, !r.done, r.rest, p.fills + r.fills)
  }

  /** One trade of a crossing taker. */
  lemma TradeReplays(s: Sides, o: Order, p: Progress)
    requires Intruder(s, o, p.makers) && p.live && CanMatch(o.side, o.price, p.makers)
    ensures var at := SidesAt(s, o, p);
      && at.bids != [] && at.asks != []
      && LegalFrom(PlainSides(at), [FrontTrade(at, o.id, o.side)])
      && ReplayFrom(PlainSides(at), [FrontTrade(at, o.id, o.side)]) == PlainSides(SidesAt(s, o, StepOn(p)))
      && Intruder(s, o, StepOn(p).makers)
      && FrontTrade(at, o.id, o.side)
           == var m := p.makers[0];
              Fact.Traded(m.price, Min(p.left, m.remaining), m.id, o.id, o.side.Opposite())
  {
    TakerLeads(s, o, p);
    StepSides(s, o, p);
    StepIntrudes(s, o, p);
    InsertBest(o.side, s.Of(o.side), o.(remaining := p.left));
    var at := SidesAt(s, o, p);
    FrontTradeReplays(at, o.side);
    ReplayOne(PlainSides(at), FrontTrade(at, o.id, o.side));
  }

  lemma {:induction false} TradesReplay(s: Sides, o: Order, p: Progress)
    requires Intruder(s, o, p.makers) && p.live
    ensures var facts := TradeFacts(Match(o.side, o.price, p.left, p.makers).fills, o.id, o.side.Opposite());
      && LegalFrom(PlainSides(SidesAt(s, o, p)), facts)
      && ReplayFrom(PlainSides(SidesAt(s, o, p)), facts) == PlainSides(SidesAt(s, o, Onward(o, p)))
    decreases |p.makers|
  {
    hide Intruder, PlainSides, SidesAt, Apply, Legal, FrontQuantity, FrontTrade, ReplayFrom, LegalFrom;
    var r := Match(o.side, o.price, p.left, p.makers);
    var facts := TradeFacts(r.fills, o.id, o.side.Opposite());
    if !CanMatch(o.side, o.price, p.makers) {
      ReplayNone(PlainSides(SidesAt(s, o, p)));
      assert Onward(o, p) == p by {
        assert p.fills + [] == p.fills;
      }
    } else {
      TradeReplays(s, o, p);
      var p' := StepOn(p);
      var f := FrontTrade(SidesAt(s, o, p), o.id, o.side);
      if p'.live {
        TradesReplay(s, o, p');
        var r' := Match(o.side, o.price, p'.left, p'.makers);
        var facts' := TradeFacts(r'.fills, o.id, o.side.Opposite());
        ReplayAppend(PlainSides(SidesAt(s, o, p)), [f], facts');
        assert p.fills + r.fills == p'.fills + r'.fills;
        assert facts == [f] + facts';
      } else {
        assert facts == [f];
        assert Onward(o, p) == p';
      }
    }
  }

  // --- commands ----------------------------------------------------------------------------------------

  /** The facts are legal from `s` on, and replaying them leads to `t`. */
  ghost predicate Carries(s: Sides, facts: seq<Fact>, t: Sides) {
    LegalFrom(PlainSides(s), facts) && ReplayFrom(PlainSides(s), facts) == PlainSides(t)
  }

  lemma CarriesOn(s: Sides, a: seq<Fact>, t: Sides, b: seq<Fact>, u: Sides)
    requires Carries(s, a, t) && Carries(t, b, u)
    ensures Carries(s, a + b, u)
  {
    ReplayAppend(PlainSides(s), a, b);
  }

  lemma CancelReplays(s: Sides, id: OrderId)
    requires Formed(s)
    ensures Carries(s, Cancel(s, id).facts, Cancel(s, id).sides)
  {
    if s.Has(id) {
      PlainHas(s, id);
      ReplayOne(PlainSides(s), Canceled(id, s.Find(id).value.remaining));
      PlainRemove(s.bids, id);
      PlainRemove(s.asks, id);
      FindMeaning(s.bids, id);
      FindMeaning(s.asks, id);
      var o := s.Find(id).value;
      if o.side.Buy? {
        RemoveAbsent(s.asks, id);
      } else {
        RemoveAbsent(s.bids, id);
      }
    }
  }

  /** Joining is what an acceptance replays, provided nothing of the order is filled yet. */
  lemma JoinReplays(s: Sides, o: Order)
    requires !s.Has(o.id) && o.Fresh()
    ensures Carries(s, [Accepted(o.id, o.side, o.price, o.initial)],
                    SidesAt(s, o, Start(o, s.Of(o.side.Opposite()))))
  {
    PlainHas(s, o.id);
    ReplayOne(PlainSides(s), Accepted(o.id, o.side, o.price, o.initial));
    PlainInsert(o.side, s.Of(o.side), o);
  }

  lemma EnterReplays(s: Sides, o: Order, ioc: bool)
    requires WellFormed(s) && !s.Has(o.id) && o.Fresh()
    ensures Carries(s, Enter(s, o, ioc).facts, Enter(s, o, ioc).sides)
  {
    hide LegalFrom, ReplayFrom, PlainSides, WellFormed;
    var makers := s.Of(o.side.Opposite());
    var start, end := Start(o, makers), End(o, makers);
    var trades := TradeFacts(end.fills, o.id, o.side.Opposite());
    JoinReplays(s, o);
    StartIntrudes(s, o);
    TradesReplay(s, o, start);
    assert Onward(o, start) == end by {
      assert [] + end.fills == end.fills;
    }
    CarriesOn(s, [Accepted(o.id, o.side, o.price, o.initial)], SidesAt(s, o, start), trades, SidesAt(s, o, end));
    EndStays(s, o);
    if ioc && end.live {
      var _ := EndLeaves(s, o);
      assert Formed(SidesAt(s, o, end)) by {
        EndFormed(s, o);
      }
      var c := Cancel(SidesAt(s, o, end), o.id);
      CancelReplays(SidesAt(s, o, end), o.id);
      CarriesOn(s, Enter(s, o, false).facts, SidesAt(s, o, end), c.facts, c.sides);
    }
  }

  lemma PlaceReplays(s: Sides, o: Order)
    requires WellFormed(s) && o.Fresh()
    ensures Carries(s, Place(s, o).facts, Place(s, o).sides)
  {
    match Admit(s, o)
    case Err(r) =>
      PlainHas(s, o.id);
      ReplayOne(PlainSides(s), Rejected(o.id, PlaceReason(r)));
    case Ok(e) =>
      EnterReplays(s, e, ImmediateOrCancel(o.kind));
  }

  lemma {:induction false} CancelAllReplays(s: Sides, ids: seq<OrderId>)
    requires WellFormed(s)
    ensures Carries(s, CancelAll(s, ids).facts, CancelAll(s, ids).sides)
  {
    if ids == [] {
    } else {
      var c := CancelAll(s, ids[..|ids| - 1]);
      var id := ids[|ids| - 1];
      CancelAllReplays(s, ids[..|ids| - 1]);
      CancelAllKeeps(s, ids[..|ids| - 1]);
      CancelReplays(c.sides, id);
      CarriesOn(s, c.facts, c.sides, Cancel(c.sides, id).facts, Cancel(c.sides, id).sides);
    }
  }

  lemma ModifyReplays(s: Sides, m: OrderModify)
    requires WellFormed(s)
    ensures Carries(s, Modify(s, m).facts, Modify(s, m).sides)
  {
    PlainHas(s, m.id);
    if !s.Has(m.id) {
      ReplayOne(PlainSides(s), Rejected(m.id, OrderNotFound));
    } else if s.Find(m.id).value.side != m.side {
      ReplayOne(PlainSides(s), Rejected(m.id, SideChangeNotAllowed));
    } else {
      var c, o := Cancel(s, m.id), m.Modify(s.Find(m.id).value.kind);
      CancelKeeps(s, m.id);
      CancelReplays(s, m.id);
      PlaceReplays(c.sides, o);
      CarriesOn(s, c.facts, c.sides, Place(c.sides, o).facts, Place(c.sides, o).sides);
    }
  }

  lemma EffectReplays(s: Sides, a: Action)
    requires WellFormed(s) && Submittable(a)
    ensures Carries(s, EffectOf(s, a).facts, EffectOf(s, a).sides)
  {
    match a
    case PlaceOrder(o) => PlaceReplays(s, o);
    case CancelOrder(id) => CancelReplays(s, id);
    case CancelOrders(ids) => CancelAllReplays(s, ids);
    case ModifyOrder(m) => ModifyReplays(s, m);
  }

  lemma TopReplays(before: Sides, after: Sides)
    ensures Carries(after, TopFacts(before, after), after)
  {
    if before.Top() != after.Top() {
      PlainHas(after, 0);
      ReplayOne(PlainSides(after), TopOfBook(after.Top().0, after.Top().1));
    }
  }

  // --- the last report of the top of the book ------------------------------------------------------------

  function LastTop(log: seq<Fact>): (Option<Price>, Option<Price>) {
    if log == [] then (None, None)
    else
      match log[|log| - 1]
      case TopOfBook(bid, ask) => (bid, ask)
      case _ => LastTop(log[..|log| - 1])
  }

  predicate NoTop(facts: seq<Fact>) { forall f :: f in facts ==> !f.TopOfBook? }

  lemma {:induction false} LastTopSkips(log: seq<Fact>, facts: seq<Fact>)
    requires NoTop(facts)
    ensures LastTop(log + facts) == LastTop(log)
  {
    if facts == [] {
      assert log + facts == log;
    } else {
      var k := |facts| - 1;
      assert (log + facts)[..|log + facts| - 1] == log + facts[..k];
      assert facts[k] in facts;
      LastTopSkips(log, facts[..k]);
    }
  }

  lemma {:induction false} CancelAllNoTop(s: Sides, ids: seq<OrderId>)
    ensures NoTop(CancelAll(s, ids).facts)
  {
    if ids == [] {
    } else {
      CancelAllNoTop(s, ids[..|ids| - 1]);
    }
  }

  lemma EffectNoTop(s: Sides, a: Action)
    ensures NoTop(EffectOf(s, a).facts)
  {
    hide Match, Admit, CancelAll;
    if a.CancelOrders? {
      CancelAllNoTop(s, a.ids);
    }
  }

  // --- whole runs ----------------------------------------------------------------------------------------

  /** The log tells the whole truth about the book. */
  ghost predicate Faithful(b: Book) {
    && WellFormed(b.sides)
    && LegalLog(b.log)
    && Replay(b.log) == PlainSides(b.sides)
    && LastTop(b.log) == b.sides.Top()
  }

  lemma ExecuteStaysFaithful(instrument: InstrumentId, b: Book, a: Action)
    requires Faithful(b) && Submittable(a)
    ensures Faithful(Execute(instrument, b, a).0)
  {
    var after, facts := EffectOf(b.sides, a).sides, EffectOf(b.sides, a).facts;
    var top := TopFacts(b.sides, after);
    ExecuteKeeps(instrument, b, a);
    EffectReplays(b.sides, a);
    TopReplays(b.sides, after);
    ReplayAppend(EMPTY_SIDES, b.log, facts);
    ReplayAppend(EMPTY_SIDES, b.log + facts, top);
    EffectNoTop(b.sides, a);
    LastTopSkips(b.log, facts);
    if top == [] {
      assert b.log + facts + top == b.log + facts;
    } else {
      assert (b.log + facts + top)[..|b.log + facts|] == b.log + facts;
    }
  }

  /**
   Event sourcing: after every run, replaying the log gives the live orders with what remains
   of them, in queue order; every entry was legal when it was written; and the last report of
   the top of the book is still right.
   */
  lemma {:induction false} LogIsTheTruth(instrument: InstrumentId, actions: seq<Action>)
    requires forall i :: 0 <= i < |actions| ==> Submittable(actions[i])
    ensures Faithful(Run(instrument, actions))
  {
    if actions == [] {
    } else {
      LogIsTheTruth(instrument, actions[..|actions| - 1]);
      ExecuteStaysFaithful(instrument, Run(instrument, actions[..|actions| - 1]), actions[|actions| - 1]);
    }
  }
}
