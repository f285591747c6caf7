/** Commands of positive quantity keep every quantity in the book and in its log positive. */
module Positivity {
  import opened Types
  import opened Queues
  import opened Matching
  import opened BookSpec
  import opened BookInvariant
  import opened Splitting

  predicate AllPositive(q: seq<Order>) { forall x :: x in q ==> x.remaining > 0 }

  predicate PositiveSides(s: Sides) { AllPositive(s.bids) && AllPositive(s.asks) }

  /** The quantities that clients may submit. */
  predicate PositiveAction(a: Action) {
    match a
    case PlaceOrder(o) => o.Fresh() && o.initial > 0
    case ModifyOrder(m) => m.quantity > 0
    case _ => true
  }

  predicate PositiveFact(f: Fact) {
    match f
    case Accepted(_, _, _, quantity) => quantity > 0
    case Traded(_, quantity, _, _, _) => quantity > 0
    case Canceled(_, remaining) => remaining > 0
    case _ => true
  }

  predicate PositiveFacts(facts: seq<Fact>) { forall f :: f in facts ==> PositiveFact(f) }

  /** Every trade moves something, nothing empty is left behind, and a taker that stays has something left. */
  lemma {:induction false} MatchStaysPositive(side: Side, limit: Price, quantity: Quantity, makers: seq<Order>)
    requires quantity > 0 && AllPositive(makers)
    ensures var r := Match(side, limit, quantity, makers);
      && (forall i :: 0 <= i < |r.fills| ==> r.fills[i].quantity > 0)
      && AllPositive(r.rest)
      && (!r.done ==> r.left > 0)
  {
    if !CanMatch(side, limit, makers) {
    } else if quantity <= makers[0].remaining {
      MatchStops(side, limit, quantity, makers);
      assert makers == [makers[0]] + makers[1..];
    } else {
      MatchGoesOn(side, limit, quantity, makers);
      MatchStaysPositive(side, limit, quantity - makers[0].remaining, makers[1..]);
    }
  }

  lemma EnterStaysPositive(s: Sides, o: Order, ioc: bool)
    requires PositiveSides(s) && o.Fresh() && o.initial > 0
    ensures PositiveSides(Enter(s, o, ioc).sides) && PositiveFacts(Enter(s, o, ioc).facts)
  {
    hide Match;
    var makers := s.Of(o.side.Opposite());
    var m := Match(o.side, o.price, o.remaining, makers);
    MatchStaysPositive(o.side, o.price, o.remaining, makers);
    InsertElements(o.side, s.Of(o.side), o.(remaining := m.left));
  }

  lemma PlaceStaysPositive(s: Sides, o: Order)
    requires PositiveSides(s) && o.Fresh() && o.initial > 0
    ensures PositiveSides(Place(s, o).sides) && PositiveFacts(Place(s, o).facts)
  {
    hide Enter;
    if Admit(s, o).Ok? {
      AdmitMeaning(s, o);
      EnterStaysPositive(s, Admit(s, o).value, ImmediateOrCancel(o.kind));
    }
  }

  lemma CancelStaysPositive(s: Sides, id: OrderId)
    requires PositiveSides(s)
    ensures PositiveSides(Cancel(s, id).sides) && PositiveFacts(Cancel(s, id).facts)
  {
    HasMeaning(s, id);
    RemoveElements(s.bids, id);
    RemoveElements(s.asks, id);
  }

  lemma {:induction false} CancelAllStaysPositive(s: Sides, ids: seq<OrderId>)
    requires PositiveSides(s)
    ensures PositiveSides(CancelAll(s, ids).sides) && PositiveFacts(CancelAll(s, ids).facts)
  {
    hide Cancel;
    if ids == [] {
    } else {
      CancelAllStaysPositive(s, ids[..|ids| - 1]);
      CancelStaysPositive(CancelAll(s, ids[..|ids| - 1]).sides, ids[|ids| - 1]);
    }
  }

  lemma ModifyStaysPositive(s: Sides, m: OrderModify)
    requires PositiveSides(s) && m.quantity > 0
    ensures PositiveSides(Modify(s, m).sides) && PositiveFacts(Modify(s, m).facts)
  {
    hide Cancel, Place;
    if s.Has(m.id) && s.Find(m.id).value.side == m.side {
      CancelStaysPositive(s, m.id);
      PlaceStaysPositive(Cancel(s, m.id).sides, m.Modify(s.Find(m.id).value.kind));
    }
  }

  lemma ExecuteStaysPositive(instrument: InstrumentId, b: Book, a: Action)
    requires PositiveSides(b.sides) && PositiveFacts(b.log) && PositiveAction(a)
    ensures var b' := Execute(instrument, b, a).0; PositiveSides(b'.sides) && PositiveFacts(b'.log)
  {
    hide Place, Cancel, CancelAll, Modify;
    match a
    case PlaceOrder(o) => PlaceStaysPositive(b.sides, o);
    case CancelOrder(id) => CancelStaysPositive(b.sides, id);
    case CancelOrders(ids) => CancelAllStaysPositive(b.sides, ids);
    case ModifyOrder(m) => ModifyStaysPositive(b.sides, m);
  }

  /** As long as every command has a positive quantity, no order rests empty and no trade is empty. */
  lemma {:induction false} RunsStayPositive(instrument: InstrumentId, actions: seq<Action>)
    requires forall i :: 0 <= i < |actions| ==> PositiveAction(actions[i])
    ensures var b := Run(instrument, actions); PositiveSides(b.sides) && PositiveFacts(b.log)
  {
    if actions == [] {
    } else {
      var k := |actions| - 1;
      RunsStayPositive(instrument, actions[..k]);
      ExecuteStaysPositive(instrument, Run(instrument, actions[..k]), actions[k]);
    }
  }

  /** After such a run a fill-and-kill order may be split at will, even with an empty part. */
  lemma SplitAfterPositiveRun(instrument: InstrumentId, actions: seq<Action>, a: Order, b: Order, c: Order)
    requires forall i :: 0 <= i < |actions| ==> PositiveAction(actions[i])
    requires var s := Run(instrument, actions).sides; !s.Has(a.id) && !s.Has(b.id) && !s.Has(c.id)
    requires SameTaker(a, b) && SameTaker(a, c) && c.remaining == a.remaining + b.remaining
    ensures var s := Run(instrument, actions).sides; Place(Place(s, a).sides, b).sides == Place(s, c).sides
  {
    hide Run, Place;
    RunsStayPositive(instrument, actions);
    ReachableBooks(instrument, actions);
    SplitAmongPositive(Run(instrument, actions).sides, a, b, c);
  }
}
