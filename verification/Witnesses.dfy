/** Short runs on which the book does not do what one would expect. */
module Witnesses {
  import opened Types
  import opened Queues
  import opened Matching
  import opened BookSpec
  import opened BookInvariant
  import opened Splitting

  function Ask(id: OrderId, quantity: Quantity): Order { NewOrder(id, Sell, GoodTillCancel, 100, quantity) }

  /** Two asks at one price, placed one after the other. */
  function TwoAsks(p: Quantity, q: Quantity): seq<Action> { [PlaceOrder(Ask(1, p)), PlaceOrder(Ask(2, q))] }

  /** An order that meets no one rests. */
  lemma FirstRests(s: Sides, o: Order)
    requires !s.Has(o.id) && o.kind == GoodTillCancel && !CanMatch(o.side, o.price, s.Of(o.side.Opposite()))
    ensures Place(s, o).sides == s.With(o.side, Insert(o.side, s.Of(o.side), o))
  {}

  lemma TwoAsksRest(instrument: InstrumentId, p: Quantity, q: Quantity)
    ensures Run(instrument, TwoAsks(p, q)).sides == Sides([], [Ask(1, p), Ask(2, q)])
  {
    hide Place;
    var actions := TwoAsks(p, q);
    assert actions[..1][..0] == [];
    FirstRests(EMPTY_SIDES, Ask(1, p));
    var s := Sides([], [Ask(1, p)]);
    assert Run(instrument, actions[..1]).sides == s;
    assert s.asks[1..] == [];
    FirstRests(s, Ask(2, q));
  }

  /** Two fill-and-kill buys of nothing take two empty asks, a single one takes one. */
  lemma SplitCanDiffer(instrument: InstrumentId)
    ensures var s := Run(instrument, TwoAsks(0, 0)).sides;
      var a := NewOrder(3, Buy, FillAndKill, 100, 0);
      var b := NewOrder(4, Buy, FillAndKill, 100, 0);
      var c := NewOrder(5, Buy, FillAndKill, 100, 0);
      && SameTaker(a, b) && SameTaker(a, c) && c.remaining == a.remaining + b.remaining
      && Place(Place(s, a).sides, b).sides != Place(s, c).sides
  {
    hide Run, Place;
    var s := Run(instrument, TwoAsks(0, 0)).sides;
    TwoAsksRest(instrument, 0, 0);
    ReachableBooks(instrument, TwoAsks(0, 0));
    assert s.asks[1..] == [Ask(2, 0)] && s.asks[..1] == [Ask(1, 0)];
    assert Total([Ask(1, 0)]) == 0 && EmptyAt(Buy, 100, 0, s.asks, 1);
    forall id | id > 2 ensures !s.Has(id) {
      HasMeaning(s, id);
    }
    var a := NewOrder(3, Buy, FillAndKill, 100, 0);
    SplitFillAndKill(s, a, a.(id := 4), a.(id := 5), 0);
  }

  /** Five are asked for and 2^32 are there, yet the fill-or-kill order is turned away. */
  lemma FillOrKillCanRefuseWrongly(instrument: InstrumentId)
    ensures var b := Run(instrument, TwoAsks(0xFFFF_FFFF, 1));
      var o := NewOrder(3, Buy, FillOrKill, 100, 5);
      && Match(Buy, 100, 5, b.sides.asks).done
      && Execute(instrument, b, PlaceOrder(o)).1 == PlaceOutput(Err(FillOrKillInsufficientLiquidity))
  {
    hide Run, Match, CanFullyFill;
    TwoAsksRest(instrument, 0xFFFF_FFFF, 1);
    FullFillCanRefuseWrongly();
  }
}
