/** What every command keeps, and what each order type gets. */
module BookInvariant {
  import opened Types
  import opened Queues
  import opened Matching
  import opened BookSpec

  lemma HasMeaning(s: Sides, id: OrderId)
    ensures s.Has(id) <==> HasId(s.bids, id) || HasId(s.asks, id)
    ensures s.Has(id) ==> var o := s.Find(id).value; o.id == id && (o in s.bids || o in s.asks)
    ensures s.Has(id) && WellFormed(s) ==> var o := s.Find(id).value; o in s.Of(o.side) && HasId(s.Of(o.side), id)
  {
    FindMeaning(s.bids, id);
    FindMeaning(s.asks, id);
  }

  lemma AbsentEverywhere(s: Sides, id: OrderId)
    requires !s.Has(id)
    ensures forall x :: x in s.bids || x in s.asks ==> x.id != id
  {
    FindMeaning(s.bids, id);
    FindMeaning(s.asks, id);
  }

  /** An admitted order is the submitted one, except that a market order gets a limit. */
  lemma AdmitMeaning(s: Sides, o: Order)
    requires Admit(s, o).Ok?
    ensures var e := Admit(s, o).value;
      && !s.Has(o.id)
      && e == o.(kind := e.kind, price := e.price)
      && (o.kind != Market ==> e == o)
      && (o.kind == Market ==> e.kind == GoodTillCancel && s.Of(o.side.Opposite()) != [])
  {}

  /** Filling the opposing queue cannot bring its best price closer. */
  lemma RestStaysAway(side: Side, limit: Price, quantity: Quantity, makers: seq<Order>)
    requires Sorted(side.Opposite(), makers)
    ensures var rest := Match(side, limit, quantity, makers).rest;
      rest != [] ==> makers != [] && !Better(side.Opposite(), rest[0].price, makers[0].price)
  {
    MatchStems(side, limit, quantity, makers);
    var rest := Match(side, limit, quantity, makers).rest;
    if rest != [] {
      assert rest[0] in rest;
      var y :| y in makers && rest[0] == y.(remaining := rest[0].remaining);
      SortedHead(side.Opposite(), makers, y);
    }
  }

  /** One side on its own: sorted, duplicate-free and holding only its own orders. */
  ghost predicate SideFormed(side: Side, q: seq<Order>) {
    Sorted(side, q) && Distinct(q) && OnSide(side, q)
  }

  /** The two sides together: no shared id, and the heads do not cross. */
  ghost predicate PairFormed(side: Side, own: seq<Order>, makers: seq<Order>) {
    && (forall x, y :: x in own && y in makers ==> x.id != y.id)
    && (own != [] ==> !CanMatch(side, own[0].price, makers))
  }

  lemma WellFormedBySide(s: Sides, side: Side)
    ensures WellFormed(s) <==>
            && SideFormed(side, s.Of(side))
            && SideFormed(side.Opposite(), s.Of(side.Opposite()))
            && PairFormed(side, s.Of(side), s.Of(side.Opposite()))
  {}

  lemma RestFormed(o: Order, makers: seq<Order>)
    requires SideFormed(o.side.Opposite(), makers)
    ensures SideFormed(o.side.Opposite(), Match(o.side, o.price, o.remaining, makers).rest)
  {
    MatchKeepsOrder(o.side, o.price, o.remaining, makers);
    MatchStems(o.side, o.price, o.remaining, makers);
  }

  lemma JoinFormed(q: seq<Order>, o: Order)
    requires SideFormed(o.side, q) && !HasId(q, o.id)
    ensures SideFormed(o.side, Insert(o.side, q, o))
  {
    InsertKeepsOrder(o.side, q, o);
    InsertKeepsDistinct(o.side, q, o);
    InsertElements(o.side, q, o);
  }

  lemma RestPaired(own: seq<Order>, o: Order, makers: seq<Order>)
    requires SideFormed(o.side.Opposite(), makers) && PairFormed(o.side, own, makers)
    requires forall y :: y in makers ==> y.id != o.id
    ensures var m := Match(o.side, o.price, o.remaining, makers);
      && PairFormed(o.side, own, m.rest)
      && (forall y :: y in m.rest ==> y.id != o.id)
  {
    MatchStems(o.side, o.price, o.remaining, makers);
    RestStaysAway(o.side, o.price, o.remaining, makers);
  }

  lemma JoinPaired(own: seq<Order>, o: Order, makers: seq<Order>)
    requires PairFormed(o.side, own, makers) && !CanMatch(o.side, o.price, makers)
    requires forall y :: y in makers ==> y.id != o.id
    ensures PairFormed(o.side, Insert(o.side, own, o), makers)
  {
    InsertElements(o.side, own, o);
    InsertHead(o.side, own, o);
  }

  lemma EnterKeeps(s: Sides, o: Order, ioc: bool)
    requires WellFormed(s) && !s.Has(o.id)
    ensures WellFormed(Enter(s, o, ioc).sides)
  {
    var makers, own := s.Of(o.side.Opposite()), s.Of(o.side);
    var m := Match(o.side, o.price, o.remaining, makers);
    var r := o.(remaining := m.left);
    WellFormedBySide(s, o.side);
    WellFormedBySide(Enter(s, o, ioc).sides, o.side);
    AbsentEverywhere(s, o.id);
    HasMeaning(s, o.id);
    RestFormed(o, makers);
    RestPaired(own, o, makers);
    JoinFormed(own, r);
    if !m.done {
      PriceTimePriority(o.side, o.price, o.remaining, makers);
      JoinPaired(own, r, m.rest);
    }
  }

  lemma InsertHead(side: Side, q: seq<Order>, o: Order)
    ensures var r := Insert(side, q, o); r != [] && (r[0] == o || (q != [] && r[0] == q[0]))
  {}

  lemma CancelKeeps(s: Sides, id: OrderId)
    requires WellFormed(s)
    ensures WellFormed(Cancel(s, id).sides)
    ensures OnlyRestingKinds(s) ==> OnlyRestingKinds(Cancel(s, id).sides)
    ensures !Cancel(s, id).sides.Has(id)
  {
    if s.Has(id) {
      HasMeaning(s, id);
      var o := s.Find(id).value;
      var q := s.Of(o.side);
      RemoveKeeps(o.side, q, id);
      RemoveElements(q, id);
      var r := Remove(q, id);
      if r != [] {
        assert r[0] in r;
        SortedHead(o.side, q, r[0]);
      }
      HasMeaning(Cancel(s, id).sides, id);
    }
  }

  lemma PlaceKeeps(s: Sides, o: Order)
    requires WellFormed(s)
    ensures WellFormed(Place(s, o).sides)
    ensures OnlyRestingKinds(s) && o.Fresh() ==> OnlyRestingKinds(Place(s, o).sides)
  {
    if Admit(s, o).Ok? {
      var e := Admit(s, o).value;
      var makers := s.Of(o.side.Opposite());
      EnterKeeps(s, e, ImmediateOrCancel(o.kind));
      MatchStems(e.side, e.price, e.remaining, makers);
      var m := Match(e.side, e.price, e.remaining, makers);
      InsertElements(e.side, s.Of(e.side), e.(remaining := m.left));
      if o.kind == FillOrKill && o.Fresh() {
        FullFillIsSound(o.side, o.price, o.initial, makers);
      }
    }
  }

  lemma {:induction false} CancelAllKeeps(s: Sides, ids: seq<OrderId>)
    requires WellFormed(s)
    ensures WellFormed(CancelAll(s, ids).sides)
    ensures OnlyRestingKinds(s) ==> OnlyRestingKinds(CancelAll(s, ids).sides)
  {
    if ids == [] {
    } else {
      CancelAllKeeps(s, ids[..|ids| - 1]);
      CancelKeeps(CancelAll(s, ids[..|ids| - 1]).sides, ids[|ids| - 1]);
    }
  }

  lemma ModifyKeeps(s: Sides, m: OrderModify)
    requires WellFormed(s)
    ensures WellFormed(Modify(s, m).sides)
    ensures OnlyRestingKinds(s) ==> OnlyRestingKinds(Modify(s, m).sides)
  {
    if s.Has(m.id) {
      CancelKeeps(s, m.id);
      PlaceKeeps(Cancel(s, m.id).sides, m.Modify(s.Find(m.id).value.kind));
    }
  }

  /** Every command keeps the book well formed. */
  lemma {:induction false} ExecuteKeeps(instrument: InstrumentId, b: Book, a: Action)
    requires WellFormed(b.sides)
    ensures WellFormed(Execute(instrument, b, a).0.sides)
    ensures OnlyRestingKinds(b.sides) && Submittable(a) ==> OnlyRestingKinds(Execute(instrument, b, a).0.sides)
  {
    match a
    case PlaceOrder(o) => PlaceKeeps(b.sides, o);
    case CancelOrder(id) => CancelKeeps(b.sides, id);
    case CancelOrders(ids) => CancelAllKeeps(b.sides, ids);
    case ModifyOrder(m) => ModifyKeeps(b.sides, m);
  }

  /** Every reachable book is sorted, uncrossed, free of duplicates and holds only resting kinds. */
  lemma {:induction false} ReachableBooks(instrument: InstrumentId, actions: seq<Action>)
    ensures WellFormed(Run(instrument, actions).sides)
    ensures (forall i :: 0 <= i < |actions| ==> Submittable(actions[i])) ==>
              OnlyRestingKinds(Run(instrument, actions).sides)
  {
    if actions == [] {
    } else {
      ReachableBooks(instrument, actions[..|actions| - 1]);
      ExecuteKeeps(instrument, Run(instrument, actions[..|actions| - 1]), actions[|actions| - 1]);
    }
  }
}
