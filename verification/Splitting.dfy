/** Splitting a fill-and-kill order in two does not change what happens to the makers. */
module Splitting {
  import opened Types
  import opened Queues
  import opened Matching
  import opened BookSpec
  import opened BookInvariant
  import opened Taking

  /** What a maker gave in all. */
  function GivenBy(fills: seq<Fill>, maker: OrderId): nat {
    if fills == [] then 0
    else (if fills[0].maker == maker then fills[0].quantity else 0) + GivenBy(fills[1..], maker)
  }

  lemma GivenCons(f: Fill, fills: seq<Fill>, maker: OrderId)
    ensures GivenBy([f] + fills, maker) == (if f.maker == maker then f.quantity else 0) + GivenBy(fills, maker)
  {
    assert ([f] + fills)[1..] == fills;
  }

  /** One step of a taker that does not stop at the head. */
  lemma GivenStep(side: Side, limit: Price, quantity: Quantity, makers: seq<Order>, maker: OrderId)
    requires CanMatch(side, limit, makers) && quantity > makers[0].remaining
    ensures var r := Match(side, limit, quantity - makers[0].remaining, makers[1..]);
      && Match(side, limit, quantity, makers).rest == r.rest
      && GivenBy(Match(side, limit, quantity, makers).fills, maker)
           == (if makers[0].id == maker then makers[0].remaining else 0) + GivenBy(r.fills, maker)
  {
    var m := makers[0];
    GivenCons(Fill(m.price, m.remaining, m.id), Match(side, limit, quantity - m.remaining, makers[1..]).fills, maker);
  }

  lemma GivenStop(side: Side, limit: Price, quantity: Quantity, makers: seq<Order>, maker: OrderId)
    requires CanMatch(side, limit, makers) && quantity <= makers[0].remaining
    ensures Match(side, limit, quantity, makers).rest == ReduceHead(makers, quantity)
    ensures GivenBy(Match(side, limit, quantity, makers).fills, maker)
         == if makers[0].id == maker then quantity else 0
  {
    var m := makers[0];
    GivenCons(Fill(m.price, quantity, m.id), [], maker);
  }

  /** The first of two takers stops at the head; the second goes on from what it left there. */
  lemma HeadInTwo(side: Side, limit: Price, a: Quantity, b: Quantity, makers: seq<Order>, maker: OrderId)
    requires b > 0 && a + b < U32_RANGE && CanMatch(side, limit, makers) && a <= makers[0].remaining
    ensures var second := Match(side, limit, b, ReduceHead(makers, a));
      var both := Match(side, limit, a + b, makers);
      && second.rest == both.rest
      && (if makers[0].id == maker then a else 0) + GivenBy(second.fills, maker) == GivenBy(both.fills, maker)
  {
    hide Match, GivenBy;
    var m, rest := makers[0], ReduceHead(makers, a);
    if a + b > m.remaining {
      GivenStep(side, limit, a + b, makers, maker);
      if a < m.remaining {
        assert rest[1..] == makers[1..];
        GivenStep(side, limit, b, rest, maker);
      }
    } else {
      assert rest[1..] == makers[1..];
      GivenStop(side, limit, a + b, makers, maker);
      GivenStop(side, limit, b, rest, maker);
    }
  }

  /** Two takers in a row leave the makers as one taker of both quantities does. */
  lemma {:induction false} MatchInTwo(
      side: Side, limit: Price, a: Quantity, b: Quantity, makers: seq<Order>, maker: OrderId)
    requires b > 0 && a + b < U32_RANGE
    ensures var first := Match(side, limit, a, makers);
      var second := Match(side, limit, b, first.rest);
      var both := Match(side, limit, a + b, makers);
      && second.rest == both.rest
      && GivenBy(first.fills, maker) + GivenBy(second.fills, maker) == GivenBy(both.fills, maker)
  {
    hide Match;
    TradesIffCanMatch(side, limit, a, makers);
    TradesIffCanMatch(side, limit, b, makers);
    TradesIffCanMatch(side, limit, a + b, makers);
    if !CanMatch(side, limit, makers) {
    } else {
      if a > makers[0].remaining {
        GivenStep(side, limit, a, makers, maker);
        GivenStep(side, limit, a + b, makers, maker);
        MatchInTwo(side, limit, a - makers[0].remaining, b, makers[1..], maker);
      } else {
        GivenStop(side, limit, a, makers, maker);
        HeadInTwo(side, limit, a, b, makers, maker);
      }
    }
  }

  /** The makers' side once a fill-and-kill order came by, refused or not. */
  lemma FillAndKillSides(s: Sides, o: Order)
    requires !s.Has(o.id) && o.kind == FillAndKill
    ensures var m := Match(o.side, o.price, o.remaining, s.Of(o.side.Opposite()));
      Place(s, o).sides == s.With(o.side.Opposite(), m.rest)
  {
    TradesIffCanMatch(o.side, o.price, o.remaining, s.Of(o.side.Opposite()));
  }

  lemma StillAbsent(s: Sides, a: Order, id: OrderId)
    requires WellFormed(s) && !s.Has(id) && a.kind == FillAndKill && !s.Has(a.id)
    ensures !Place(s, a).sides.Has(id)
  {
    var makers := s.Of(a.side.Opposite());
    FillAndKillSides(s, a);
    AbsentEverywhere(s, id);
    MatchStems(a.side, a.price, a.remaining, makers);
    HasMeaning(Place(s, a).sides, id);
    HasMeaning(s, id);
  }

  predicate SameTaker(a: Order, b: Order) {
    a.kind == b.kind == FillAndKill && a.side == b.side && a.price == b.price
  }

  // --- when an empty second part matters ---------------------------------------------------------

  predicate FrontEmpty(side: Side, limit: Price, makers: seq<Order>) {
    CanMatch(side, limit, makers) && makers[0].remaining == 0
  }

  /** Some empty maker within the limit, not the first, has exactly `a` ahead of it. */
  predicate EmptyAfter(side: Side, limit: Price, a: Quantity, makers: seq<Order>) {
    exists i :: 1 <= i < |makers| && EmptyAt(side, limit, a, makers, i)
  }

  predicate EmptyAt(side: Side, limit: Price, a: int, makers: seq<Order>, i: nat)
    requires i < |makers|
  {
    Total(makers[..i]) == a && Crosses(side, limit, makers[i].price) && makers[i].remaining == 0
  }

  lemma EmptyAtTail(side: Side, limit: Price, a: int, makers: seq<Order>, i: nat)
    requires 1 <= i < |makers|
    ensures EmptyAt(side, limit, a, makers, i)
       <==> EmptyAt(side, limit, a - makers[0].remaining, makers[1..], i - 1)
  {
    assert makers[..i] == [makers[0]] + makers[1..][..i - 1];
    assert makers[..i][1..] == makers[1..][..i - 1];
  }

  /** A taker of `a` leaves an empty maker in front exactly if one has `a` ahead of it. */
  lemma {:induction false} LeavesEmptyFront(side: Side, limit: Price, a: Quantity, makers: seq<Order>)
    requires Sorted(side.Opposite(), makers)
    ensures FrontEmpty(side, limit, Match(side, limit, a, makers).rest) <==> EmptyAfter(side, limit, a, makers)
  {
    hide Match, EmptyAt;
    if !CanMatch(side, limit, makers) {
      MatchMisses(side, limit, a, makers);
      forall i | 1 <= i < |makers| ensures !EmptyAt(side, limit, a, makers, i) {
        NotBeyond(side, limit, a, makers, i);
      }
    } else {
      var m, tail := makers[0], makers[1..];
      assert makers == [m] + tail;
      SortedCons(side.Opposite(), m, tail);
      forall i | 1 <= i < |makers|
        ensures EmptyAt(side, limit, a, makers, i) <==> EmptyAt(side, limit, a - m.remaining, tail, i - 1)
      {
        EmptyAtTail(side, limit, a, makers, i);
      }
      if a > m.remaining {
        MatchGoesOn(side, limit, a, makers);
        LeavesEmptyFront(side, limit, a - m.remaining, tail);
        ShiftEmpty(side, limit, a, makers);
      } else {
        MatchStops(side, limit, a, makers);
        StopsBeforeEmpty(side, limit, a, makers);
      }
    }
  }

  lemma NotBeyond(side: Side, limit: Price, a: int, makers: seq<Order>, i: nat)
    requires Sorted(side.Opposite(), makers) && i < |makers| && !CanMatch(side, limit, makers)
    ensures !EmptyAt(side, limit, a, makers, i)
  {
    assert makers[i] in makers;
    SortedHead(side.Opposite(), makers, makers[i]);
  }

  lemma ShiftEmpty(side: Side, limit: Price, a: Quantity, makers: seq<Order>)
    requires makers != [] && a > makers[0].remaining
    ensures EmptyAfter(side, limit, a, makers) <==> EmptyAfter(side, limit, a - makers[0].remaining, makers[1..])
  {
    hide EmptyAt;
    var tail, rest := makers[1..], a - makers[0].remaining;
    if EmptyAfter(side, limit, a, makers) {
      var i :| 1 <= i < |makers| && EmptyAt(side, limit, a, makers, i);
      EmptyAtTail(side, limit, a, makers, i);
      assert i > 1 by {
        NothingAhead(side, limit, rest, tail);
      }
      assert EmptyAt(side, limit, rest, tail, i - 1);
    }
    if EmptyAfter(side, limit, rest, tail) {
      var i :| 1 <= i < |tail| && EmptyAt(side, limit, rest, tail, i);
      EmptyAtTail(side, limit, a, makers, i + 1);
    }
  }

  /** Nothing is ahead of the first maker. */
  lemma NothingAhead(side: Side, limit: Price, a: int, makers: seq<Order>)
    ensures a != 0 && makers != [] ==> !EmptyAt(side, limit, a, makers, 0)
  {}

  lemma StopsBeforeEmpty(side: Side, limit: Price, a: Quantity, makers: seq<Order>)
    requires Sorted(side.Opposite(), makers) && CanMatch(side, limit, makers) && a <= makers[0].remaining
    ensures FrontEmpty(side, limit, ReduceHead(makers, a)) <==> EmptyAfter(side, limit, a, makers)
  {
    var m, tail := makers[0], makers[1..];
    if EmptyAfter(side, limit, a, makers) {
      var i :| 1 <= i < |makers| && EmptyAt(side, limit, a, makers, i);
      EmptyAtTail(side, limit, a, makers, i);
      assert !Better(side.Opposite(), makers[i].price, makers[1].price) by {
        if i > 1 {
          assert makers[i] == tail[i - 1] && makers[1] == tail[0];
        }
      }
      if i > 1 {
        assert tail[..i - 1][0] == tail[0];
      }
    }
    if FrontEmpty(side, limit, ReduceHead(makers, a)) {
      EmptyAtTail(side, limit, a, makers, 1);
      assert EmptyAt(side, limit, a, makers, 1);
    }
  }

  // --- the law ---------------------------------------------------------------------------------------

  /**
   Placing `a` and then `b` leaves the book as placing one order `c` of both quantities does,
   exactly unless `b` is empty and an empty maker has just `a` ahead of it; each maker gives the
   same in all.
   */
  lemma SplitFillAndKill(s: Sides, a: Order, b: Order, c: Order, maker: OrderId)
    requires WellFormed(s) && !s.Has(a.id) && !s.Has(b.id) && !s.Has(c.id)
    requires SameTaker(a, b) && SameTaker(a, c) && c.remaining == a.remaining + b.remaining
    ensures var makers := s.Of(a.side.Opposite());
      var mid := Place(s, a).sides;
      && (Place(mid, b).sides == Place(s, c).sides
          <==> b.remaining > 0 || !EmptyAfter(a.side, a.price, a.remaining, makers))
      && GivenBy(Match(a.side, a.price, a.remaining, makers).fills, maker)
         + GivenBy(Match(b.side, b.price, b.remaining, mid.Of(a.side.Opposite())).fills, maker)
         == GivenBy(Match(c.side, c.price, c.remaining, makers).fills, maker)
  {
    hide Match, Place, WellFormed, EmptyAfter;
    var makers := s.Of(a.side.Opposite());
    var mid := Place(s, a).sides;
    var front := mid.Of(a.side.Opposite());
    FillAndKillSides(s, a);
    StillAbsent(s, a, b.id);
    FillAndKillSides(mid, b);
    FillAndKillSides(s, c);
    if b.remaining > 0 {
      MatchInTwo(a.side, a.price, a.remaining, b.remaining, makers, maker);
    } else {
      assert Sorted(a.side.Opposite(), makers) by {
        WellFormedBySide(s, a.side);
      }
      LeavesEmptyFront(a.side, a.price, a.remaining, makers);
      TradesIffCanMatch(a.side, a.price, 0, front);
      if CanMatch(a.side, a.price, front) {
        GivenStop(a.side, a.price, 0, front, maker);
        assert front == [front[0]] + front[1..];
      }
    }
  }

  /** Without empty makers within the limit there is no exception. */
  lemma SplitAmongPositive(s: Sides, a: Order, b: Order, c: Order)
    requires WellFormed(s) && !s.Has(a.id) && !s.Has(b.id) && !s.Has(c.id)
    requires SameTaker(a, b) && SameTaker(a, c) && c.remaining == a.remaining + b.remaining
    requires forall m :: m in s.Of(a.side.Opposite()) && Crosses(a.side, a.price, m.price) ==> m.remaining > 0
    ensures Place(Place(s, a).sides, b).sides == Place(s, c).sides
  {
    var makers := s.Of(a.side.Opposite());
    SplitFillAndKill(s, a, b, c, 0);
    forall i | 1 <= i < |makers| ensures !EmptyAt(a.side, a.price, a.remaining, makers, i) {
      assert makers[i] in makers;
    }
  }
}
