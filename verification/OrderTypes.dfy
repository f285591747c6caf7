/** What each order type promises to whoever submits it. */
module OrderTypes {
  import opened Types
  import opened Queues
  import opened Matching
  import opened BookSpec
  import opened BookInvariant
  import opened Taking
  import opened Conservation

  lemma {:induction false} TradedTotalAppend(a: seq<Fact>, b: seq<Fact>)
    ensures TradedTotal(a + b) == TradedTotal(a) + TradedTotal(b)
  {
    if b == [] {
      assert a + b == a;
    } else {
      TradedTotalAppend(a, b[..|b| - 1]);
      assert (a + b)[..|a + b| - 1] == a + b[..|b| - 1];
    }
  }

  lemma {:induction false} TradedTotalOfFills(fills: seq<Fill>, taker: OrderId, makerSide: Side)
    ensures TradedTotal(TradeFacts(fills, taker, makerSide)) == FilledQuantity(fills)
  {
    var facts := TradeFacts(fills, taker, makerSide);
    if fills == [] {
    } else {
      TradedTotalOfFills(fills[1..], taker, makerSide);
      assert facts == [facts[0]] + TradeFacts(fills[1..], taker, makerSide);
      assert [facts[0]][..0] == [];
      TradedTotalAppend([facts[0]], TradeFacts(fills[1..], taker, makerSide));
    }
  }

  /** How much an order may trade: within its limit, or everything for a market order. */
  function Reachable(s: Sides, o: Order): nat {
    var makers := s.Of(o.side.Opposite());
    if o.kind == Market then Total(makers) else Liquidity(o.side, o.price, makers)
  }

  /** The limit that a market order gets takes in the whole opposing side. */
  lemma FarEndTakesAll(side: Side, makers: seq<Order>)
    requires Sorted(side.Opposite(), makers) && makers != []
    ensures var limit := makers[|makers| - 1].price;
      && CanMatch(side, limit, makers)
      && Liquidity(side, limit, makers) == Total(makers)
  {
    var limit := makers[|makers| - 1].price;
    FarEndHitsAll(side, makers);
    LiquidityOfPrefix(side, limit, makers, |makers|);
    assert makers[..|makers|] == makers && makers[|makers|..] == [];
  }

  lemma EnterTrades(s: Sides, e: Order, ioc: bool)
    requires WellFormed(s) && !s.Has(e.id)
    ensures var end := End(e, s.Of(e.side.Opposite()));
      && TradedTotal(Enter(s, e, ioc).facts) == FilledQuantity(end.fills)
      && (Enter(s, e, ioc).sides.Has(e.id) <==> end.live && !ioc)
      && (end.live && !ioc ==> Enter(s, e, ioc).sides.Find(e.id) == Some(e.(remaining := end.left)))
  {
    var makers := s.Of(e.side.Opposite());
    var end := End(e, makers);
    var trades := TradeFacts(end.fills, e.id, e.side.Opposite());
    var head := [Accepted(e.id, e.side, e.price, e.initial)];
    assert head[..0] == [];
    TradedTotalOfFills(end.fills, e.id, e.side.Opposite());
    TradedTotalAppend(head, trades);
    EndStays(s, e);
    EndLive(s, e);
    if end.live {
      EndFound(s, e);
      if ioc {
        var left := EndLeaves(s, e);
        assert [Canceled(e.id, left)][..0] == [];
        TradedTotalAppend(head + trades, [Canceled(e.id, left)]);
        EndStays(s, e);
        EnterKeeps(s, e, false);
        CancelKeeps(SidesAt(s, e, end), e.id);
      }
    }
  }

  /**
   An accepted order executes exactly what its quantity and the liquidity it can reach allow;
   what is left rests if its type lets it, and is gone otherwise.
   */
  lemma AcceptedExecutes(s: Sides, o: Order)
    requires WellFormed(s) && o.Fresh() && Place(s, o).reject == None
    ensures var p := Place(s, o);
      var executed := TradedTotal(p.facts);
      && executed == Min(o.initial, Reachable(s, o))
      && (p.sides.Has(o.id) ==>
            && o.kind != FillAndKill && o.kind != Market && o.kind != FillOrKill
            && p.sides.Find(o.id) == Some(o.(remaining := o.initial - executed)))
      && (executed < o.initial && (o.kind == GoodTillCancel || o.kind == PostOnly) ==> p.sides.Has(o.id))
  {
    hide Enter, Match, WellFormed, Liquidity;
    var e := Admit(s, o).value;
    var makers := s.Of(o.side.Opposite());
    assert Sorted(o.side.Opposite(), makers) by {
      WellFormedBySide(s, o.side);
    }
    AdmitMeaning(s, o);
    EnterTrades(s, e, ImmediateOrCancel(o.kind));
    ExecutedQuantity(e.side, e.price, e.remaining, makers);
    if o.kind == Market {
      FarEndTakesAll(o.side, makers);
    }
    if o.kind == FillOrKill {
      FullFillIsSound(o.side, o.price, o.initial, makers);
    }
  }

  ghost predicate Trades(facts: seq<Fact>) { exists f :: f in facts && f.Traded? }

  lemma EnterTradesAtAll(s: Sides, e: Order, ioc: bool)
    ensures Trades(Enter(s, e, ioc).facts) <==> CanMatch(e.side, e.price, s.Of(e.side.Opposite()))
  {
    var fills := Match(e.side, e.price, e.remaining, s.Of(e.side.Opposite())).fills;
    TradesIffCanMatch(e.side, e.price, e.remaining, s.Of(e.side.Opposite()));
    if fills != [] {
      var trades := TradeFacts(fills, e.id, e.side.Opposite());
      assert trades[0] in trades && trades[0].Traded?;
      assert trades[0] in Enter(s, e, ioc).facts;
    }
  }

  /**
   What the types add. A fresh good-till-cancel order is never refused; a post-only order never
   trades; the two immediate types never enter without trading; a market order is filled unless
   it takes everything there is.
   */
  lemma TypePromises(s: Sides, o: Order)
    requires WellFormed(s) && o.Fresh()
    ensures var p, other := Place(s, o), o.side.Opposite();
      && (o.kind == GoodTillCancel ==> (p.reject == None <==> !s.Has(o.id)))
      && (o.kind == PostOnly ==> !Trades(p.facts) && p.sides.Of(other) == s.Of(other))
      && (p.reject == None && (o.kind == FillAndKill || o.kind == Market) ==> Trades(p.facts))
      && (p.reject == None && o.kind == FillOrKill ==> TradedTotal(p.facts) == o.initial)
      && (p.reject == None && o.kind == Market ==> TradedTotal(p.facts) == o.initial || p.sides.Of(other) == [])
  {
    var p := Place(s, o);
    var makers := s.Of(o.side.Opposite());
    if p.reject == None {
      var e := Admit(s, o).value;
      AdmitMeaning(s, o);
      EnterTradesAtAll(s, e, ImmediateOrCancel(o.kind));
      if o.kind == FillOrKill || o.kind == Market {
        EnterTrades(s, e, ImmediateOrCancel(o.kind));
        ExecutedQuantity(e.side, e.price, e.remaining, makers);
      }
      if o.kind == FillOrKill {
        FullFillIsSound(o.side, o.price, o.initial, makers);
      }
      if o.kind == Market {
        FarEndTakesAll(o.side, makers);
        FarEndHitsAll(o.side, makers);
        AllHitEmpties(e.side, e.price, e.remaining, makers);
      }
    }
  }

  lemma FarEndHitsAll(side: Side, makers: seq<Order>)
    requires Sorted(side.Opposite(), makers) && makers != []
    ensures forall x :: x in makers ==> Crosses(side, makers[|makers| - 1].price, x.price)
  {
    forall i | 0 <= i < |makers| ensures Crosses(side, makers[|makers| - 1].price, makers[i].price) {
      assert i < |makers| - 1 ==> !Better(side.Opposite(), makers[|makers| - 1].price, makers[i].price);
    }
  }

  /** A taker whose limit takes in everything and who is not filled empties the side. */
  lemma {:induction false} AllHitEmpties(side: Side, limit: Price, quantity: Quantity, makers: seq<Order>)
    requires forall x :: x in makers ==> Crosses(side, limit, x.price)
    ensures var r := Match(side, limit, quantity, makers); r.done || r.rest == []
  {
    if !CanMatch(side, limit, makers) {
    } else {
      var t := Min(quantity, makers[0].remaining);
      if t != quantity {
        AllHitEmpties(side, limit, quantity - t, makers[1..]);
      }
    }
  }

  /**
   Fill or kill. Acceptance is a promise of a complete fill, and the order never rests; without
   an overflowing level a new order is accepted exactly when the liquidity within its limit
   covers it.
   */
  lemma FillOrKillDecision(s: Sides, o: Order)
    requires WellFormed(s) && o.Fresh() && o.kind == FillOrKill && !s.Has(o.id)
    ensures var p, makers := Place(s, o), s.Of(o.side.Opposite());
      && (p.reject == None ==>
            && CanMatch(o.side, o.price, makers) && o.initial <= Liquidity(o.side, o.price, makers)
            && TradedTotal(p.facts) == o.initial)
      && !p.sides.Has(o.id)
      && (NoOverflow(o.side, o.price, makers) ==>
            (p.reject == None <==>
             CanMatch(o.side, o.price, makers) && o.initial <= Liquidity(o.side, o.price, makers)))
  {
    var makers := s.Of(o.side.Opposite());
    ShownIsSound(o.side, o.price, makers);
    ShownIsExact(o.side, o.price, makers);
    if Place(s, o).reject == None {
      AcceptedExecutes(s, o);
    }
  }
}
