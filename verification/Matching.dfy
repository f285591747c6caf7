/**
 The reference matching rule: a taker eats the opposing queue from the front, and a
 fill-or-kill order is admitted by looking at the depth of that queue.
 */
module Matching {
  import opened Types
  import opened Queues

  /** A taker with limit `limit` may trade with a maker resting at `maker`. */
  predicate Crosses(taker: Side, limit: Price, maker: Price) {
    if taker.Buy? then maker <= limit else limit <= maker
  }

  datatype Fill = Fill(price: Price, quantity: Quantity, maker: OrderId)

  /** `done` says that the taker was filled, and so left the book. */
  datatype MatchResult = MatchResult(fills: seq<Fill>, left: Quantity, done: bool, rest: seq<Order>)

  /**
   Greedy fill. A taker that crosses always trades once, even for quantity zero, and goes on
   for as long as it has quantity left.
   */
  function Match(side: Side, limit: Price, quantity: Quantity, makers: seq<Order>): MatchResult {
    if makers == [] || !Crosses(side, limit, makers[0].price) then MatchResult([], quantity, false, makers)
    else
      var t := Min(quantity, makers[0].remaining);
      var fill := Fill(makers[0].price, t, makers[0].id);
      if t == quantity then MatchResult([fill], 0, true, ReduceHead(makers, t))
      else
        var r := Match(side, limit, quantity - t, makers[1..]);
        r.(fills := [fill] + r.fills)
  }

  function FilledQuantity(fills: seq<Fill>): nat {
    if fills == [] then 0 else fills[0].quantity + FilledQuantity(fills[1..])
  }

  /** Everything that rests within the limit. */
  function Liquidity(side: Side, limit: Price, makers: seq<Order>): nat {
    if makers == [] then 0
    else
      (if Crosses(side, limit, makers[0].price) then makers[0].remaining else 0)
        + Liquidity(side, limit, makers[1..])
  }

  predicate CanMatch(side: Side, limit: Price, makers: seq<Order>) {
    makers != [] && Crosses(side, limit, makers[0].price)
  }

  /** The depth snapshot; a level's sum wraps around at 2^32. */
  function Depth(q: seq<Order>): seq<LevelInfo> {
    if q == [] then []
    else
      AtPriceElements(q, q[0].price);
      var level := AtPrice(q, q[0].price);
      assert |level| > 0;
      [LevelInfo(q[0].price, Total(level) % U32_RANGE)] + Depth(q[|level|..])
  }

  /** The quantity that a snapshot shows within the limit. */
  function Shown(side: Side, limit: Price, levels: seq<LevelInfo>): nat {
    if levels == [] || !Crosses(side, limit, levels[0].price) then 0
    else levels[0].quantity + Shown(side, limit, levels[1..])
  }

  predicate CanFullyFill(side: Side, limit: Price, quantity: Quantity, makers: seq<Order>) {
    CanMatch(side, limit, makers) && quantity <= Shown(side, limit, Depth(makers))
  }

  // --- price-time priority --------------------------------------------------------

  /** The `i`-th trade hits the `i`-th maker at its own price, within the limit. */
  ghost predicate Hits(side: Side, limit: Price, fill: Fill, maker: Order) {
    && fill.maker == maker.id
    && fill.price == maker.price
    && fill.quantity <= maker.remaining
    && Crosses(side, limit, maker.price)
  }

  lemma {:induction false} HitsInOrder(side: Side, limit: Price, quantity: Quantity, makers: seq<Order>, i: nat)
    ensures var r := Match(side, limit, quantity, makers);
      && |r.fills| <= |makers|
      && (i < |r.fills| ==> Hits(side, limit, r.fills[i], makers[i]))
      && (i < |r.fills| && (r.done ==> i < |r.fills| - 1) ==> r.fills[i].quantity == makers[i].remaining)
  {
    if !CanMatch(side, limit, makers) {
    } else {
      var m := makers[0];
      var t := Min(quantity, m.remaining);
      assert Hits(side, limit, Fill(m.price, t, m.id), m);
      if t != quantity {
        HitsInOrder(side, limit, quantity - t, makers[1..], if i > 0 then i - 1 else 0);
      }
    }
  }

  lemma MatchGoesOn(side: Side, limit: Price, quantity: Quantity, makers: seq<Order>)
    requires CanMatch(side, limit, makers) && quantity > makers[0].remaining
    ensures var m := makers[0];
      var r := Match(side, limit, quantity - m.remaining, makers[1..]);
      Match(side, limit, quantity, makers)
        == MatchResult([Fill(m.price, m.remaining, m.id)] + r.fills, r.left, r.done, r.rest)
  {}

  lemma MatchStops(side: Side, limit: Price, quantity: Quantity, makers: seq<Order>)
    requires CanMatch(side, limit, makers) && quantity <= makers[0].remaining
    ensures var m := makers[0];
      Match(side, limit, quantity, makers)
        == MatchResult([Fill(m.price, quantity, m.id)], 0, true, ReduceHead(makers, quantity))
  {}

  lemma MatchMisses(side: Side, limit: Price, quantity: Quantity, makers: seq<Order>)
    requires !CanMatch(side, limit, makers)
    ensures Match(side, limit, quantity, makers) == MatchResult([], quantity, false, makers)
  {}

  lemma {:induction false} RestIsSuffix(side: Side, limit: Price, quantity: Quantity, makers: seq<Order>)
    ensures var r := Match(side, limit, quantity, makers);
      var n := |r.fills|;
      && n <= |makers|
      && (r.done ==>
            && n > 0 && r.left == 0
            && r.fills[n - 1].quantity <= makers[n - 1].remaining
            && r.rest == ReduceHead(makers[n - 1..], r.fills[n - 1].quantity))
      && (!r.done ==>
            r.rest == makers[n..] && !CanMatch(side, limit, r.rest) && (n > 0 ==> r.left > 0))
  {
    hide Match, ReduceHead;
    if !CanMatch(side, limit, makers) {
      MatchMisses(side, limit, quantity, makers);
    } else if quantity <= makers[0].remaining {
      MatchStops(side, limit, quantity, makers);
      assert makers[0..] == makers;
    } else {
      var m, tail := makers[0], makers[1..];
      MatchGoesOn(side, limit, quantity, makers);
      RestIsSuffix(side, limit, quantity - m.remaining, tail);
      NoFillNothingDone(side, limit, quantity - m.remaining, tail);
      var n := |Match(side, limit, quantity - m.remaining, tail).fills|;
      assert tail[n..] == makers[n + 1..];
      assert n > 0 ==> tail[n - 1..] == makers[n..];
    }
  }

  lemma NoFillNothingDone(side: Side, limit: Price, quantity: Quantity, makers: seq<Order>)
    ensures var r := Match(side, limit, quantity, makers); r.fills == [] ==> !r.done && r.left == quantity
  {}

  /**
   Price-time priority without recursion: the makers hit are a prefix of the queue, in queue
   order and at their own prices; all but the last give everything they have, and the rest of
   the queue is left as it was.
   */
  lemma {:induction false} PriceTimePriority(side: Side, limit: Price, quantity: Quantity, makers: seq<Order>)
    ensures var r := Match(side, limit, quantity, makers);
      && |r.fills| <= |makers|
      && (forall i :: 0 <= i < |r.fills| ==> Hits(side, limit, r.fills[i], makers[i]))
      && (forall i :: 0 <= i < |r.fills| && (r.done ==> i < |r.fills| - 1) ==>
            r.fills[i].quantity == makers[i].remaining)
      && (if r.done
          then r.left == 0 && r.fills != [] &&
               r.rest == ReduceHead(makers[|r.fills| - 1..], r.fills[|r.fills| - 1].quantity)
          else r.rest == makers[|r.fills|..] && !CanMatch(side, limit, r.rest) && (r.fills != [] ==> r.left > 0))
  {
    hide Match, ReduceHead;
    RestIsSuffix(side, limit, quantity, makers);
    var r := Match(side, limit, quantity, makers);
    forall i | 0 <= i < |r.fills|
      ensures Hits(side, limit, r.fills[i], makers[i])
      ensures (r.done ==> i < |r.fills| - 1) ==> r.fills[i].quantity == makers[i].remaining
    {
      HitsInOrder(side, limit, quantity, makers, i);
    }
  }

  /** The first trade takes place exactly when the taker can match. */
  lemma TradesIffCanMatch(side: Side, limit: Price, quantity: Quantity, makers: seq<Order>)
    ensures Match(side, limit, quantity, makers).fills != [] <==> CanMatch(side, limit, makers)
    ensures !CanMatch(side, limit, makers) ==>
              Match(side, limit, quantity, makers) == MatchResult([], quantity, false, makers)
  {}

  /** `x` is an order of `q`, possibly with some of it filled since. */
  ghost predicate StemsFrom(x: Order, q: seq<Order>) {
    exists y :: y in q && x == y.(remaining := x.remaining) && x.remaining <= y.remaining
  }

  lemma ReduceHeadKeeps(side: Side, q: seq<Order>, t: Quantity)
    requires q != [] && t <= q[0].remaining
    ensures Sorted(side, q) ==> Sorted(side, ReduceHead(q, t)) && Sorted(side, q[1..])
    ensures Distinct(q) ==> Distinct(ReduceHead(q, t)) && Distinct(q[1..])
  {
    var r := ReduceHead(q, t);
    if q[0].remaining != t {
      assert forall i :: 0 <= i < |q| ==> r[i].price == q[i].price && r[i].id == q[i].id;
    }
  }

  lemma ReduceHeadStems(q: seq<Order>, t: Quantity)
    requires q != [] && t <= q[0].remaining
    ensures forall x :: x in ReduceHead(q, t) ==> StemsFrom(x, q)
    ensures Total(ReduceHead(q, t)) + t == Total(q)
  {
    var r := ReduceHead(q, t);
    forall x | x in r ensures StemsFrom(x, q) {
      var y := if x in q then x else q[0];
      assert y in q;
      assert x == y.(remaining := x.remaining);
    }
  }

  lemma {:induction false} MatchKeepsOrder(side: Side, limit: Price, quantity: Quantity, makers: seq<Order>)
    ensures var rest := Match(side, limit, quantity, makers).rest;
      && (Sorted(side.Opposite(), makers) ==> Sorted(side.Opposite(), rest))
      && (Distinct(makers) ==> Distinct(rest))
  {
    if !CanMatch(side, limit, makers) {
    } else {
      var t := Min(quantity, makers[0].remaining);
      ReduceHeadKeeps(side.Opposite(), makers, t);
      if t != quantity {
        MatchKeepsOrder(side, limit, quantity - t, makers[1..]);
      }
    }
  }

  lemma {:induction false} MatchStems(side: Side, limit: Price, quantity: Quantity, makers: seq<Order>)
    ensures forall x :: x in Match(side, limit, quantity, makers).rest ==> StemsFrom(x, makers)
  {
    if !CanMatch(side, limit, makers) {
      assert forall x :: x in makers ==> x == x.(remaining := x.remaining);
    } else {
      var t := Min(quantity, makers[0].remaining);
      ReduceHeadStems(makers, t);
      if t != quantity {
        var tail := makers[1..];
        MatchStems(side, limit, quantity - t, tail);
        forall x | x in Match(side, limit, quantity - t, tail).rest ensures StemsFrom(x, makers) {
          var y :| y in tail && x == y.(remaining := x.remaining) && x.remaining <= y.remaining;
          assert y in makers;
        }
      }
    }
  }

  // --- how much is executed ---------------------------------------------------------

  lemma {:induction false} NothingBeyond(side: Side, limit: Price, makers: seq<Order>)
    requires Sorted(side.Opposite(), makers) && !CanMatch(side, limit, makers)
    ensures Liquidity(side, limit, makers) == 0
  {
    if |makers| <= 1 {
    } else {
      var tail := makers[1..];
      assert makers == [makers[0]] + tail;
      SortedCons(side.Opposite(), makers[0], tail);
      assert tail[0] in tail;
      NothingBeyond(side, limit, tail);
    }
  }

  lemma FilledCons(f: Fill, fills: seq<Fill>)
    ensures FilledQuantity([f] + fills) == f.quantity + FilledQuantity(fills)
  {
    assert ([f] + fills)[1..] == fills;
  }

  /** What is traded comes off the taker and off the makers. */
  lemma {:induction false} MatchConserves(side: Side, limit: Price, quantity: Quantity, makers: seq<Order>)
    ensures var r := Match(side, limit, quantity, makers);
      && FilledQuantity(r.fills) + r.left == quantity
      && FilledQuantity(r.fills) + Total(r.rest) == Total(makers)
  {
    if !CanMatch(side, limit, makers) {
    } else {
      var m := makers[0];
      var t := Min(quantity, m.remaining);
      ReduceHeadStems(makers, t);
      FilledCons(Fill(m.price, t, m.id), []);
      if t != quantity {
        MatchConserves(side, limit, quantity - t, makers[1..]);
        FilledCons(Fill(m.price, t, m.id), Match(side, limit, quantity - t, makers[1..]).fills);
      }
    }
  }

  lemma {:induction false} DoneMeaning(side: Side, limit: Price, quantity: Quantity, makers: seq<Order>)
    requires Sorted(side.Opposite(), makers)
    ensures var r := Match(side, limit, quantity, makers);
      && r.left == quantity - Min(quantity, Liquidity(side, limit, makers))
      && (r.done <==> CanMatch(side, limit, makers) && quantity <= Liquidity(side, limit, makers))
  {
    if !CanMatch(side, limit, makers) {
      NothingBeyond(side, limit, makers);
    } else {
      var m, tail := makers[0], makers[1..];
      var t := Min(quantity, m.remaining);
      ReduceHeadKeeps(side.Opposite(), makers, t);
      if t != quantity {
        DoneMeaning(side, limit, quantity - t, tail);
        if !CanMatch(side, limit, tail) {
          NothingBeyond(side, limit, tail);
        }
      }
    }
  }

  /** Exactly as much is executed as the quantity and the liquidity within the limit allow. */
  lemma {:induction false} ExecutedQuantity(side: Side, limit: Price, quantity: Quantity, makers: seq<Order>)
    requires Sorted(side.Opposite(), makers)
    ensures var r := Match(side, limit, quantity, makers);
      && FilledQuantity(r.fills) == Min(quantity, Liquidity(side, limit, makers))
      && FilledQuantity(r.fills) + r.left == quantity
      && FilledQuantity(r.fills) + Total(r.rest) == Total(makers)
      && (r.done <==> CanMatch(side, limit, makers) && quantity <= Liquidity(side, limit, makers))
  {
    MatchConserves(side, limit, quantity, makers);
    DoneMeaning(side, limit, quantity, makers);
  }

  // --- fill or kill --------------------------------------------------------------------

  lemma {:induction false} TotalAppend(a: seq<Order>, b: seq<Order>)
    ensures Total(a + b) == Total(a) + Total(b)
  {
    if a == [] {
      assert a + b == b;
    } else {
      assert (a + b)[1..] == a[1..] + b;
      TotalAppend(a[1..], b);
    }
  }

  lemma {:induction false} LiquidityOfPrefix(side: Side, limit: Price, q: seq<Order>, n: nat)
    requires n <= |q|
    requires forall i :: 0 <= i < n ==> Crosses(side, limit, q[i].price)
    ensures Liquidity(side, limit, q) == Total(q[..n]) + Liquidity(side, limit, q[n..])
  {
    if n == 0 {
    } else {
      LiquidityOfPrefix(side, limit, q[1..], n - 1);
      assert q[..n][1..] == q[1..][..n - 1];
      assert q[1..][n - 1..] == q[n..];
    }
  }

  /** What lies behind the head's level. */
  function Behind(q: seq<Order>): (r: seq<Order>)
    requires q != []
    ensures |r| < |q|
  {
    AtPriceElements(q, q[0].price);
    assert |AtPrice(q, q[0].price)| > 0;
    q[|AtPrice(q, q[0].price)|..]
  }

  /** Behind the head's level every other level is as it was. */
  lemma BehindLevels(side: Side, q: seq<Order>, p: Price)
    requires q != [] && Sorted(side, q)
    ensures AtPrice(Behind(q), p) == if p == q[0].price then [] else AtPrice(q, p)
  {
    HeadLevel(side, q);
  }

  lemma BehindKeeps(side: Side, q: seq<Order>)
    requires q != []
    ensures Sorted(side, q) ==> Sorted(side, Behind(q))
    ensures forall x :: x in Behind(q) ==> x in q
  {
    AtPriceElements(q, q[0].price);
    var n := |AtPrice(q, q[0].price)|;
    assert forall i :: 0 <= i < |Behind(q)| ==> Behind(q)[i] == q[n + i];
  }

  lemma DepthSplits(q: seq<Order>)
    requires q != []
    ensures Depth(q) == [LevelInfo(q[0].price, Total(AtPrice(q, q[0].price)) % U32_RANGE)] + Depth(Behind(q))
  {}

  /** Each row of a snapshot is a price at which orders rest, with all that rests there modulo 2^32. */
  lemma {:induction false} DepthRow(side: Side, q: seq<Order>, j: nat)
    requires Sorted(side, q) && j < |Depth(q)|
    ensures var row := Depth(q)[j];
      && (exists x :: x in q && x.price == row.price)
      && row.quantity == Total(AtPrice(q, row.price)) % U32_RANGE
      && (j > 0 ==> Better(side, q[0].price, row.price))
    decreases |q|
  {
    hide Depth, Behind;
    EmptyDepth();
    DepthSplits(q);
    assert q[0] in q;
    if j == 0 {
    } else {
      var rest := Behind(q);
      BehindKeeps(side, q);
      DepthRow(side, rest, j - 1);
      var x :| x in rest && x.price == Depth(rest)[j - 1].price;
      BehindLevels(side, q, x.price);
      AtPriceElements(rest, x.price);
      SortedHead(side, q, x);
    }
  }

  lemma EmptyDepth()
    ensures Depth([]) == []
  {}

  /** The rows are in priority order, one for each price. */
  lemma {:induction false} DepthOrder(side: Side, q: seq<Order>, i: nat, j: nat)
    requires Sorted(side, q) && i < j < |Depth(q)|
    ensures Better(side, Depth(q)[i].price, Depth(q)[j].price)
    decreases |q|
  {
    hide Depth, Behind;
    EmptyDepth();
    DepthSplits(q);
    if i == 0 {
      DepthRow(side, q, j);
    } else {
      BehindKeeps(side, q);
      DepthOrder(side, Behind(q), i - 1, j - 1);
    }
  }

  /** No price is missing. */
  lemma {:induction false} DepthCovers(side: Side, q: seq<Order>, x: Order) returns (j: nat)
    requires Sorted(side, q) && x in q
    ensures j < |Depth(q)| && Depth(q)[j].price == x.price
    decreases |q|
  {
    hide Depth, Behind;
    DepthSplits(q);
    if x.price == q[0].price {
      j := 0;
    } else {
      BehindKeeps(side, q);
      BehindLevels(side, q, x.price);
      AtPriceElements(q, x.price);
      AtPriceElements(Behind(q), x.price);
      j := DepthCovers(side, Behind(q), x);
      j := j + 1;
    }
  }

  lemma LiquidityByLevel(side: Side, limit: Price, q: seq<Order>)
    requires Sorted(side.Opposite(), q) && CanMatch(side, limit, q)
    ensures Sorted(side.Opposite(), Behind(q))
    ensures Liquidity(side, limit, q) == Total(AtPrice(q, q[0].price)) + Liquidity(side, limit, Behind(q))
  {
    HeadLevel(side.Opposite(), q);
    var level := AtPrice(q, q[0].price);
    AtPriceElements(q, q[0].price);
    forall i | 0 <= i < |level| ensures Crosses(side, limit, q[i].price) {
      assert level[i] in level;
    }
    LiquidityOfPrefix(side, limit, q, |level|);
  }

  /** A snapshot never shows more than there is, whatever wraps around. */
  lemma {:induction false} ShownIsSound(side: Side, limit: Price, q: seq<Order>)
    requires Sorted(side.Opposite(), q)
    ensures Shown(side, limit, Depth(q)) <= Liquidity(side, limit, q)
    decreases |q|
  {
    if !CanMatch(side, limit, q) {
    } else {
      LiquidityByLevel(side, limit, q);
      ShownIsSound(side, limit, Behind(q));
    }
  }

  /** No level within the limit holds 2^32 or more. */
  ghost predicate NoOverflow(side: Side, limit: Price, q: seq<Order>) {
    forall p | Crosses(side, limit, p) :: Total(AtPrice(q, p)) < U32_RANGE
  }

  lemma {:induction false} ShownIsExact(side: Side, limit: Price, q: seq<Order>)
    requires Sorted(side.Opposite(), q)
    ensures Shown(side, limit, Depth(q)) == Liquidity(side, limit, q) <==> NoOverflow(side, limit, q)
    decreases |q|
  {
    if !CanMatch(side, limit, q) {
      NothingBeyond(side, limit, q);
      forall p | Crosses(side, limit, p) ensures Total(AtPrice(q, p)) == 0 {
        forall x | x in q ensures x.price != p {
          SortedHead(side.Opposite(), q, x);
        }
        NoneAtPrice(q, p);
      }
    } else {
      LiquidityByLevel(side, limit, q);
      ShownIsSound(side, limit, Behind(q));
      ShownIsExact(side, limit, Behind(q));
      OverflowByLevel(side, limit, q);
    }
  }

  lemma OverflowByLevel(side: Side, limit: Price, q: seq<Order>)
    requires Sorted(side.Opposite(), q) && CanMatch(side, limit, q)
    ensures NoOverflow(side, limit, q) <==>
            Total(AtPrice(q, q[0].price)) < U32_RANGE && NoOverflow(side, limit, Behind(q))
  {
    hide Behind, AtPrice, Sorted;
    forall p ensures AtPrice(Behind(q), p) == if p == q[0].price then [] else AtPrice(q, p) {
      BehindLevels(side.Opposite(), q, p);
    }
    if NoOverflow(side, limit, q) {
      forall p | Crosses(side, limit, p) ensures Total(AtPrice(Behind(q), p)) < U32_RANGE {
        assert Total(AtPrice(q, p)) < U32_RANGE;
      }
    }
    if Total(AtPrice(q, q[0].price)) < U32_RANGE && NoOverflow(side, limit, Behind(q)) {
      forall p | Crosses(side, limit, p) ensures Total(AtPrice(q, p)) < U32_RANGE {
        assert Total(AtPrice(Behind(q), p)) < U32_RANGE;
      }
    }
  }

  /** A yes from the dry run is a promise that matching keeps, wrap-around or not. */
  lemma FullFillIsSound(side: Side, limit: Price, quantity: Quantity, makers: seq<Order>)
    requires Sorted(side.Opposite(), makers) && CanFullyFill(side, limit, quantity, makers)
    ensures Match(side, limit, quantity, makers).done
    ensures FilledQuantity(Match(side, limit, quantity, makers).fills) == quantity
  {
    ShownIsSound(side, limit, makers);
    ExecutedQuantity(side, limit, quantity, makers);
  }

  /**
   When the dry run decides rightly. Its answer agrees with what matching would do unless the
   quantity lies above what the snapshot shows but within what really rests; so every quantity
   is decided rightly exactly when no level within the limit overflows or the snapshot already
   shows the largest quantity there is.
   */
  lemma FullFillIsExact(side: Side, limit: Price, quantity: Quantity, makers: seq<Order>)
    requires Sorted(side.Opposite(), makers)
    ensures (CanFullyFill(side, limit, quantity, makers) <==> Match(side, limit, quantity, makers).done)
      <==> (quantity <= Shown(side, limit, Depth(makers)) || Liquidity(side, limit, makers) < quantity)
    ensures (forall n: Quantity :: CanFullyFill(side, limit, n, makers) <==> Match(side, limit, n, makers).done)
      <==> (NoOverflow(side, limit, makers) || Shown(side, limit, Depth(makers)) >= U32_RANGE - 1)
  {
    var shown, deep := Shown(side, limit, Depth(makers)), Liquidity(side, limit, makers);
    ShownIsSound(side, limit, makers);
    ShownIsExact(side, limit, makers);
    if !CanMatch(side, limit, makers) {
      NothingBeyond(side, limit, makers);
    }
    forall n: Quantity
      ensures (CanFullyFill(side, limit, n, makers) <==> Match(side, limit, n, makers).done)
        <==> (n <= shown || deep < n)
    {
      ExecutedQuantity(side, limit, n, makers);
    }
    if shown < deep && shown < U32_RANGE - 1 {
      var n: Quantity := shown + 1;
      assert !(CanFullyFill(side, limit, n, makers) <==> Match(side, limit, n, makers).done);
    }
  }

  /** A spurious rejection: a level of 2^32 in all shows as empty. */
  lemma FullFillCanRefuseWrongly()
    ensures var a := NewOrder(1, Sell, GoodTillCancel, 100, 0xFFFF_FFFF);
            var b := NewOrder(2, Sell, GoodTillCancel, 100, 1);
      && Match(Buy, 100, 5, [a, b]).done
      && !CanFullyFill(Buy, 100, 5, [a, b])
  {
    var a := NewOrder(1, Sell, GoodTillCancel, 100, 0xFFFF_FFFF);
    var b := NewOrder(2, Sell, GoodTillCancel, 100, 1);
    assert [a, b][1..] == [b] && [b][1..] == [];
    assert AtPrice([b], 100) == [b] && AtPrice([a, b], 100) == [a, b];
    assert Total([b]) == 1 && Total([a, b]) == U32_RANGE;
    assert Depth([a, b]) == [LevelInfo(100, 0)] + Depth([a, b][2..]);
    assert [LevelInfo(100, 0)][1..] == [];
  }
}
