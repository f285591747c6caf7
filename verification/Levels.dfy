/** How the concrete maps of a book represent its flat queues. */
module Levels {
  import opened Types
  import opened Queues
  import opened Matching
  import opened BookSpec
  import opened BookInvariant

  type LevelMap = map<Price, seq<OrderId>>

  function LevelAt(levels: LevelMap, p: Price): seq<OrderId> {
    if p in levels then levels[p] else []
  }

  /** At each price the map holds the ids that queue there, in queue order. */
  ghost predicate IsLevels(levels: LevelMap, q: seq<Order>) {
    forall p :: LevelAt(levels, p) == Ids(AtPrice(q, p))
  }

  ghost predicate NoEmptyLevel(levels: LevelMap) {
    forall p :: p in levels ==> levels[p] != []
  }

  /** The order map holds exactly the orders of `q` on `side`. */
  ghost predicate IndexesSide(orders: map<OrderId, Order>, side: Side, q: seq<Order>) {
    && (forall x :: x in q ==> x.id in orders && orders[x.id] == x)
    && (forall id :: id in orders && orders[id].side == side ==> orders[id].id == id && orders[id] in q)
  }

  ghost predicate Indexes(orders: map<OrderId, Order>, s: Sides) {
    IndexesSide(orders, Buy, s.bids) && IndexesSide(orders, Sell, s.asks)
  }

  // --- the ordered-map queries ----------------------------------------------------------

  predicate IsBest(side: Side, s: set<Price>, m: Price) {
    m in s && forall x :: x in s ==> !Better(side, x, m)
  }

  lemma SomeElement(s: set<Price>)
    ensures s != {} ==> exists x :: x in s
  {
    if forall x :: x !in s {
      assert s == {};
    }
  }

  lemma {:induction false} BestExists(side: Side, s: set<Price>) returns (m: Price)
    requires s != {}
    ensures IsBest(side, s, m)
  {
    SomeElement(s);
    m :| m in s;
    var rest := s - {m};
    assert forall x :: x in s ==> x == m || x in rest;
    if rest != {} {
      var n := BestExists(side, rest);
      m := if Better(side, m, n) then m else n;
    }
  }

  lemma BestIsUnique(side: Side, s: set<Price>)
    requires s != {}
    ensures exists m :: IsBest(side, s, m)
    ensures forall m, n :: IsBest(side, s, m) && IsBest(side, s, n) ==> m == n
  {
    var m := BestExists(side, s);
    forall m, n | IsBest(side, s, m) && IsBest(side, s, n) ensures m == n {
      assert !Better(side, m, n) && !Better(side, n, m);
    }
  }

  /** The key that comes first on `side`: the largest bid or the smallest ask. */
  function BestKey(side: Side, s: set<Price>): (m: Price)
    requires s != {}
    ensures IsBest(side, s, m)
  {
    BestIsUnique(side, s);
    var m :| m in s && IsBest(side, s, m);
    m
  }

  lemma LevelKeys(levels: LevelMap, q: seq<Order>)
    requires IsLevels(levels, q) && NoEmptyLevel(levels)
    ensures forall p :: p in levels <==> exists x :: x in q && x.price == p
  {
    forall p ensures p in levels <==> exists x :: x in q && x.price == p {
      AtPriceElements(q, p);
      assert LevelAt(levels, p) == Ids(AtPrice(q, p));
      if p in levels {
        assert AtPrice(q, p)[0] in AtPrice(q, p);
      }
    }
  }

  /** The first key is the price of the queue's head. */
  lemma BestKeyIsHead(side: Side, levels: LevelMap, q: seq<Order>)
    requires IsLevels(levels, q) && NoEmptyLevel(levels) && Sorted(side, q)
    ensures levels == map[] <==> q == []
    ensures q != [] ==> BestKey(side, levels.Keys) == q[0].price
  {
    LevelKeys(levels, q);
    if q != [] {
      assert q[0] in q && q[0].price in levels;
      var p := BestKey(side, levels.Keys);
      var x :| x in q && x.price == p;
      SortedHead(side, q, x);
    } else {
      assert forall p :: p !in levels;
      assert levels == map[];
    }
  }

  /** The key that comes last is the price of the queue's last order. */
  lemma WorstKeyIsLast(side: Side, levels: LevelMap, q: seq<Order>)
    requires IsLevels(levels, q) && NoEmptyLevel(levels) && Sorted(side, q)
    ensures levels == map[] <==> q == []
    ensures q != [] ==> BestKey(side.Opposite(), levels.Keys) == q[|q| - 1].price
  {
    BestKeyIsHead(side, levels, q);
    if q != [] {
      LevelKeys(levels, q);
      var last := q[|q| - 1];
      assert last in q && last.price in levels;
      var p := BestKey(side.Opposite(), levels.Keys);
      var x :| x in q && x.price == p;
      var i :| 0 <= i < |q| && q[i] == x;
      assert i < |q| - 1 ==> !Better(side, last.price, q[i].price);
    }
  }

  // --- joining, leaving and filling ---------------------------------------------------------

  lemma JoinLevel(side: Side, levels: LevelMap, q: seq<Order>, o: Order)
    requires IsLevels(levels, q) && Sorted(side, q)
    ensures IsLevels(levels[o.price := LevelAt(levels, o.price) + [o.id]], Insert(side, q, o))
  {
    var levels' := levels[o.price := LevelAt(levels, o.price) + [o.id]];
    forall p ensures LevelAt(levels', p) == Ids(AtPrice(Insert(side, q, o), p)) {
      AtPriceInsert(side, q, o, p);
      assert LevelAt(levels, p) == Ids(AtPrice(q, p));
    }
  }

  lemma JoinIndex(orders: map<OrderId, Order>, q: seq<Order>, other: seq<Order>, o: Order)
    requires IndexesSide(orders, o.side, q) && IndexesSide(orders, o.side.Opposite(), other)
    requires o.id !in orders
    ensures IndexesSide(orders[o.id := o], o.side, Insert(o.side, q, o))
    ensures IndexesSide(orders[o.id := o], o.side.Opposite(), other)
  {
    InsertElements(o.side, q, o);
  }

  lemma LeaveElsewhere(q: seq<Order>, o: Order, p: Price)
    requires Distinct(q) && o in q && p != o.price
    ensures Ids(AtPrice(Remove(q, o.id), p)) == Ids(AtPrice(q, p))
  {
    AtPriceRemove(q, o.id, p);
    AtPriceElements(q, p);
    var a := AtPrice(q, p);
    forall i | 0 <= i < |a| ensures a[i].id != o.id {
      assert a[i] in a;
    }
    RetainAbsent(Ids(a), o.id);
  }

  lemma LeaveLevel(levels: LevelMap, q: seq<Order>, o: Order, levels': LevelMap)
    requires IsLevels(levels, q) && NoEmptyLevel(levels) && Distinct(q) && o in q
    requires levels' ==
      var ids := Retain(LevelAt(levels, o.price), o.id);
      if ids == [] then levels - {o.price} else levels[o.price := ids]
    ensures IsLevels(levels', Remove(q, o.id)) && NoEmptyLevel(levels')
  {
    forall p ensures LevelAt(levels', p) == Ids(AtPrice(Remove(q, o.id), p)) {
      assert LevelAt(levels, p) == Ids(AtPrice(q, p));
      if p == o.price {
        AtPriceRemove(q, o.id, p);
        assert LevelAt(levels', p) == Retain(LevelAt(levels, p), o.id);
      } else {
        LeaveElsewhere(q, o, p);
        assert LevelAt(levels', p) == LevelAt(levels, p);
      }
    }
  }

  lemma {:induction false} RetainAbsent(ids: seq<OrderId>, id: OrderId)
    requires id !in ids
    ensures Retain(ids, id) == ids
  {
    if ids == [] {
    } else {
      RetainAbsent(ids[1..], id);
    }
  }

  lemma LeaveIndex(orders: map<OrderId, Order>, q: seq<Order>, other: seq<Order>, o: Order)
    requires IndexesSide(orders, o.side, q) && IndexesSide(orders, o.side.Opposite(), other)
    requires OnSide(o.side.Opposite(), other) && o in q
    ensures IndexesSide(orders - {o.id}, o.side, Remove(q, o.id))
    ensures IndexesSide(orders - {o.id}, o.side.Opposite(), other)
  {
    RemoveElements(q, o.id);
  }

  lemma FillLevel(levels: LevelMap, q: seq<Order>, t: Quantity)
    requires IsLevels(levels, q) && q != [] && t <= q[0].remaining
    ensures q[0].price in levels && levels[q[0].price] != [] && levels[q[0].price][0] == q[0].id
    ensures IsLevels(
              if q[0].remaining == t then levels[q[0].price := levels[q[0].price][1..]] else levels,
              ReduceHead(q, t))
  {
    var m, tail := q[0], q[1..];
    var m' := m.(remaining := m.remaining - t);
    assert q == [m] + tail;
    assert LevelAt(levels, m.price) == Ids(AtPrice(q, m.price));
    AtPriceCons(m, tail, m.price);
    AtPriceCons(m, AtPrice(tail, m.price), m.price);
    forall p
      ensures Ids(AtPrice(q, p)) == if p == m.price then [m.id] + Ids(AtPrice(tail, p)) else Ids(AtPrice(tail, p))
    {
      AtPriceCons(m, tail, p);
      AtPriceCons(m, AtPrice(tail, p), p);
    }
    forall p ensures Ids(AtPrice([m'] + tail, p)) == Ids(AtPrice(q, p)) {
      AtPriceCons(m', tail, p);
      AtPriceCons(m', AtPrice(tail, p), p);
    }
    assert forall p :: LevelAt(levels, p) == Ids(AtPrice(q, p));
  }

  /** The order map once the head of `q` gave `t`. */
  ghost function FilledIndex(orders: map<OrderId, Order>, m: Order, t: Quantity): map<OrderId, Order>
    requires t <= m.remaining
  {
    if m.remaining == t then orders - {m.id} else orders[m.id := m.(remaining := m.remaining - t)]
  }

  lemma FillIndex(orders: map<OrderId, Order>, side: Side, q: seq<Order>, other: seq<Order>, t: Quantity)
    requires IndexesSide(orders, side, q) && IndexesSide(orders, side.Opposite(), other)
    requires OnSide(side, q) && OnSide(side.Opposite(), other) && Distinct(q)
    requires q != [] && t <= q[0].remaining
    ensures IndexesSide(FilledIndex(orders, q[0], t), side, ReduceHead(q, t))
    ensures IndexesSide(FilledIndex(orders, q[0], t), side.Opposite(), other)
  {
    var m, tail := q[0], q[1..];
    assert q == [m] + tail;
    assert m in q && m.side == side;
    DistinctCons(m, tail);
    assert forall x :: x in q <==> x == m || x in tail;
    var after := FilledIndex(orders, m, t);
    assert forall x :: x in tail ==> x.id in after && after[x.id] == x;
    assert forall x :: x in other ==> x.id != m.id;
  }

  lemma FillFormed(s: Sides, side: Side, t: Quantity)
    requires Formed(s) && s.Of(side) != [] && t <= s.Of(side)[0].remaining
    ensures Formed(s.With(side, ReduceHead(s.Of(side), t)))
  {
    ReduceHeadKeeps(side, s.Of(side), t);
    ReduceHeadStems(s.Of(side), t);
  }

  /** Dropping an empty level does not change what the map represents. */
  lemma DropEmptyLevel(levels: LevelMap, q: seq<Order>, p: Price)
    requires IsLevels(levels, q) && LevelAt(levels, p) == []
    ensures IsLevels(levels - {p}, q)
  {
    forall k ensures LevelAt(levels - {p}, k) == LevelAt(levels, k) {}
    assert forall k :: LevelAt(levels, k) == Ids(AtPrice(q, k));
  }

  // --- a trade between the two heads ---------------------------------------------------------

  ghost function FrontQuantity(s: Sides): Quantity
    requires s.bids != [] && s.asks != []
  {
    Min(s.bids[0].remaining, s.asks[0].remaining)
  }

  ghost function AfterFront(s: Sides): Sides
    requires s.bids != [] && s.asks != []
  {
    Sides(ReduceHead(s.bids, FrontQuantity(s)), ReduceHead(s.asks, FrontQuantity(s)))
  }

  ghost function FrontTrade(s: Sides, taker: OrderId, takerSide: Side): Fact
    requires s.bids != [] && s.asks != []
  {
    var maker := if takerSide.Buy? then s.asks[0] else s.bids[0];
    Fact.Traded(maker.price, FrontQuantity(s), maker.id, taker, takerSide.Opposite())
  }

  ghost function PoppedIf(levels: LevelMap, p: Price, filled: bool): LevelMap {
    if filled && p in levels && levels[p] != [] then levels[p := levels[p][1..]] else levels
  }

  /** The fronts of the best levels are the heads of the queues. */
  lemma Fronts(orders: map<OrderId, Order>, bids: LevelMap, asks: LevelMap, s: Sides)
    requires Formed(s) && Indexes(orders, s) && s.bids != [] && s.asks != []
    requires IsLevels(bids, s.bids) && IsLevels(asks, s.asks)
    ensures var bid, ask := s.bids[0], s.asks[0];
      && bid.price in bids && bids[bid.price] != [] && bids[bid.price][0] == bid.id
      && ask.price in asks && asks[ask.price] != [] && asks[ask.price][0] == ask.id
      && bid.id in orders && orders[bid.id] == bid
      && ask.id in orders && orders[ask.id] == ask
      && bid.id != ask.id
  {
    FillLevel(bids, s.bids, 0);
    FillLevel(asks, s.asks, 0);
    assert s.bids[0] in s.bids && s.asks[0] in s.asks;
  }

  /** Filling both orders first and dropping the filled ones later comes to the same map. */
  lemma FillTwice(orders: map<OrderId, Order>, a: Order, b: Order, t: Quantity)
    requires a.id != b.id && t <= a.remaining && t <= b.remaining
    ensures var both := orders[a.id := a.(remaining := a.remaining - t)][b.id := b.(remaining := b.remaining - t)];
      var left := if a.remaining == t then both - {a.id} else both;
      (if b.remaining == t then left - {b.id} else left) == FilledIndex(FilledIndex(orders, a, t), b, t)
  {}

  /** The maps follow a trade between the two heads. */
  lemma {:induction false} FrontFilled(orders: map<OrderId, Order>, bids: LevelMap, asks: LevelMap, s: Sides)
    requires Formed(s) && Indexes(orders, s) && s.bids != [] && s.asks != []
    requires IsLevels(bids, s.bids) && IsLevels(asks, s.asks)
    ensures var bid, ask, t := s.bids[0], s.asks[0], FrontQuantity(s);
      && Indexes(FilledIndex(FilledIndex(orders, bid, t), ask, t), AfterFront(s))
      && Formed(AfterFront(s))
      && IsLevels(PoppedIf(bids, bid.price, bid.remaining == t), AfterFront(s).bids)
      && IsLevels(PoppedIf(asks, ask.price, ask.remaining == t), AfterFront(s).asks)
  {
    var bid, ask, t := s.bids[0], s.asks[0], FrontQuantity(s);
    FillIndex(orders, Buy, s.bids, s.asks, t);
    FillFormed(s, Buy, t);
    var s' := s.With(Buy, ReduceHead(s.bids, t));
    FillIndex(FilledIndex(orders, bid, t), Sell, s'.asks, s'.bids, t);
    FillFormed(s', Sell, t);
    FillLevel(bids, s.bids, t);
    FillLevel(asks, s.asks, t);
  }

  lemma FindIndexed(orders: map<OrderId, Order>, s: Sides, id: OrderId)
    requires Indexes(orders, s) && Formed(s)
    ensures id in orders <==> s.Has(id)
    ensures id in orders ==>
      s.Find(id) == Some(orders[id]) && orders[id].id == id && orders[id] in s.Of(orders[id].side)
  {
    HasMeaning(s, id);
    if id in orders {
      var o := orders[id];
      FindMeaning(s.Of(o.side), id);
    }
  }

  // --- what the maps say ------------------------------------------------------------------------

  lemma {:induction false} AtPriceDistinct(q: seq<Order>, p: Price)
    requires Distinct(q)
    ensures Distinct(AtPrice(q, p))
  {
    if q == [] {
    } else {
      assert q == [q[0]] + q[1..];
      DistinctCons(q[0], q[1..]);
      AtPriceDistinct(q[1..], p);
      AtPriceElements(q[1..], p);
      DistinctCons(q[0], AtPrice(q[1..], p));
    }
  }

  /** A queued id is live, on its own side, at its own price, and queued there once. */
  lemma QueuedIsLive(orders: map<OrderId, Order>, side: Side, levels: LevelMap, q: seq<Order>, p: Price, k: nat)
    requires IndexesSide(orders, side, q) && OnSide(side, q) && Distinct(q) && IsLevels(levels, q)
    requires p in levels && k < |levels[p]|
    ensures levels[p][k] in orders
    ensures orders[levels[p][k]].side == side && orders[levels[p][k]].price == p
    ensures forall j :: 0 <= j < |levels[p]| && j != k ==> levels[p][j] != levels[p][k]
  {
    assert LevelAt(levels, p) == Ids(AtPrice(q, p));
    AtPriceElements(q, p);
    AtPriceDistinct(q, p);
    assert AtPrice(q, p)[k] in AtPrice(q, p);
  }

  /** A live order is queued at its price. */
  lemma LiveIsQueued(orders: map<OrderId, Order>, side: Side, levels: LevelMap, q: seq<Order>, id: OrderId)
    requires IndexesSide(orders, side, q) && IsLevels(levels, q)
    requires id in orders && orders[id].side == side
    ensures orders[id].price in levels && id in levels[orders[id].price]
  {
    var o := orders[id];
    assert LevelAt(levels, o.price) == Ids(AtPrice(q, o.price));
    AtPriceElements(q, o.price);
    var a := AtPrice(q, o.price);
    var k :| 0 <= k < |a| && a[k] == o;
    assert Ids(a)[k] == id;
  }

  // --- the representation is unique ------------------------------------------------------------

  /** A side has one representation only, so equal books are equal down to their maps. */
  lemma LevelsUnique(a: LevelMap, b: LevelMap, q: seq<Order>)
    requires IsLevels(a, q) && NoEmptyLevel(a)
    requires IsLevels(b, q) && NoEmptyLevel(b)
    ensures a == b
  {
    forall p ensures p in a <==> p in b
             ensures p in a ==> a[p] == b[p]
    {
      assert LevelAt(a, p) == Ids(AtPrice(q, p)) == LevelAt(b, p);
    }
  }

  lemma IndexUnique(a: map<OrderId, Order>, b: map<OrderId, Order>, s: Sides)
    requires Indexes(a, s) && Indexes(b, s)
    ensures a == b
  {}

  // --- walking the levels -----------------------------------------------------------------------

  /** After the first level of the map comes what lies behind the head's level of the queue. */
  lemma {:induction false} NextLevel(side: Side, levels: LevelMap, q: seq<Order>)
    requires IsLevels(levels, q) && NoEmptyLevel(levels) && Sorted(side, q) && q != []
    ensures q[0].price in levels && levels[q[0].price] == Ids(AtPrice(q, q[0].price))
    ensures IsLevels(levels - {q[0].price}, Behind(q)) && NoEmptyLevel(levels - {q[0].price})
    ensures Sorted(side, Behind(q))
    ensures forall x :: x in AtPrice(q, q[0].price) || x in Behind(q) ==> x in q
  {
    hide Sorted, Behind, AtPrice;
    var p0 := q[0].price;
    AtPriceElements(q, p0);
    BehindKeeps(side, q);
    assert LevelAt(levels, p0) == Ids(AtPrice(q, p0));
    forall p ensures LevelAt(levels - {p0}, p) == Ids(AtPrice(Behind(q), p)) {
      BehindLevels(side, q, p);
      assert LevelAt(levels, p) == Ids(AtPrice(q, p));
    }
  }
}
