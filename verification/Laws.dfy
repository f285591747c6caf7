/** Laws that relate several commands. */
module Laws {
  import opened Types
  import opened Queues
  import opened Matching
  import opened BookSpec
  import opened BookInvariant
  import opened Levels
  import opened Taking

  // --- adding and canceling -----------------------------------------------------------------

  /** An order that rests without trading is undone by a cancel. */
  lemma CancelUndoesPlace(s: Sides, o: Order)
    requires WellFormed(s) && !s.Has(o.id) && (o.kind == GoodTillCancel || o.kind == PostOnly)
    requires !CanMatch(o.side, o.price, s.Of(o.side.Opposite()))
    ensures Place(s, o).reject == None
    ensures Cancel(Place(s, o).sides, o.id).sides == s
  {
    HasMeaning(s, o.id);
    EndStays(s, o);
    EndFound(s, o);
    RemoveInserted(o.side, s.Of(o.side), o);
  }

  /** The maps of a book between commands are determined by its queues, empty levels included. */
  lemma SameQueuesSameMaps(
      s: Sides,
      orders: map<OrderId, Order>, bids: LevelMap, asks: LevelMap,
      orders': map<OrderId, Order>, bids': LevelMap, asks': LevelMap)
    requires Indexes(orders, s) && IsLevels(bids, s.bids) && IsLevels(asks, s.asks)
    requires Indexes(orders', s) && IsLevels(bids', s.bids) && IsLevels(asks', s.asks)
    requires NoEmptyLevel(bids) && NoEmptyLevel(asks) && NoEmptyLevel(bids') && NoEmptyLevel(asks')
    ensures orders == orders' && bids == bids' && asks == asks'
  {
    IndexUnique(orders, orders', s);
    LevelsUnique(bids, bids', s.bids);
    LevelsUnique(asks, asks', s.asks);
  }

  // --- canceling many -----------------------------------------------------------------------

  /** The orders of `q` that are not listed, in the order they had. */
  function Without(q: seq<Order>, ids: set<OrderId>): seq<Order> {
    if q == [] then []
    else if q[0].id in ids then Without(q[1..], ids)
    else [q[0]] + Without(q[1..], ids)
  }

  lemma {:induction false} WithoutMore(q: seq<Order>, ids: set<OrderId>, id: OrderId)
    ensures Remove(Without(q, ids), id) == Without(q, ids + {id})
    ensures HasId(Without(q, ids), id) <==> id !in ids && HasId(q, id)
  {
    if q == [] {
    } else {
      WithoutMore(q[1..], ids, id);
      if q[0].id !in ids {
        assert ([q[0]] + Without(q[1..], ids))[1..] == Without(q[1..], ids);
      }
    }
  }

  lemma {:induction false} WithoutNone(q: seq<Order>)
    ensures Without(q, {}) == q
  {
    if q == [] {
    } else {
      WithoutNone(q[1..]);
    }
  }

  function Listed(ids: seq<OrderId>): set<OrderId> { set id | id in ids }

  function LiveAmong(s: Sides, ids: seq<OrderId>): set<OrderId> { set id | id in ids && s.Has(id) }

  lemma CancelIsWithout(s: Sides, gone: set<OrderId>, id: OrderId)
    requires WellFormed(s)
    ensures var t := Sides(Without(s.bids, gone), Without(s.asks, gone));
      && (WellFormed(t) ==> Cancel(t, id).sides == Sides(Without(s.bids, gone + {id}), Without(s.asks, gone + {id})))
      && (t.Has(id) <==> id !in gone && s.Has(id))
  {
    var t := Sides(Without(s.bids, gone), Without(s.asks, gone));
    WithoutMore(s.bids, gone, id);
    WithoutMore(s.asks, gone, id);
    HasMeaning(t, id);
    FindMeaning(t.bids, id);
    FindMeaning(t.asks, id);
    if !HasId(t.bids, id) {
      RemoveAbsent(t.bids, id);
    }
    if !HasId(t.asks, id) {
      RemoveAbsent(t.asks, id);
    }
    if WellFormed(t) && t.Has(id) {
      var o := t.Find(id).value;
      assert o.side.Buy? ==> !HasId(t.asks, id);
      assert o.side.Sell? ==> !HasId(t.bids, id);
    }
  }

  /** The survivors of a batch, and whether an order is still among them. */
  lemma {:induction false} BatchSides(s: Sides, ids: seq<OrderId>)
    requires WellFormed(s)
    ensures CancelAll(s, ids).sides == Sides(Without(s.bids, Listed(ids)), Without(s.asks, Listed(ids)))
  {
    hide WellFormed, Cancel, Without;
    if ids == [] {
      WithoutNone(s.bids);
      WithoutNone(s.asks);
      assert Listed(ids) == {};
    } else {
      var init, id := ids[..|ids| - 1], ids[|ids| - 1];
      assert ids == init + [id];
      BatchSides(s, init);
      CancelAllKeeps(s, init);
      CancelIsWithout(s, Listed(init), id);
      assert Listed(ids) == Listed(init) + {id};
    }
  }

  lemma LiveAmongStep(s: Sides, init: seq<OrderId>, id: OrderId)
    ensures |LiveAmong(s, init + [id])|
         == |LiveAmong(s, init)| + if s.Has(id) && id !in Listed(init) then 1 else 0
  {
    if s.Has(id) && id !in Listed(init) {
      assert LiveAmong(s, init + [id]) == LiveAmong(s, init) + {id};
    } else {
      assert LiveAmong(s, init + [id]) == LiveAmong(s, init);
    }
  }

  /**
   A batch cancel takes out exactly the listed orders and leaves the others in their order; it
   counts each listed live order once, and everything else as not found.
   */
  lemma {:induction false} BatchCancel(s: Sides, ids: seq<OrderId>)
    requires WellFormed(s)
    ensures var c := CancelAll(s, ids);
      && c.sides == Sides(Without(s.bids, Listed(ids)), Without(s.asks, Listed(ids)))
      && c.count == |LiveAmong(s, ids)|
      && c.count + c.notFound == |ids|
  {
    hide WellFormed, Cancel, Without, Listed, LiveAmong;
    BatchSides(s, ids);
    if ids == [] {
      NoneLive(s);
    } else {
      var init, id := ids[..|ids| - 1], ids[|ids| - 1];
      assert ids == init + [id];
      BatchCancel(s, init);
      CancelIsWithout(s, Listed(init), id);
      CancelCounts(CancelAll(s, init).sides, id);
      LiveAmongStep(s, init, id);
    }
  }

  lemma NoneLive(s: Sides)
    ensures LiveAmong(s, []) == {}
  {}

  /** So the order of the list does not matter. */
  lemma BatchOrderIrrelevant(s: Sides, ids: seq<OrderId>, ids': seq<OrderId>)
    requires WellFormed(s) && multiset(ids) == multiset(ids')
    ensures var c, c' := CancelAll(s, ids), CancelAll(s, ids');
      c.sides == c'.sides && c.count == c'.count && c.notFound == c'.notFound
  {
    BatchCancel(s, ids);
    BatchCancel(s, ids');
    forall id ensures id in ids <==> id in ids' {
      assert id in ids <==> id in multiset(ids);
      assert id in ids' <==> id in multiset(ids');
    }
    assert Listed(ids) == Listed(ids');
    assert LiveAmong(s, ids) == LiveAmong(s, ids');
    assert |ids| == |multiset(ids)| && |ids'| == |multiset(ids')|;
  }

  // --- modifying ------------------------------------------------------------------------------

  /** An order that rests after it was placed is the last of its level, behind those that were there. */
  lemma RestsLast(s: Sides, o: Order)
    requires WellFormed(s) && Place(s, o).reject == None && Place(s, o).sides.Has(o.id)
    ensures var p := Place(s, o);
      AtPrice(p.sides.Of(o.side), o.price) == AtPrice(s.Of(o.side), o.price) + [p.sides.Find(o.id).value]
  {
    var makers := s.Of(o.side.Opposite());
    var e := Admit(s, o).value;
    AdmitMeaning(s, o);
    EndStays(s, e);
    EndLive(s, e);
    if ImmediateOrCancel(o.kind) {
      if End(e, makers).live {
        EndFormed(s, e);
        var _ := EndLeaves(s, e);
        CancelKeeps(SidesAt(s, e, End(e, makers)), e.id);
      }
      assert false;
    }
    EndFound(s, e);
    WellFormedBySide(s, o.side);
    AtPriceInsert(o.side, s.Of(o.side), e.(remaining := End(e, makers).left), o.price);
  }

  /**
   Modifying a live order on its own side. It fails only when a post-only order would now take
   liquidity, and then the order is gone; a good-till-cancel order never fails; and what rests
   of a modified order is last in its level.
   */
  lemma ModifyLive(s: Sides, m: OrderModify)
    requires WellFormed(s) && OnlyRestingKinds(s)
    requires s.Has(m.id) && s.Find(m.id).value.side == m.side
    ensures var kind, c, r := s.Find(m.id).value.kind, Cancel(s, m.id).sides, Modify(s, m);
      && (r.reject.Some? <==> kind == PostOnly && CanMatch(m.side, m.price, c.Of(m.side.Opposite())))
      && (r.reject.Some? ==>
            && r.reject == Some(PlaceRejected(PostOnlyWouldTakeLiquidity))
            && r.sides == c && !r.sides.Has(m.id))
      && (r.reject == None && r.sides.Has(m.id) ==>
            AtPrice(r.sides.Of(m.side), m.price) == AtPrice(c.Of(m.side), m.price) + [r.sides.Find(m.id).value])
  {
    HasMeaning(s, m.id);
    CancelKeeps(s, m.id);
    var kind, c := s.Find(m.id).value.kind, Cancel(s, m.id).sides;
    var o := m.Modify(kind);
    if Place(c, o).reject == None && Place(c, o).sides.Has(m.id) {
      RestsLast(c, o);
    }
  }

  function Untopped(log: seq<Fact>): seq<Fact> {
    if log == [] then []
    else Untopped(log[..|log| - 1]) + if log[|log| - 1].TopOfBook? then [] else [log[|log| - 1]]
  }

  lemma {:induction false} UntoppedAppend(a: seq<Fact>, b: seq<Fact>)
    ensures Untopped(a + b) == Untopped(a) + Untopped(b)
  {
    if b == [] {
      assert a + b == a;
    } else {
      UntoppedAppend(a, b[..|b| - 1]);
      assert (a + b)[..|a + b| - 1] == a + b[..|b| - 1];
    }
  }

  lemma TopUntopped(before: Sides, after: Sides)
    ensures Untopped(TopFacts(before, after)) == []
  {
    var t := TopFacts(before, after);
    assert t != [] ==> t[..|t| - 1] == [];
  }

  /** A modify is a cancel followed by a placement of the same type, but for the reports in between. */
  lemma ModifyIsCancelThenPlace(instrument: InstrumentId, b: Book, m: OrderModify)
    requires WellFormed(b.sides) && b.sides.Has(m.id) && b.sides.Find(m.id).value.side == m.side
    ensures var kind := b.sides.Find(m.id).value.kind;
      var one := Execute(instrument, b, ModifyOrder(m)).0;
      var mid := Execute(instrument, b, CancelOrder(m.id)).0;
      var two := Execute(instrument, mid, PlaceOrder(NewOrder(m.id, m.side, kind, m.price, m.quantity))).0;
      one.sides == two.sides && Untopped(one.log) == Untopped(two.log)
  {
    hide Place, Cancel, TopFacts, Untopped;
    var c := Cancel(b.sides, m.id);
    var p := Place(c.sides, m.Modify(b.sides.Find(m.id).value.kind));
    TopUntopped(b.sides, p.sides);
    TopUntopped(b.sides, c.sides);
    TopUntopped(c.sides, p.sides);
    UntoppedMiddle(b.log, c.facts, TopFacts(b.sides, c.sides), p.facts,
                   TopFacts(c.sides, p.sides), TopFacts(b.sides, p.sides));
  }

  lemma UntoppedMiddle(log: seq<Fact>, c: seq<Fact>, t: seq<Fact>, p: seq<Fact>, u: seq<Fact>, v: seq<Fact>)
    requires Untopped(t) == Untopped(u) == Untopped(v) == []
    ensures Untopped(log + (c + p) + v) == Untopped(log + c + t + p + u)
  {
    hide Untopped;
    UntoppedSkip(log + (c + p), v);
    UntoppedSkip(log + c + t + p, u);
    UntoppedSkip(log + c, t);
    UntoppedAppend(log + c + t, p);
    UntoppedAppend(log + c, p);
    assert log + (c + p) == log + c + p;
  }

  lemma UntoppedSkip(a: seq<Fact>, t: seq<Fact>)
    requires Untopped(t) == []
    ensures Untopped(a + t) == Untopped(a)
  {
    UntoppedAppend(a, t);
  }
}
