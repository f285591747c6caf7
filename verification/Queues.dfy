/**
 One side of the book, flattened: best price first, first-come first-served within a price.
 */
module Queues {
  import opened Types

  /** `p` has strict priority over `q` on `side`. */
  predicate Better(side: Side, p: Price, q: Price) {
    if side.Buy? then p > q else p < q
  }

  ghost predicate Sorted(side: Side, q: seq<Order>) {
    forall i, j :: 0 <= i < j < |q| ==> !Better(side, q[j].price, q[i].price)
  }

  ghost predicate Distinct(q: seq<Order>) {
    forall i, j :: 0 <= i < j < |q| ==> q[i].id != q[j].id
  }

  /** Join the queue behind every order with the same or a better price. */
  function Insert(side: Side, q: seq<Order>, o: Order): seq<Order> {
    if q == [] then [o]
    else if Better(side, o.price, q[0].price) then [o] + q
    else [q[0]] + Insert(side, q[1..], o)
  }

  function Remove(q: seq<Order>, id: OrderId): seq<Order> {
    if q == [] then []
    else if q[0].id == id then Remove(q[1..], id)
    else [q[0]] + Remove(q[1..], id)
  }

  function Find(q: seq<Order>, id: OrderId): Option<Order> {
    if q == [] then None else if q[0].id == id then Some(q[0]) else Find(q[1..], id)
  }

  predicate HasId(q: seq<Order>, id: OrderId) {
    Find(q, id).Some?
  }

  function AtPrice(q: seq<Order>, p: Price): seq<Order> {
    if q == [] then []
    else if q[0].price == p then [q[0]] + AtPrice(q[1..], p)
    else AtPrice(q[1..], p)
  }

  function Ids(q: seq<Order>): seq<OrderId> {
    seq(|q|, i requires 0 <= i < |q| => q[i].id)
  }

  function Total(q: seq<Order>): nat {
    if q == [] then 0 else q[0].remaining + Total(q[1..])
  }

  /** Take `t` off the order at the head, dropping it once it is filled. */
  function ReduceHead(q: seq<Order>, t: Quantity): seq<Order>
    requires q != [] && t <= q[0].remaining
  {
    if q[0].remaining == t then q[1..] else [q[0].(remaining := q[0].remaining - t)] + q[1..]
  }

  // --- membership ------------------------------------------------------------

  lemma {:induction false} InsertElements(side: Side, q: seq<Order>, o: Order)
    ensures |Insert(side, q, o)| == |q| + 1
    ensures forall x :: x in Insert(side, q, o) <==> x == o || x in q
  {
    if q == [] || Better(side, o.price, q[0].price) {
    } else {
      InsertElements(side, q[1..], o);
      assert q == [q[0]] + q[1..];
    }
  }

  lemma {:induction false} RemoveElements(q: seq<Order>, id: OrderId)
    ensures forall x :: x in Remove(q, id) <==> x in q && x.id != id
    ensures |Remove(q, id)| <= |q|
  {
    if q == [] {
    } else {
      RemoveElements(q[1..], id);
      assert q == [q[0]] + q[1..];
    }
  }

  lemma {:induction false} FindMeaning(q: seq<Order>, id: OrderId)
    ensures Find(q, id).Some? ==> Find(q, id).value in q && Find(q, id).value.id == id
    ensures forall x :: x in q && x.id == id ==> HasId(q, id)
    ensures Distinct(q) ==> forall x :: x in q && x.id == id ==> Find(q, id) == Some(x)
  {
    if q == [] {
    } else {
      FindMeaning(q[1..], id);
      assert q == [q[0]] + q[1..];
    }
  }

  // --- order and distinctness are kept -----------------------------------------

  lemma SortedCons(side: Side, x: Order, q: seq<Order>)
    ensures Sorted(side, [x] + q) <==> Sorted(side, q) && forall y :: y in q ==> !Better(side, y.price, x.price)
  {
    var r := [x] + q;
    assert forall i :: 0 <= i < |q| ==> q[i] == r[i + 1];
    if Sorted(side, r) {
      forall y | y in q ensures !Better(side, y.price, x.price) {
        var i :| 0 <= i < |q| && q[i] == y;
        assert r[i + 1] == y && r[0] == x;
      }
    }
  }

  lemma DistinctCons(x: Order, q: seq<Order>)
    ensures Distinct([x] + q) <==> Distinct(q) && forall y :: y in q ==> y.id != x.id
  {
    var r := [x] + q;
    assert forall i :: 0 <= i < |q| ==> q[i] == r[i + 1];
    if Distinct(r) {
      forall y | y in q ensures y.id != x.id {
        var i :| 0 <= i < |q| && q[i] == y;
        assert r[i + 1] == y && r[0] == x;
      }
    }
  }

  lemma {:induction false} InsertKeepsOrder(side: Side, q: seq<Order>, o: Order)
    requires Sorted(side, q)
    ensures Sorted(side, Insert(side, q, o))
  {
    if q == [] {
    } else if Better(side, o.price, q[0].price) {
      assert q == [q[0]] + q[1..];
      SortedCons(side, q[0], q[1..]);
      SortedCons(side, o, q);
    } else {
      assert q == [q[0]] + q[1..];
      SortedCons(side, q[0], q[1..]);
      InsertKeepsOrder(side, q[1..], o);
      InsertElements(side, q[1..], o);
      SortedCons(side, q[0], Insert(side, q[1..], o));
    }
  }

  lemma {:induction false} InsertKeepsDistinct(side: Side, q: seq<Order>, o: Order)
    requires Distinct(q) && !HasId(q, o.id)
    ensures Distinct(Insert(side, q, o))
  {
    FindMeaning(q, o.id);
    if q == [] {
    } else if Better(side, o.price, q[0].price) {
      DistinctCons(o, q);
    } else {
      assert q == [q[0]] + q[1..];
      DistinctCons(q[0], q[1..]);
      InsertKeepsDistinct(side, q[1..], o);
      InsertElements(side, q[1..], o);
      DistinctCons(q[0], Insert(side, q[1..], o));
    }
  }

  lemma {:induction false} RemoveKeeps(side: Side, q: seq<Order>, id: OrderId)
    ensures Sorted(side, q) ==> Sorted(side, Remove(q, id))
    ensures Distinct(q) ==> Distinct(Remove(q, id))
  {
    if q == [] {
    } else {
      assert q == [q[0]] + q[1..];
      RemoveKeeps(side, q[1..], id);
      RemoveElements(q[1..], id);
      SortedCons(side, q[0], q[1..]);
      DistinctCons(q[0], q[1..]);
      SortedCons(side, q[0], Remove(q[1..], id));
      DistinctCons(q[0], Remove(q[1..], id));
    }
  }

  lemma {:induction false} RemoveAbsent(q: seq<Order>, id: OrderId)
    requires !HasId(q, id)
    ensures Remove(q, id) == q
  {
    if q == [] {
    } else {
      RemoveAbsent(q[1..], id);
    }
  }

  /** An order that joined the queue leaves no trace once it is removed. */
  lemma {:induction false} RemoveInserted(side: Side, q: seq<Order>, o: Order)
    requires !HasId(q, o.id)
    ensures Remove(Insert(side, q, o), o.id) == q
  {
    RemoveAbsent(q, o.id);
    if q != [] && !Better(side, o.price, q[0].price) {
      RemoveInserted(side, q[1..], o);
    } else {
      assert ([o] + q)[1..] == q;
    }
  }

  /** An order better than the head goes to the front. */
  lemma InsertBest(side: Side, q: seq<Order>, o: Order)
    requires q == [] || Better(side, o.price, q[0].price)
    ensures Insert(side, q, o) == [o] + q
  {}

  // --- levels ------------------------------------------------------------------

  lemma {:induction false} AtPriceElements(q: seq<Order>, p: Price)
    ensures |AtPrice(q, p)| <= |q|
    ensures forall x :: x in AtPrice(q, p) <==> x in q && x.price == p
    ensures q != [] && q[0].price == p ==> AtPrice(q, p) != []
  {
    if q == [] {
    } else {
      AtPriceElements(q[1..], p);
      assert q == [q[0]] + q[1..];
    }
  }

  lemma {:induction false} NoneAtPrice(q: seq<Order>, p: Price)
    requires forall x :: x in q ==> x.price != p
    ensures AtPrice(q, p) == []
  {
    if q == [] {
    } else {
      NoneAtPrice(q[1..], p);
    }
  }

  /** A newcomer stands last in its own level's queue; no other level changes. */
  lemma {:induction false} AtPriceInsert(side: Side, q: seq<Order>, o: Order, p: Price)
    requires Sorted(side, q)
    ensures AtPrice(Insert(side, q, o), p) == AtPrice(q, p) + (if p == o.price then [o] else [])
  {
    if q == [] {
    } else if Better(side, o.price, q[0].price) {
      AtPriceCons(o, q, p);
      if p == o.price {
        NoneAtPrice(q, p);
      }
    } else {
      AtPriceInsert(side, q[1..], o, p);
      AtPriceCons(q[0], Insert(side, q[1..], o), p);
    }
  }

  function Retain(ids: seq<OrderId>, id: OrderId): seq<OrderId> {
    if ids == [] then []
    else if ids[0] == id then Retain(ids[1..], id)
    else [ids[0]] + Retain(ids[1..], id)
  }

  lemma AtPriceCons(x: Order, q: seq<Order>, p: Price)
    ensures AtPrice([x] + q, p) == if x.price == p then [x] + AtPrice(q, p) else AtPrice(q, p)
    ensures Ids([x] + q) == [x.id] + Ids(q)
  {
    assert ([x] + q)[1..] == q;
  }

  lemma RetainCons(x: OrderId, ids: seq<OrderId>, id: OrderId)
    ensures Retain([x] + ids, id) == if x == id then Retain(ids, id) else [x] + Retain(ids, id)
  {
    assert ([x] + ids)[1..] == ids;
  }

  lemma {:induction false} AtPriceRemove(q: seq<Order>, id: OrderId, p: Price)
    ensures Ids(AtPrice(Remove(q, id), p)) == Retain(Ids(AtPrice(q, p)), id)
  {
    if q == [] {
    } else {
      var x, a, r := q[0], AtPrice(q[1..], p), Remove(q[1..], id);
      AtPriceRemove(q[1..], id, p);
      if x.price == p {
        AtPriceCons(x, a, p);
        RetainCons(x.id, Ids(a), id);
      }
      if x.id != id {
        AtPriceCons(x, r, p);
        AtPriceCons(x, AtPrice(r, p), p);
      }
    }
  }

  /** The head's level is a prefix, and what follows it holds the other levels. */
  lemma {:induction false} HeadLevel(side: Side, q: seq<Order>)
    requires q != [] && Sorted(side, q)
    ensures 1 <= |AtPrice(q, q[0].price)| <= |q|
    ensures AtPrice(q, q[0].price) == q[..|AtPrice(q, q[0].price)|]
    ensures AtPrice(q[|AtPrice(q, q[0].price)|..], q[0].price) == []
    ensures forall p :: p != q[0].price ==> AtPrice(q[|AtPrice(q, q[0].price)|..], p) == AtPrice(q, p)
  {
    var x, p0, t := q[0], q[0].price, q[1..];
    assert q == [x] + t;
    SortedCons(side, x, t);
    var n := |AtPrice(t, p0)|;
    if t != [] && t[0].price == p0 {
      HeadLevel(side, t);
    } else {
      forall y | y in t ensures y.price != p0 {
        SortedHead(side, t, y);
      }
      NoneAtPrice(t, p0);
    }
    assert q[n + 1..] == t[n..];
    assert q[..n + 1] == [x] + t[..n];
  }

  lemma SortedHead(side: Side, q: seq<Order>, y: Order)
    requires Sorted(side, q) && y in q
    ensures !Better(side, y.price, q[0].price)
  {
    var i :| 0 <= i < |q| && q[i] == y;
    if i > 0 {
      assert !Better(side, q[i].price, q[0].price);
    }
  }
}
