/** Quantity is conserved: it comes in accepted and goes out traded, canceled or resting. */
module Conservation {
  import opened Types
  import opened Queues
  import opened Matching
  import opened BookSpec
  import opened BookInvariant
  import opened Levels
  import opened EventSourcing

  function AcceptedTotal(log: seq<Fact>): nat {
    if log == [] then 0
    else
      var f := log[|log| - 1];
      AcceptedTotal(log[..|log| - 1]) + if f.Accepted? then f.quantity else 0
  }

  function TradedTotal(log: seq<Fact>): nat {
    if log == [] then 0
    else
      var f := log[|log| - 1];
      TradedTotal(log[..|log| - 1]) + if f.Traded? then f.quantity else 0
  }

  function CanceledTotal(log: seq<Fact>): nat {
    if log == [] then 0
    else
      var f := log[|log| - 1];
      CanceledTotal(log[..|log| - 1]) + if f.Canceled? then f.remaining else 0
  }

  function RestingTotal(s: Sides): nat { Total(s.bids) + Total(s.asks) }

  lemma TotalCons(x: Order, q: seq<Order>)
    ensures Total([x] + q) == x.remaining + Total(q)
  {
    assert ([x] + q)[1..] == q;
  }

  lemma {:induction false} TotalInsert(side: Side, q: seq<Order>, o: Order)
    ensures Total(Insert(side, q, o)) == Total(q) + o.remaining
  {
    if q == [] || Better(side, o.price, q[0].price) {
      TotalCons(o, q);
    } else {
      TotalInsert(side, q[1..], o);
      TotalCons(q[0], Insert(side, q[1..], o));
    }
  }

  lemma {:induction false} TotalRemove(q: seq<Order>, id: OrderId)
    requires Distinct(q)
    ensures Total(Remove(q, id)) + (if HasId(q, id) then Find(q, id).value.remaining else 0) == Total(q)
  {
    if q == [] {
    } else {
      var x, tail := q[0], q[1..];
      assert q == [x] + tail;
      DistinctCons(x, tail);
      if x.id == id {
        FindMeaning(tail, id);
        RemoveAbsent(tail, id);
      } else {
        TotalRemove(tail, id);
        TotalCons(x, Remove(tail, id));
      }
    }
  }

  /** Taking `t` off a head takes it off what rests. */
  lemma FillConserves(s: Sides, side: Side, t: Quantity)
    requires Formed(s) && s.Of(side) != [] && t <= s.Of(side)[0].remaining
    ensures var s' := s.With(side, Reduce(s.Of(side), s.Of(side)[0].id, t));
      && Formed(s') && s'.Of(side.Opposite()) == s.Of(side.Opposite())
      && RestingTotal(s') + t == RestingTotal(s)
  {
    hide Formed, Total;
    FillFormed(s, side, t);
    ReduceHeadStems(s.Of(side), t);
  }

  /** A legal trade reduces the two heads and keeps the state formed. */
  lemma TradeConserves(s: Sides, f: Fact)
    requires Formed(s) && Legal(s, f) && f.Traded?
    ensures Formed(Apply(s, f))
    ensures RestingTotal(Apply(s, f)) + 2 * f.quantity == RestingTotal(s)
  {
    hide Formed, RestingTotal, Reduce;
    FillConserves(s, f.makerSide, f.quantity);
    var s' := s.With(f.makerSide, Reduce(s.Of(f.makerSide), f.maker, f.quantity));
    FillConserves(s', f.makerSide.Opposite(), f.quantity);
  }

  lemma CancelConserves(s: Sides, f: Fact)
    requires Formed(s) && Legal(s, f) && f.Canceled?
    ensures Formed(Apply(s, f))
    ensures RestingTotal(Apply(s, f)) + f.remaining == RestingTotal(s)
  {
    RemoveKeeps(Buy, s.bids, f.id);
    RemoveKeeps(Sell, s.asks, f.id);
    RemoveElements(s.bids, f.id);
    RemoveElements(s.asks, f.id);
    TotalRemove(s.bids, f.id);
    TotalRemove(s.asks, f.id);
    FindMeaning(s.bids, f.id);
    FindMeaning(s.asks, f.id);
  }

  lemma AcceptConserves(s: Sides, f: Fact)
    requires Formed(s) && Legal(s, f) && f.Accepted?
    ensures Formed(Apply(s, f))
    ensures RestingTotal(Apply(s, f)) == RestingTotal(s) + f.quantity
  {
    var o := NewOrder(f.id, f.side, GoodTillCancel, f.price, f.quantity);
    HasMeaning(s, f.id);
    AbsentEverywhere(s, f.id);
    JoinFormed(s.Of(f.side), o);
    InsertElements(f.side, s.Of(f.side), o);
    TotalInsert(f.side, s.Of(f.side), o);
  }

  /** In every legal log what was accepted is what was traded, twice, plus canceled plus resting. */
  lemma {:induction false} LegalLogsConserve(log: seq<Fact>)
    requires LegalLog(log)
    ensures Formed(Replay(log))
    ensures AcceptedTotal(log) == 2 * TradedTotal(log) + CanceledTotal(log) + RestingTotal(Replay(log))
  {
    if log == [] {
    } else {
      var k := |log| - 1;
      LegalLogsConserve(log[..k]);
      var s := Replay(log[..k]);
      match log[k]
      case Accepted(_, _, _, _) => AcceptConserves(s, log[k]);
      case Traded(_, _, _, _, _) => TradeConserves(s, log[k]);
      case Canceled(_, _) => CancelConserves(s, log[k]);
      case Rejected(_, _) =>
      case TopOfBook(_, _) =>
    }
  }

  lemma {:induction false} TotalPlain(q: seq<Order>)
    ensures Total(PlainQueue(q)) == Total(q)
  {
    if q == [] {
    } else {
      TotalPlain(q[1..]);
      assert PlainQueue(q)[1..] == PlainQueue(q[1..]);
    }
  }

  /** Conservation over every run of the book. */
  lemma RunsConserve(instrument: InstrumentId, actions: seq<Action>)
    requires forall i :: 0 <= i < |actions| ==> Submittable(actions[i])
    ensures var b := Run(instrument, actions);
      AcceptedTotal(b.log) == 2 * TradedTotal(b.log) + CanceledTotal(b.log) + RestingTotal(b.sides)
  {
    var b := Run(instrument, actions);
    LogIsTheTruth(instrument, actions);
    LegalLogsConserve(b.log);
    TotalPlain(b.sides.bids);
    TotalPlain(b.sides.asks);
  }
}
