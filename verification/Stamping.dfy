/** How the log of facts carries sequence numbers. */
module Stamping {
  import opened Types
  import opened BookSpec

  lemma EventAtPrefix(instrument: InstrumentId, log: seq<Fact>, more: seq<Fact>, k: nat)
    requires k < |log|
    ensures EventAt(instrument, log + more, k) == EventAt(instrument, log, k)
  {
    assert (log + more)[..k] == log[..k];
  }

  lemma EventsAppend(instrument: InstrumentId, log: seq<Fact>, f: Fact, from: nat)
    requires from <= |log|
    ensures EventsSince(instrument, log + [f], from)
         == EventsSince(instrument, log, from) + [EventAt(instrument, log + [f], |log|)]
  {
    forall k | from <= k < |log| ensures EventAt(instrument, log + [f], k) == EventAt(instrument, log, k) {
      EventAtPrefix(instrument, log, [f], k);
    }
  }

  lemma TradesAppend(instrument: InstrumentId, log: seq<Fact>, f: Fact, from: nat)
    requires from <= |log|
    ensures TradeCount(log + [f]) == TradeCount(log) + if f.Traded? then 1 else 0
    ensures TradesSince(instrument, log + [f], from)
         == TradesSince(instrument, log, from) + if f.Traded? then [TradeAt(instrument, log + [f], |log|)] else []
  {
    assert (log + [f])[..|log|] == log;
  }

  lemma NoTradeYet(instrument: InstrumentId, log: seq<Fact>, f: Fact)
    requires !f.Traded?
    ensures TradesSince(instrument, log + [f], |log|) == []
  {
    TradesAppend(instrument, log, f, |log|);
  }

  /** The closing report of a command adds no trade. */
  lemma TopIsNoTrade(instrument: InstrumentId, log: seq<Fact>, log': seq<Fact>,
                     before: (Option<Price>, Option<Price>), after: Sides)
    requires |log| <= |log'|
    ensures var top := if before == after.Top() then [] else [TopOfBook(after.Top().0, after.Top().1)];
      TradesSince(instrument, log' + top, |log|) == TradesSince(instrument, log', |log|)
  {
    if before == after.Top() {
      assert log' + [] == log';
    } else {
      TradesAppend(instrument, log', TopOfBook(after.Top().0, after.Top().1), |log|);
    }
  }

  /** A fact that is no trade does not matter at the start. */
  lemma {:induction false} TradesShift(instrument: InstrumentId, log: seq<Fact>, from: nat)
    requires from < |log| && !log[from].Traded?
    ensures TradesSince(instrument, log, from) == TradesSince(instrument, log, from + 1)
  {
    var k := |log| - 1;
    if k <= from {
    } else {
      TradesShift(instrument, log[..k], from);
    }
  }

  /** Events split at any point of the log. */
  lemma EventsSplit(instrument: InstrumentId, log: seq<Fact>, more: seq<Fact>, from: nat)
    requires from <= |log|
    ensures EventsSince(instrument, log + more, from)
         == EventsSince(instrument, log, from) + EventsSince(instrument, log + more, |log|)
  {
    forall k | from <= k < |log| ensures EventAt(instrument, log + more, k) == EventAt(instrument, log, k) {
      EventAtPrefix(instrument, log, more, k);
    }
  }

  /** What an event says once its numbers and its instrument are stripped. */
  function FactOf(e: Event): Fact {
    match e
    case OrderAccepted(_, _, id, side, price, quantity) => Accepted(id, side, price, quantity)
    case OrderRejected(_, _, id, reason) => Rejected(id, reason)
    case OrderCanceled(_, _, id, remaining) => Canceled(id, remaining)
    case TradeExecuted(_, _, t) => Fact.Traded(t.price, t.quantity, t.maker, t.taker, t.makerSide)
    case TopOfBookUpdated(_, _, bid, ask) => TopOfBook(bid, ask)
  }

  function FactsOf(events: seq<Event>): seq<Fact> {
    seq(|events|, i requires 0 <= i < |events| => FactOf(events[i]))
  }

  /** The events since the beginning carry the whole log. */
  lemma EventsCarryTheLog(instrument: InstrumentId, log: seq<Fact>)
    ensures FactsOf(EventsSince(instrument, log, 0)) == log
  {
    forall k | 0 <= k < |log| ensures FactOf(EventAt(instrument, log, k)) == log[k] {}
  }

  predicate IsTrade(e: Event) { e.TradeExecuted? }

  function TradesIn(events: seq<Event>): seq<Trade> {
    if events == [] then []
    else TradesIn(events[..|events| - 1]) + if IsTrade(events[|events| - 1]) then [events[|events| - 1].trade] else []
  }

  /** The trades a command returns are those its events report, in the same order. */
  lemma {:induction false} ReturnedTradesAreEvents(instrument: InstrumentId, log: seq<Fact>, from: nat)
    requires from <= |log|
    ensures TradesSince(instrument, log, from) == TradesIn(EventsSince(instrument, log, from))
  {
    if from == |log| {
    } else {
      var k := |log| - 1;
      ReturnedTradesAreEvents(instrument, log[..k], from);
      assert log == log[..k] + [log[k]];
      EventsAppend(instrument, log[..k], log[k], from);
      var e := EventsSince(instrument, log, from);
      assert e[..|e| - 1] == EventsSince(instrument, log[..k], from);
      assert e[|e| - 1] == EventAt(instrument, log, k);
    }
  }

  /** Fact number `k` carries number `k`, and trade number `n` carries number `n`, until they saturate. */
  lemma {:induction false} SequenceNumbers(instrument: InstrumentId, log: seq<Fact>)
    ensures forall k :: 0 <= k < |log| ==> EventAt(instrument, log, k).number == Min(k, U64_MAX)
    ensures |TradesSince(instrument, log, 0)| == TradeCount(log)
    ensures forall n :: 0 <= n < TradeCount(log) ==> TradesSince(instrument, log, 0)[n].number == Min(n, U64_MAX)
  {
    if log == [] {
    } else {
      var k := |log| - 1;
      SequenceNumbers(instrument, log[..k]);
    }
  }
}
