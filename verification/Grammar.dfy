/** The shape of the facts that each command adds to the log. */
module Grammar {
  import opened Types
  import opened Queues
  import opened Matching
  import opened BookSpec

  predicate AllTrades(facts: seq<Fact>, taker: OrderId) {
    forall f :: f in facts ==> f.Traded? && f.taker == taker
  }

  predicate AllCancels(facts: seq<Fact>) {
    forall f :: f in facts ==> f.Canceled?
  }

  function IdOf(f: Fact): Option<OrderId> {
    match f
    case Accepted(id, _, _, _) => Some(id)
    case Rejected(id, _) => Some(id)
    case Canceled(id, _) => Some(id)
    case _ => None
  }

  /** Rejected, or Accepted Trade* Canceled?, all about the order `id`. */
  ghost predicate PlaceShape(facts: seq<Fact>, id: OrderId, accepted: bool) {
    && facts != [] && IdOf(facts[0]) == Some(id)
    && (!accepted ==> |facts| == 1 && facts[0].Rejected?)
    && (accepted ==>
          && facts[0].Accepted?
          && (AllTrades(facts[1..], id)
              || (|facts| > 1 && AllTrades(facts[1..|facts| - 1], id)
                  && facts[|facts| - 1].Canceled? && facts[|facts| - 1].id == id)))
  }

  lemma EntryHasShape(s: Sides, o: Order, ioc: bool)
    ensures PlaceShape(Enter(s, o, ioc).facts, o.id, true)
  {
    hide Match;
    var m := Match(o.side, o.price, o.remaining, s.Of(o.side.Opposite()));
    var trades := TradeFacts(m.fills, o.id, o.side.Opposite());
    var facts := Enter(s, o, ioc).facts;
    if ioc && !m.done {
      assert facts[1..|facts| - 1] == trades;
    } else {
      assert facts[1..] == trades;
    }
  }

  lemma PlaceHasShape(s: Sides, o: Order)
    ensures PlaceShape(Place(s, o).facts, o.id, Place(s, o).reject == None)
  {
    hide Enter;
    if Admit(s, o).Ok? {
      EntryHasShape(s, Admit(s, o).value, ImmediateOrCancel(o.kind));
    }
  }

  lemma {:induction false} CancelAllCancels(s: Sides, ids: seq<OrderId>)
    ensures AllCancels(CancelAll(s, ids).facts) && |CancelAll(s, ids).facts| == CancelAll(s, ids).count
  {
    if ids == [] {
    } else {
      CancelAllCancels(s, ids[..|ids| - 1]);
    }
  }

  /** A modify that is refused outright. */
  predicate Refused(reject: Option<ModifyReject>) {
    reject == Some(ModifyNotFound) || reject == Some(ModifySideChange)
  }

  lemma ModifyHasShape(s: Sides, m: OrderModify)
    ensures var r := Modify(s, m);
      && r.facts != []
      && (Refused(r.reject) ==> |r.facts| == 1 && r.facts[0].Rejected? && r.facts[0].id == m.id && r.sides == s)
      && (!Refused(r.reject) ==>
            r.facts[0].Canceled? && r.facts[0].id == m.id && PlaceShape(r.facts[1..], m.id, r.reject == None))
  {
    hide Place, PlaceShape;
    if s.Has(m.id) && s.Find(m.id).value.side == m.side {
      var c := Cancel(s, m.id);
      var o := m.Modify(s.Find(m.id).value.kind);
      PlaceHasShape(c.sides, o);
      assert Modify(s, m).facts[1..] == Place(c.sides, o).facts;
    }
  }

  /**
   Each command adds one group of facts and then reports the top of the book if, and only if, it
   changed. A placement adds its own shape; cancels add cancellations only. A modify answered with
   `ModifyNotFound` or `ModifySideChange` adds one rejection; any other cancels the order and adds
   the shape of its placement, which ends as the answer says.
   */
  lemma CommandGrammar(instrument: InstrumentId, b: Book, a: Action)
    ensures var (b', output) := Execute(instrument, b, a);
      var facts := EffectOf(b.sides, a).facts;
      && b'.log == b.log + facts + (if b.sides.Top() == b'.sides.Top() then []
                                    else [TopOfBook(b'.sides.Top().0, b'.sides.Top().1)])
      && match a
         case PlaceOrder(o) => output.PlaceOutput? && PlaceShape(facts, o.id, output.placed.Ok?)
         case CancelOrder(id) => AllCancels(facts) && |facts| <= 1 && output == CancelOutput(facts != [])
         case CancelOrders(ids) => AllCancels(facts) && output.CancelsOutput? && |facts| == output.count
         case ModifyOrder(m) =>
           && output.ModifyOutput? && facts != []
           && if output.modified == Err(ModifyNotFound) || output.modified == Err(ModifySideChange)
              then |facts| == 1 && facts[0].Rejected? && facts[0].id == m.id && b'.sides == b.sides
              else facts[0].Canceled? && facts[0].id == m.id
                   && PlaceShape(facts[1..], m.id, output.modified.Ok?)
  {
    hide PlaceShape, Place, Modify, TradesSince;
    match a
    case PlaceOrder(o) => PlaceHasShape(b.sides, o);
    case CancelOrder(id) =>
    case CancelOrders(ids) => CancelAllCancels(b.sides, ids);
    case ModifyOrder(m) => ModifyHasShape(b.sides, m);
  }
}
