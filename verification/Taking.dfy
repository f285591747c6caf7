/** How far a taker got: the link between the matching loop and the greedy reference. */
module Taking {
  import opened Types
  import opened Queues
  import opened Matching
  import opened BookSpec
  import opened BookInvariant
  import opened Levels

  /** What is left of the taker, whether it still rests, the makers still there, and the trades so far. */
  datatype Progress = Progress(left: Quantity, live: bool, makers: seq<Order>, fills: seq<Fill>)

  function Start(o: Order, makers: seq<Order>): Progress { Progress(o.remaining, true, makers, []) }

  /** One trade with the maker at the head. */
  function StepOn(p: Progress): Progress
    requires p.makers != []
  {
    var m := p.makers[0];
    var t := Min(p.left, m.remaining);
    Progress(p.left - t, t != p.left, ReduceHead(p.makers, t), p.fills + [Fill(m.price, t, m.id)])
  }

  /** The trades so far, and what the greedy fill makes of the rest, are the greedy fill of it all. */
  ghost predicate Tracks(o: Order, makers: seq<Order>, p: Progress) {
    && (!p.live ==> p.left == 0)
    && Match(o.side, o.price, o.remaining, makers) ==
       if !p.live then MatchResult(p.fills, 0, true, p.makers)
       else
         var r := Match(o.side, o.price, p.left, p.makers);
         r.(fills := p.fills + r.fills)
  }

  /** Where the greedy fill ends. */
  function End(o: Order, makers: seq<Order>): Progress {
    var m := Match(o.side, o.price, o.remaining, makers);
    Progress(m.left, !m.done, m.rest, m.fills)
  }

  lemma TracksToEnd(o: Order, makers: seq<Order>, p: Progress)
    requires Tracks(o, makers, p) && (!p.live || !CanMatch(o.side, o.price, p.makers))
    ensures p == End(o, makers)
  {
    assert p.fills + [] == p.fills;
  }

  lemma StartTracks(o: Order, makers: seq<Order>)
    ensures Tracks(o, makers, Start(o, makers))
  {
    var r := Match(o.side, o.price, o.remaining, makers);
    assert [] + r.fills == r.fills;
  }

  lemma StepTracks(o: Order, makers: seq<Order>, p: Progress)
    requires Tracks(o, makers, p) && p.live && CanMatch(o.side, o.price, p.makers)
    ensures Tracks(o, makers, StepOn(p))
  {
    var m := p.makers[0];
    var t := Min(p.left, m.remaining);
    if t != p.left {
      var r := Match(o.side, o.price, p.left - t, p.makers[1..]);
      assert p.fills + ([Fill(m.price, t, m.id)] + r.fills) == (p.fills + [Fill(m.price, t, m.id)]) + r.fills;
    }
  }

  function OwnQueue(own: seq<Order>, o: Order, p: Progress): seq<Order> {
    if p.live then Insert(o.side, own, o.(remaining := p.left)) else own
  }

  /** The two sides of the book while the taker `o` matches. */
  function SidesAt(s: Sides, o: Order, p: Progress): Sides {
    s.With(o.side, OwnQueue(s.Of(o.side), o, p)).With(o.side.Opposite(), p.makers)
  }

  /** The taker is new, and nobody else on its side crosses the makers. */
  ghost predicate Intruder(s: Sides, o: Order, makers: seq<Order>) {
    && SideFormed(o.side, s.Of(o.side))
    && SideFormed(o.side.Opposite(), makers)
    && PairFormed(o.side, s.Of(o.side), makers)
    && (forall x :: x in s.Of(o.side) || x in makers ==> x.id != o.id)
  }

  /** The taker stands alone at the best price of its side. */
  predicate Leads(own: seq<Order>, o: Order) {
    own == [] || Better(o.side, o.price, own[0].price)
  }

  lemma StartIntrudes(s: Sides, o: Order)
    requires WellFormed(s) && !s.Has(o.id)
    ensures Intruder(s, o, s.Of(o.side.Opposite()))
  {
    WellFormedBySide(s, o.side);
    AbsentEverywhere(s, o.id);
  }

  lemma StepIntrudes(s: Sides, o: Order, p: Progress)
    requires Intruder(s, o, p.makers) && p.makers != []
    ensures Intruder(s, o, StepOn(p).makers)
  {
    var t := Min(p.left, p.makers[0].remaining);
    var rest := ReduceHead(p.makers, t);
    ReduceHeadKeeps(o.side.Opposite(), p.makers, t);
    ReduceHeadStems(p.makers, t);
    if rest != [] {
      assert rest[0] in rest;
      var y :| y in p.makers && rest[0] == y.(remaining := rest[0].remaining);
      SortedHead(o.side.Opposite(), p.makers, y);
    }
  }

  /** When the two heads cross, the better-placed one of the taker's side is the taker. */
  lemma TakerLeads(s: Sides, o: Order, p: Progress)
    requires Intruder(s, o, p.makers) && p.live && p.makers != []
    ensures var q := OwnQueue(s.Of(o.side), o, p);
      && q != []
      && (CanMatch(o.side, q[0].price, p.makers) <==> CanMatch(o.side, o.price, p.makers))
      && (CanMatch(o.side, o.price, p.makers) ==> Leads(s.Of(o.side), o) && q[0].price == o.price)
  {
    InsertHead(o.side, s.Of(o.side), o.(remaining := p.left));
  }

  lemma LiveMeaning(s: Sides, o: Order, p: Progress)
    requires Intruder(s, o, p.makers)
    ensures SidesAt(s, o, p).Has(o.id) <==> p.live
  {
    var own := s.Of(o.side);
    var at := SidesAt(s, o, p);
    HasMeaning(at, o.id);
    InsertElements(o.side, own, o.(remaining := p.left));
    FindMeaning(at.Of(o.side), o.id);
    FindMeaning(p.makers, o.id);
  }

  /** A trade between the two heads is one step of the taker. */
  lemma StepSides(s: Sides, o: Order, p: Progress)
    requires p.live && p.makers != [] && Leads(s.Of(o.side), o)
    ensures var at := SidesAt(s, o, p);
      && at.bids != [] && at.asks != []
      && AfterFront(at) == SidesAt(s, o, StepOn(p))
      && TradeFacts(StepOn(p).fills, o.id, o.side.Opposite())
           == TradeFacts(p.fills, o.id, o.side.Opposite()) + [FrontTrade(at, o.id, o.side)]
  {
    var own := s.Of(o.side);
    InsertBest(o.side, own, o.(remaining := p.left));
    InsertBest(o.side, own, o.(remaining := StepOn(p).left));
    assert ([o.(remaining := p.left)] + own)[1..] == own;
  }

  // --- the two levels that meet ----------------------------------------------------------------

  function BidPrice(o: Order, maker: Price): Price { if o.side.Buy? then o.price else maker }
  function AskPrice(o: Order, maker: Price): Price { if o.side.Buy? then maker else o.price }

  /** The taker, alone at its level, meets the makers' level at price `maker`. */
  ghost predicate Meets(s: Sides, o: Order, makers: seq<Order>, maker: Price) {
    && Leads(s.Of(o.side), o)
    && Crosses(o.side, o.price, maker)
    && forall x :: x in makers ==> !Better(o.side.Opposite(), x.price, maker)
  }

  lemma MeetsFirst(s: Sides, o: Order, makers: seq<Order>)
    requires Intruder(s, o, makers) && Leads(s.Of(o.side), o) && CanMatch(o.side, o.price, makers)
    ensures Meets(s, o, makers, makers[0].price)
  {
    forall x | x in makers ensures !Better(o.side.Opposite(), x.price, makers[0].price) {
      SortedHead(o.side.Opposite(), makers, x);
    }
  }

  lemma StepMeets(s: Sides, o: Order, p: Progress, maker: Price)
    requires Meets(s, o, p.makers, maker) && p.makers != []
    ensures Meets(s, o, StepOn(p).makers, maker)
  {
    ReduceHeadStems(p.makers, Min(p.left, p.makers[0].remaining));
  }

  lemma LevelHead(side: Side, q: seq<Order>, p: Price)
    requires Sorted(side, q) && forall x :: x in q ==> !Better(side, x.price, p)
    ensures AtPrice(q, p) != [] <==> q != [] && q[0].price == p
  {
    AtPriceElements(q, p);
    if AtPrice(q, p) != [] {
      var x := AtPrice(q, p)[0];
      assert x in AtPrice(q, p);
      SortedHead(side, q, x);
      assert q[0] in q;
    }
  }

  /** The taker's level holds the taker alone; the makers' level is empty once the head is elsewhere. */
  lemma LevelsMeet(s: Sides, o: Order, p: Progress, maker: Price)
    requires Intruder(s, o, p.makers) && Meets(s, o, p.makers, maker)
    ensures AtPrice(OwnQueue(s.Of(o.side), o, p), o.price) == if p.live then [o.(remaining := p.left)] else []
    ensures AtPrice(p.makers, maker) != [] <==> p.makers != [] && p.makers[0].price == maker
    ensures AtPrice(p.makers, maker) != [] ==> CanMatch(o.side, o.price, p.makers)
  {
    var own := s.Of(o.side);
    forall x | x in own ensures x.price != o.price {
      SortedHead(o.side, own, x);
    }
    NoneAtPrice(own, o.price);
    AtPriceInsert(o.side, own, o.(remaining := p.left), o.price);
    LevelHead(o.side.Opposite(), p.makers, maker);
  }

  ghost predicate NoEmptyLevelBut(levels: LevelMap, p: Price) {
    forall k :: k in levels && k != p ==> levels[k] != []
  }

  // --- after matching -----------------------------------------------------------------------------

  /** What is left of an order that stays is where the reference puts it. */
  lemma EndStays(s: Sides, o: Order)
    ensures var end := End(o, s.Of(o.side.Opposite()));
      && Enter(s, o, false).sides == SidesAt(s, o, end)
      && Enter(s, o, false).facts
           == [Accepted(o.id, o.side, o.price, o.initial)] + TradeFacts(end.fills, o.id, o.side.Opposite())
      && (!end.live ==> Enter(s, o, true) == Enter(s, o, false))
  {
    var e := Enter(s, o, false);
    assert e.facts + [] == e.facts;
  }

  /** Canceling what is left of an immediate order leaves its own side as it was. */
  lemma EndLeaves(s: Sides, o: Order) returns (left: Quantity)
    requires WellFormed(s) && !s.Has(o.id)
    requires End(o, s.Of(o.side.Opposite())).live
    ensures var end := End(o, s.Of(o.side.Opposite()));
      var c := Cancel(SidesAt(s, o, end), o.id);
      && Enter(s, o, true).sides == c.sides
      && Enter(s, o, true).facts == Enter(s, o, false).facts + c.facts
      && c.facts == [Canceled(o.id, left)]
  {
    var end := End(o, s.Of(o.side.Opposite()));
    var at := SidesAt(s, o, end);
    var r := o.(remaining := end.left);
    var own := s.Of(o.side);
    HasMeaning(s, o.id);
    EndFound(s, o);
    RemoveInserted(o.side, own, r);
    var facts := Enter(s, o, false).facts;
    assert facts + [] == facts;
    left := end.left;
  }

  /** Matching alone, before anything is canceled, leaves the book well formed. */
  lemma EndFormed(s: Sides, o: Order)
    requires WellFormed(s) && !s.Has(o.id)
    ensures WellFormed(SidesAt(s, o, End(o, s.Of(o.side.Opposite()))))
  {
    EndStays(s, o);
    EnterKeeps(s, o, false);
  }

  lemma EndFound(s: Sides, o: Order)
    requires WellFormed(s) && !s.Has(o.id)
    requires End(o, s.Of(o.side.Opposite())).live
    ensures var end := End(o, s.Of(o.side.Opposite()));
      SidesAt(s, o, end).Find(o.id) == Some(o.(remaining := end.left))
  {
    var makers, own := s.Of(o.side.Opposite()), s.Of(o.side);
    var end := End(o, makers);
    var r := o.(remaining := end.left);
    AbsentEverywhere(s, o.id);
    HasMeaning(s, o.id);
    MatchStems(o.side, o.price, o.remaining, makers);
    FindMeaning(end.makers, o.id);
    InsertKeepsDistinct(o.side, own, r);
    InsertElements(o.side, own, r);
    FindMeaning(Insert(o.side, own, r), o.id);
  }

  /** The order is live at the end exactly when it was not filled. */
  lemma EndLive(s: Sides, o: Order)
    requires WellFormed(s) && !s.Has(o.id)
    ensures var end := End(o, s.Of(o.side.Opposite())); SidesAt(s, o, end).Has(o.id) <==> end.live
  {
    var makers := s.Of(o.side.Opposite());
    StartIntrudes(s, o);
    MatchStems(o.side, o.price, o.remaining, makers);
    var end := End(o, makers);
    RestFormed(o, makers);
    RestPaired(s.Of(o.side), o, makers);
    LiveMeaning(s, o, end);
  }

  /** A cancel counts one way or the other. */
  lemma CancelCounts(s: Sides, id: OrderId)
    ensures var c := Cancel(s, id);
      && c.count == (if s.Has(id) then 1 else 0)
      && c.notFound == (if s.Has(id) then 0 else 1)
      && (!s.Has(id) ==> c.sides == s && c.facts == [])
      && (s.Has(id) ==> c.facts == [CancelFact(s, id)])
  {}

  function CancelFact(s: Sides, id: OrderId): Fact
    requires s.Has(id)
  {
    Canceled(id, s.Find(id).value.remaining)
  }
}
