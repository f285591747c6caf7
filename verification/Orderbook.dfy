/**
 The order book of one instrument: a map of live orders, two maps from prices to queues of
 ids, and the buffer of events. The ghost field `book` is the reference book it represents.
 */
module Orderbooks {
  import opened Types
  import opened Queues
  import opened Matching
  import opened BookSpec
  import opened BookInvariant
  import opened Levels
  import opened Stamping
  import opened Taking

  class Orderbook {
    const instrument: InstrumentId
    var orders: map<OrderId, Order>
    var bids: LevelMap
    var asks: LevelMap
    var nextTradeSeq: nat
    var nextEventSeq: nat
    var pending: seq<Event>

    ghost var book: Book
    ghost var drained: nat  // how many facts of the log have left the buffer

    /** The counters and the buffer carry the log. */
    ghost predicate Stamped()
      reads this
    {
      && drained <= |book.log|
      && nextEventSeq == Saturate(|book.log|)
      && nextTradeSeq == Saturate(TradeCount(book.log))
      && pending == EventsSince(instrument, book.log, drained)
    }

    /** The maps represent the queues. */
    ghost predicate Represented()
      reads this
    {
      && Formed(book.sides)
      && Indexes(orders, book.sides)
      && IsLevels(bids, book.sides.bids)
      && IsLevels(asks, book.sides.asks)
    }

    /** What holds between commands. */
    ghost predicate Valid()
      reads this
    {
      && Stamped()
      && Represented()
      && NoEmptyLevel(bids) && NoEmptyLevel(asks)
      && WellFormed(book.sides)
    }

    constructor (instrument: InstrumentId)
      ensures Valid() && this.instrument == instrument
      ensures book == EMPTY_BOOK && drained == 0 && pending == []
    {
      this.instrument := instrument;
      orders, bids, asks := map[], map[], map[];
      nextTradeSeq, nextEventSeq, pending := 0, 0, [];
      book, drained := EMPTY_BOOK, 0;
    }

    /**
     Between commands every queued id is live, on its own side at its own price, and queued once;
     every live order is queued; no level is empty; and the best bid is below the best ask.
     */
    lemma MapsAgree()
      requires Valid()
      ensures forall p, k :: p in bids && 0 <= k < |bids[p]| ==>
                bids[p][k] in orders && orders[bids[p][k]].side == Buy && orders[bids[p][k]].price == p
      ensures forall p, k :: p in asks && 0 <= k < |asks[p]| ==>
                asks[p][k] in orders && orders[asks[p][k]].side == Sell && orders[asks[p][k]].price == p
      ensures forall p, j, k :: p in bids && 0 <= j < |bids[p]| && 0 <= k < |bids[p]| && j != k ==>
                bids[p][j] != bids[p][k]
      ensures forall p, j, k :: p in asks && 0 <= j < |asks[p]| && 0 <= k < |asks[p]| && j != k ==>
                asks[p][j] != asks[p][k]
      ensures forall id :: id in orders ==>
                var levels := if orders[id].side.Buy? then bids else asks;
                orders[id].price in levels && id in levels[orders[id].price]
      ensures forall p :: p in bids ==> bids[p] != []
      ensures forall p :: p in asks ==> asks[p] != []
      ensures forall b, a :: b in bids && a in asks ==> b < a
    {
      forall p, k | p in bids && 0 <= k < |bids[p]|
        ensures bids[p][k] in orders && orders[bids[p][k]].side == Buy && orders[bids[p][k]].price == p
        ensures forall j :: 0 <= j < |bids[p]| && j != k ==> bids[p][j] != bids[p][k]
      {
        QueuedIsLive(orders, Buy, bids, book.sides.bids, p, k);
      }
      forall p, k | p in asks && 0 <= k < |asks[p]|
        ensures asks[p][k] in orders && orders[asks[p][k]].side == Sell && orders[asks[p][k]].price == p
        ensures forall j :: 0 <= j < |asks[p]| && j != k ==> asks[p][j] != asks[p][k]
      {
        QueuedIsLive(orders, Sell, asks, book.sides.asks, p, k);
      }
      forall id | id in orders
        ensures var levels := if orders[id].side.Buy? then bids else asks;
          orders[id].price in levels && id in levels[orders[id].price]
      {
        var side := orders[id].side;
        LiveIsQueued(orders, side, if side.Buy? then bids else asks, book.sides.Of(side), id);
      }
      BestKeyIsHead(Buy, bids, book.sides.bids);
      BestKeyIsHead(Sell, asks, book.sides.asks);
    }

    /** Hand over every event since the last call. */
    method DrainEvents() returns (events: seq<Event>)
      requires Valid()
      modifies this`pending, this`drained
      ensures Valid() && drained == |book.log| && pending == []
      ensures events == EventsSince(instrument, book.log, old(drained))
    {
      events := pending;
      pending := [];
      drained := |book.log|;
    }

    // --- emitting ---------------------------------------------------------------------------

    /** The log grew by `facts`, and nothing but the event buffer changed. */
    twostate predicate Logged(facts: seq<Fact>)
      reads this
    {
      && book == old(book).(log := old(book.log) + facts)
      && drained == old(drained)
      && Stamped()
    }

    method NextEventSeq() returns (number: nat)
      modifies this`nextEventSeq
      ensures number == old(nextEventSeq) && nextEventSeq == SaturatingInc(number)
    {
      number := nextEventSeq;
      nextEventSeq := SaturatingInc(nextEventSeq);
    }

    method EmitOrderAccepted(id: OrderId, side: Side, price: Price, quantity: Quantity)
      requires Stamped()
      modifies this`nextEventSeq, this`pending, this`book
      ensures Logged([Accepted(id, side, price, quantity)])
    {
      ghost var f := Accepted(id, side, price, quantity);
      EventsAppend(instrument, book.log, f, drained);
      TradesAppend(instrument, book.log, f, drained);
      var number := NextEventSeq();
      pending := pending + [OrderAccepted(number, instrument, id, side, price, quantity)];
      book := book.(log := book.log + [f]);
    }

    method EmitOrderRejected(id: OrderId, reason: RejectReason)
      requires Stamped()
      modifies this`nextEventSeq, this`pending, this`book
      ensures Logged([Rejected(id, reason)])
    {
      ghost var f := Rejected(id, reason);
      EventsAppend(instrument, book.log, f, drained);
      TradesAppend(instrument, book.log, f, drained);
      var number := NextEventSeq();
      pending := pending + [OrderRejected(number, instrument, id, reason)];
      book := book.(log := book.log + [f]);
    }

    method EmitOrderCanceled(id: OrderId, remaining: Quantity)
      requires Stamped()
      modifies this`nextEventSeq, this`pending, this`book
      ensures Logged([Canceled(id, remaining)])
    {
      ghost var f := Canceled(id, remaining);
      EventsAppend(instrument, book.log, f, drained);
      TradesAppend(instrument, book.log, f, drained);
      var number := NextEventSeq();
      pending := pending + [OrderCanceled(number, instrument, id, remaining)];
      book := book.(log := book.log + [f]);
    }

    /** The caller has numbered the trade already. */
    method EmitTradeExecuted(trade: Trade, ghost f: Fact)
      requires f.Traded? && trade == TradeAt(instrument, book.log + [f], |book.log|)
      requires drained <= |book.log|
      requires nextEventSeq == Saturate(|book.log|)
      requires nextTradeSeq == Saturate(TradeCount(book.log) + 1)
      requires pending == EventsSince(instrument, book.log, drained)
      modifies this`nextEventSeq, this`pending, this`book
      ensures Logged([f])
    {
      EventsAppend(instrument, book.log, f, drained);
      TradesAppend(instrument, book.log, f, drained);
      var number := NextEventSeq();
      pending := pending + [TradeExecuted(number, instrument, trade)];
      book := book.(log := book.log + [f]);
    }

    method EmitTopOfBookIfChanged(before: (Option<Price>, Option<Price>))
      requires Valid()
      modifies this`nextEventSeq, this`pending, this`book
      ensures Logged(if before == book.sides.Top() then [] else [TopOfBook(book.sides.Top().0, book.sides.Top().1)])
    {
      var after := TopOfBookSnapshot();
      if before != after {
        ghost var f := TopOfBook(after.0, after.1);
        EventsAppend(instrument, book.log, f, drained);
        TradesAppend(instrument, book.log, f, drained);
        var number := NextEventSeq();
        pending := pending + [TopOfBookUpdated(number, instrument, after.0, after.1)];
        book := book.(log := book.log + [f]);
      } else {
        assert book.log + [] == book.log;
      }
    }

    // --- queries ----------------------------------------------------------------------------

    /** The maps are in the state in which the queries read them. */
    ghost predicate Queryable()
      reads this
    {
      Represented() && NoEmptyLevel(bids) && NoEmptyLevel(asks)
    }

    function BestBid(): (best: Option<Price>)
      requires Queryable()
      reads this
      ensures best == Best(book.sides.bids)
    {
      BestKeyIsHead(Buy, bids, book.sides.bids);
      if bids == map[] then None else Some(BestKey(Buy, bids.Keys))
    }

    function BestAsk(): (best: Option<Price>)
      requires Queryable()
      reads this
      ensures best == Best(book.sides.asks)
    {
      BestKeyIsHead(Sell, asks, book.sides.asks);
      if asks == map[] then None else Some(BestKey(Sell, asks.Keys))
    }

    function TopOfBookSnapshot(): (top: (Option<Price>, Option<Price>))
      requires Queryable()
      reads this
      ensures top == book.sides.Top()
    {
      (BestBid(), BestAsk())
    }

    function WorstBid(): (worst: Option<Price>)
      requires Queryable()
      reads this
      ensures var q := book.sides.bids; worst == if q == [] then None else Some(q[|q| - 1].price)
    {
      WorstKeyIsLast(Buy, bids, book.sides.bids);
      if bids == map[] then None else Some(BestKey(Sell, bids.Keys))
    }

    function WorstAsk(): (worst: Option<Price>)
      requires Queryable()
      reads this
      ensures var q := book.sides.asks; worst == if q == [] then None else Some(q[|q| - 1].price)
    {
      WorstKeyIsLast(Sell, asks, book.sides.asks);
      if asks == map[] then None else Some(BestKey(Buy, asks.Keys))
    }

    predicate CanTrade(side: Side, price: Price)
      requires Queryable()
      reads this
      ensures CanTrade(side, price) <==> CanMatch(side, price, book.sides.Of(side.Opposite()))
    {
      match side
      case Buy => BestAsk().Some? && price >= BestAsk().value
      case Sell => BestBid().Some? && price <= BestBid().value
    }

    /** The sum of a level as `u32` arithmetic gives it. */
    method LevelQuantity(ids: seq<OrderId>, ghost level: seq<Order>) returns (sum: Quantity)
      requires ids == Ids(level)
      requires forall x :: x in level ==> x.id in orders && orders[x.id] == x
      ensures sum == Total(level) % U32_RANGE
    {
      sum := 0;
      for i := 0 to |ids|
        invariant (sum + Total(level[i..])) % U32_RANGE == Total(level) % U32_RANGE
      {
        assert level[i] in level;
        assert level[i..][1..] == level[i + 1..];
        if ids[i] in orders {
          ghost var before := sum;
          sum := (sum + orders[ids[i]].remaining) % U32_RANGE;
          WrapStep(before, level[i].remaining, Total(level[i + 1..]));
        }
      }
      assert level[|ids|..] == [];
    }

    static lemma WrapStep(a: nat, b: nat, c: nat)
      ensures ((a + b) % U32_RANGE + c) % U32_RANGE == (a + (b + c)) % U32_RANGE
    {
      var k := (a + b) / U32_RANGE;
      assert a + b == k * U32_RANGE + (a + b) % U32_RANGE;
      assert a + b + c == k * U32_RANGE + ((a + b) % U32_RANGE + c);
    }

    /** The fill-or-kill dry run: walk the opposing levels from the best one. */
    method CanFill(side: Side, price: Price, quantity: Quantity) returns (yes: bool)
      requires Queryable()
      ensures yes <==> CanFullyFill(side, price, quantity, book.sides.Of(side.Opposite()))
    {
      if !CanTrade(side, price) {
        return false;
      }
      match side {
        case Buy => yes := AsksCover(price, quantity);
        case Sell => yes := BidsCover(price, quantity);
      }
    }

    method AsksCover(price: Price, wanted: Quantity) returns (yes: bool)
      requires Queryable() && CanTrade(Buy, price)
      ensures yes <==> wanted <= Shown(Buy, price, Depth(book.sides.asks))
    {
      var quantity := wanted;
      var levels := asks;
      ghost var rest := book.sides.asks;
      while levels != map[]
        invariant IsLevels(levels, rest) && NoEmptyLevel(levels) && Sorted(Sell, rest)
        invariant forall x :: x in rest ==> x in book.sides.asks
        invariant wanted <= Shown(Buy, price, Depth(book.sides.asks)) <==> quantity <= Shown(Buy, price, Depth(rest))
        invariant rest == book.sides.asks || quantity > 0
        decreases |rest|
      {
        BestKeyIsHead(Sell, levels, rest);
        NextLevel(Sell, levels, rest);
        var askPrice := BestKey(Sell, levels.Keys);
        if askPrice > price {
          break;
        }
        var sum := LevelQuantity(levels[askPrice], AtPrice(rest, askPrice));
        if quantity <= sum {
          return true;
        }
        quantity := quantity - sum;
        levels := levels - {askPrice};
        rest := Behind(rest);
      }
      BestKeyIsHead(Sell, levels, rest);
      return false;
    }

    method BidsCover(price: Price, wanted: Quantity) returns (yes: bool)
      requires Queryable() && CanTrade(Sell, price)
      ensures yes <==> wanted <= Shown(Sell, price, Depth(book.sides.bids))
    {
      var quantity := wanted;
      var levels := bids;
      ghost var rest := book.sides.bids;
      while levels != map[]
        invariant IsLevels(levels, rest) && NoEmptyLevel(levels) && Sorted(Buy, rest)
        invariant forall x :: x in rest ==> x in book.sides.bids
        invariant wanted <= Shown(Sell, price, Depth(book.sides.bids)) <==> quantity <= Shown(Sell, price, Depth(rest))
        invariant rest == book.sides.bids || quantity > 0
        decreases |rest|
      {
        BestKeyIsHead(Buy, levels, rest);
        NextLevel(Buy, levels, rest);
        var bidPrice := BestKey(Buy, levels.Keys);
        if bidPrice < price {
          break;
        }
        var sum := LevelQuantity(levels[bidPrice], AtPrice(rest, bidPrice));
        if quantity <= sum {
          return true;
        }
        quantity := quantity - sum;
        levels := levels - {bidPrice};
        rest := Behind(rest);
      }
      BestKeyIsHead(Buy, levels, rest);
      return false;
    }

    /** The depth snapshot, best level first on both sides. */
    method OrderInfos() returns (bidInfos: seq<LevelInfo>, askInfos: seq<LevelInfo>)
      requires Queryable()
      ensures bidInfos == Depth(book.sides.bids)
      ensures askInfos == Depth(book.sides.asks)
    {
      bidInfos := SideInfos(Buy, bids, book.sides.bids);
      askInfos := SideInfos(Sell, asks, book.sides.asks);
    }

    method SideInfos(side: Side, all: LevelMap, ghost q: seq<Order>) returns (infos: seq<LevelInfo>)
      requires IsLevels(all, q) && NoEmptyLevel(all) && Sorted(side, q)
      requires forall x :: x in q ==> x.id in orders && orders[x.id] == x
      ensures infos == Depth(q)
    {
      infos := [];
      var levels := all;
      ghost var rest := q;
      while levels != map[]
        invariant IsLevels(levels, rest) && NoEmptyLevel(levels) && Sorted(side, rest)
        invariant forall x :: x in rest ==> x in q
        invariant infos + Depth(rest) == Depth(q)
        decreases |rest|
      {
        BestKeyIsHead(side, levels, rest);
        NextLevel(side, levels, rest);
        var best := BestKey(side, levels.Keys);
        var sum := LevelQuantity(levels[best], AtPrice(rest, best));
        infos := infos + [LevelInfo(best, sum)];
        levels := levels - {best};
        rest := Behind(rest);
      }
      BestKeyIsHead(side, levels, rest);
    }

    // --- matching ---------------------------------------------------------------------------

    /** The orders at the front of the two given levels fill each other. */
    method FillFront(bidPrice: Price, askPrice: Price) returns (bid: Order, ask: Order, quantity: Quantity)
      requires Represented()
      requires book.sides.bids != [] && book.sides.bids[0].price == bidPrice
      requires book.sides.asks != [] && book.sides.asks[0].price == askPrice
      modifies this`orders, this`bids, this`asks, this`book
      ensures Represented()
      ensures book == old(book).(sides := AfterFront(old(book.sides)))
      ensures quantity == FrontQuantity(old(book.sides))
      ensures bid == old(book.sides.bids)[0].(remaining := bid.remaining)
      ensures ask == old(book.sides.asks)[0].(remaining := ask.remaining)
      ensures bids == PoppedIf(old(bids), bidPrice, old(book.sides.bids)[0].remaining == quantity)
      ensures asks == PoppedIf(old(asks), askPrice, old(book.sides.asks)[0].remaining == quantity)
    {
      hide Formed, Indexes, IsLevels;
      ghost var s, orders0, bids0, asks0 := book.sides, orders, bids, asks;
      Fronts(orders, bids, asks, s);
      var bidId := bids[bidPrice][0];
      var askId := asks[askPrice][0];
      quantity := Min(orders[bidId].remaining, orders[askId].remaining);
      bid := orders[bidId].Fill(quantity).value;
      ask := orders[askId].Fill(quantity).value;
      orders := orders[bidId := bid][askId := ask];
      if bid.IsFilled() {
        bids := bids[bidPrice := bids[bidPrice][1..]];
        orders := orders - {bidId};
      }
      if ask.IsFilled() {
        asks := asks[askPrice := asks[askPrice][1..]];
        orders := orders - {askId};
      }
      book := book.(sides := AfterFront(s));
      FillTwice(orders0, s.bids[0], s.asks[0], quantity);
      FrontFilled(orders0, bids0, asks0, s);
    }

    /** One trade between the orders at the front of the two given levels. */
    method TradeFront(bidPrice: Price, askPrice: Price, taker: OrderId, takerSide: Side) returns (trade: Trade)
      requires Stamped() && Represented()
      requires book.sides.bids != [] && book.sides.bids[0].price == bidPrice
      requires book.sides.asks != [] && book.sides.asks[0].price == askPrice
      modifies this
      ensures Stamped() && Represented() && drained == old(drained)
      ensures book.sides == AfterFront(old(book.sides))
      ensures book.log == old(book.log) + [FrontTrade(old(book.sides), taker, takerSide)]
      ensures trade == TradeAt(instrument, book.log, |old(book.log)|)
      ensures bids == PoppedIf(old(bids), bidPrice, old(book.sides.bids)[0].remaining == FrontQuantity(old(book.sides)))
      ensures asks == PoppedIf(old(asks), askPrice, old(book.sides.asks)[0].remaining == FrontQuantity(old(book.sides)))
    {
      hide Formed, Indexes, IsLevels;
      ghost var f := FrontTrade(book.sides, taker, takerSide);
      assert (book.log + [f])[..|book.log|] == book.log;

      var bid, ask, quantity := FillFront(bidPrice, askPrice);
      var (price, makerId, makerSide) :=
        match takerSide
        case Buy => (ask.price, ask.id, Sell)
        case Sell => (bid.price, bid.id, Buy);
      var number := nextTradeSeq;
      nextTradeSeq := SaturatingInc(nextTradeSeq);
      trade := Trade(price, quantity, makerId, taker, makerSide, instrument, number);
      EmitTradeExecuted(trade, f);
    }

    /** The taker `o` has entered the book `s` and got as far as `p`. */
    ghost predicate MatchState(s: Sides, o: Order, p: Progress, log: seq<Fact>)
      reads this
    {
      && Stamped()
      && Represented()
      && book.sides == SidesAt(s, o, p)
      && book.log == log + TradeFacts(p.fills, o.id, o.side.Opposite())
      && Tracks(o, s.Of(o.side.Opposite()), p)
      && Intruder(s, o, p.makers)
    }

    /** Which fronts exist while the taker meets the makers at price `maker`. */
    lemma FrontsMeet(s: Sides, o: Order, p: Progress, log: seq<Fact>, maker: Price)
      requires MatchState(s, o, p, log) && Meets(s, o, p.makers, maker)
      ensures var bidIds, askIds := LevelAt(bids, BidPrice(o, maker)), LevelAt(asks, AskPrice(o, maker));
        bidIds != [] && askIds != [] <==> p.live && p.makers != [] && p.makers[0].price == maker
      ensures p.live && p.makers != [] && p.makers[0].price == maker ==>
        && CanMatch(o.side, o.price, p.makers)
        && book.sides.bids != [] && book.sides.bids[0].price == BidPrice(o, maker)
        && book.sides.asks != [] && book.sides.asks[0].price == AskPrice(o, maker)
    {
      LevelsMeet(s, o, p, maker);
      assert LevelAt(bids, BidPrice(o, maker)) == Ids(AtPrice(book.sides.bids, BidPrice(o, maker)));
      assert LevelAt(asks, AskPrice(o, maker)) == Ids(AtPrice(book.sides.asks, AskPrice(o, maker)));
      if p.live {
        InsertBest(o.side, s.Of(o.side), o.(remaining := p.left));
      }
    }

    /** One round at the two levels takes the taker one step further. */
    method TradeStep(bidPrice: Price, askPrice: Price, taker: OrderId, takerSide: Side,
                     ghost s: Sides, ghost o: Order, ghost p: Progress, ghost log: seq<Fact>, ghost maker: Price)
      returns (trade: Trade)
      requires o.id == taker && o.side == takerSide
      requires bidPrice == BidPrice(o, maker) && askPrice == AskPrice(o, maker)
      requires MatchState(s, o, p, log) && Meets(s, o, p.makers, maker)
      requires p.live && p.makers != [] && p.makers[0].price == maker
      requires NoEmptyLevelBut(bids, bidPrice) && NoEmptyLevelBut(asks, askPrice)
      modifies this
      ensures MatchState(s, o, StepOn(p), log) && drained == old(drained)
      ensures NoEmptyLevelBut(bids, bidPrice) && NoEmptyLevelBut(asks, askPrice)
      ensures |book.log| == |old(book.log)| + 1 && book.log[|old(book.log)|].Traded?
      ensures book.log == old(book.log) + [book.log[|old(book.log)|]]
      ensures trade == TradeAt(instrument, book.log, |old(book.log)|)
      ensures |book.sides.bids| + |book.sides.asks| < |old(book.sides.bids)| + |old(book.sides.asks)|
    {
      hide Formed, Indexes, IsLevels, Intruder, Tracks;
      FrontsMeet(s, o, p, log, maker);
      StepTracks(o, s.Of(o.side.Opposite()), p);
      StepIntrudes(s, o, p);
      StepSides(s, o, p);
      trade := TradeFront(bidPrice, askPrice, taker, takerSide);
    }

    /** Trade at the two levels until one of them is used up. */
    method MatchLevels(bidPrice: Price, askPrice: Price, taker: OrderId, takerSide: Side,
                       ghost s: Sides, ghost o: Order, ghost p0: Progress, ghost log: seq<Fact>,
                       ghost maker: Price, ghost from: nat)
      returns (trades: seq<Trade>, ghost p: Progress)
      requires o.id == taker && o.side == takerSide
      requires bidPrice == BidPrice(o, maker) && askPrice == AskPrice(o, maker)
      requires MatchState(s, o, p0, log) && Meets(s, o, p0.makers, maker)
      requires p0.live && p0.makers != [] && p0.makers[0].price == maker
      requires NoEmptyLevel(bids) && NoEmptyLevel(asks) && from <= |book.log|
      modifies this
      ensures MatchState(s, o, p, log) && drained == old(drained)
      ensures |book.sides.bids| + |book.sides.asks| < |old(book.sides.bids)| + |old(book.sides.asks)|
      ensures NoEmptyLevelBut(bids, bidPrice) && NoEmptyLevelBut(asks, askPrice) && from <= |book.log|
      ensures LevelAt(bids, bidPrice) == [] || LevelAt(asks, askPrice) == []
      ensures TradesSince(instrument, book.log, from) == old(TradesSince(instrument, book.log, from)) + trades
    {
      hide Formed, Indexes, IsLevels, Intruder, Meets, Tracks;
      hide MatchState, StepOn, SidesAt, Insert, TradeFacts, TradesSince, TradeAt, BidPrice, AskPrice;
      trades := [];
      p := p0;
      ghost var trades0 := TradesSince(instrument, book.log, from);
      ghost var size0 := |book.sides.bids| + |book.sides.asks|;
      while true
        invariant MatchState(s, o, p, log) && drained == old(drained)
        invariant Meets(s, o, p.makers, maker)
        invariant NoEmptyLevelBut(bids, bidPrice) && NoEmptyLevelBut(asks, askPrice) && from <= |book.log|
        invariant TradesSince(instrument, book.log, from) == trades0 + trades
        invariant p == p0 || |book.sides.bids| + |book.sides.asks| < size0
        decreases |book.sides.bids| + |book.sides.asks|
      {
        FrontsMeet(s, o, p, log, maker);
        if LevelAt(bids, bidPrice) == [] || LevelAt(asks, askPrice) == [] {
          break;
        }
        StepMeets(s, o, p, maker);
        ghost var before := book.log;
        var trade := TradeStep(bidPrice, askPrice, taker, takerSide, s, o, p, log, maker);
        TradesAppend(instrument, before, book.log[|before|], from);
        trades := trades + [trade];
        p := StepOn(p);
      }
    }

    /** Drop the two levels that met if they are used up. */
    method DropUsedLevels(bidPrice: Price, askPrice: Price)
      requires Stamped() && Represented() && NoEmptyLevelBut(bids, bidPrice) && NoEmptyLevelBut(asks, askPrice)
      modifies this`bids, this`asks
      ensures Stamped() && Queryable()
    {
      if LevelAt(bids, bidPrice) == [] {
        DropEmptyLevel(bids, book.sides.bids, bidPrice);
        bids := bids - {bidPrice};
      }
      if LevelAt(asks, askPrice) == [] {
        DropEmptyLevel(asks, book.sides.asks, askPrice);
        asks := asks - {askPrice};
      }
    }

    /**
     Match the order that has just joined its level. Ghosts: `s` is the book without it, `o` is
     the order, and the returned trades are those logged since `from`.
     */
    method MatchOrders(taker: OrderId, takerSide: Side, ghost s: Sides, ghost o: Order, ghost from: nat)
      returns (trades: seq<Trade>)
      requires o.id == taker && o.side == takerSide && WellFormed(s) && !s.Has(taker)
      requires Stamped() && Queryable()
      requires book.sides == SidesAt(s, o, Start(o, s.Of(takerSide.Opposite())))
      requires from <= |book.log| && TradesSince(instrument, book.log, from) == []
      modifies this
      ensures Stamped() && Queryable() && drained == old(drained)
      ensures book.sides == SidesAt(s, o, End(o, s.Of(takerSide.Opposite())))
      ensures book.log == old(book.log)
                + TradeFacts(End(o, s.Of(takerSide.Opposite())).fills, taker, takerSide.Opposite())
      ensures from <= |book.log| && trades == TradesSince(instrument, book.log, from)
    {
      hide Formed, Indexes, IsLevels, Intruder, Tracks, WellFormed;
      ghost var makers := s.Of(takerSide.Opposite());
      ghost var p := Start(o, makers);
      ghost var log := book.log;
      StartTracks(o, makers);
      StartIntrudes(s, o);
      assert log + [] == log;
      trades := [];
      while true
        invariant MatchState(s, o, p, log) && Queryable() && drained == old(drained)
        invariant from <= |book.log| && trades == TradesSince(instrument, book.log, from)
        decreases |book.sides.bids| + |book.sides.asks|
      {
        FindIndexed(orders, book.sides, taker);
        LiveMeaning(s, o, p);
        if taker !in orders || BestBid().None? || BestAsk().None? {
          break;
        }
        var bidPrice, askPrice := BestBid().value, BestAsk().value;
        TakerLeads(s, o, p);
        if bidPrice < askPrice {
          break;
        }
        MeetsFirst(s, o, p.makers);
        var more;
        more, p := MatchLevels(bidPrice, askPrice, taker, takerSide, s, o, p, log, p.makers[0].price, from);
        trades := trades + more;
        DropUsedLevels(bidPrice, askPrice);
      }
      TracksToEnd(o, makers, p);
    }

    // --- commands ---------------------------------------------------------------------------

    /** Take a live order off the maps. */
    method RemoveOrder(order: Order)
      requires Queryable() && order in book.sides.Of(order.side)
      modifies this`orders, this`bids, this`asks, this`book
      ensures Queryable()
      ensures book == old(book).(sides :=
                old(book.sides).With(order.side, Remove(old(book.sides).Of(order.side), order.id)))
    {
      hide Formed, Indexes, IsLevels, NoEmptyLevel;
      ghost var s := book.sides;
      LeaveBook(order);
      orders := orders - {order.id};
      var levels := if order.side.Buy? then bids else asks;
      ghost var levels0 := levels;
      if order.price in levels {
        levels := levels[order.price := Retain(levels[order.price], order.id)];
        if levels[order.price] == [] {
          levels := levels - {order.price};
          assert levels == levels0 - {order.price};
        }
      }
      match order.side {
        case Buy => bids := levels;
        case Sell => asks := levels;
      }
      book := book.(sides := s.With(order.side, Remove(s.Of(order.side), order.id)));
    }

    method CancelOrderInternal(id: OrderId)
      requires Stamped() && Queryable()
      modifies this
      ensures Stamped() && Queryable() && drained == old(drained)
      ensures book.sides == Cancel(old(book.sides), id).sides
      ensures book.log == old(book.log) + Cancel(old(book.sides), id).facts
    {
      hide Formed, Indexes, IsLevels, NoEmptyLevel, EventsSince;
      FindIndexed(orders, book.sides, id);
      if id !in orders {
        assert book.log + [] == book.log;
        return;
      }
      var order := orders[id];
      RemoveOrder(order);
      EmitOrderCanceled(id, order.remaining);
    }

    /** What becomes of the maps when `o` leaves. */
    lemma LeaveBook(o: Order)
      requires Queryable() && o in book.sides.Of(o.side)
      ensures var s := book.sides.With(o.side, Remove(book.sides.Of(o.side), o.id));
        var levels := if o.side.Buy? then bids else asks;
        var ids := Retain(LevelAt(levels, o.price), o.id);
        && Formed(s)
        && Indexes(orders - {o.id}, s)
        && o.price in levels
        && var levels' := if ids == [] then levels - {o.price} else levels[o.price := ids];
           NoEmptyLevel(levels') && IsLevels(levels', s.Of(o.side))
    {
      var s := book.sides;
      var q := s.Of(o.side);
      var levels := if o.side.Buy? then bids else asks;
      var ids := Retain(LevelAt(levels, o.price), o.id);
      LevelKeys(levels, q);
      LeaveIndex(orders, q, s.Of(o.side.Opposite()), o);
      LeaveLevel(levels, q, o, if ids == [] then levels - {o.price} else levels[o.price := ids]);
      RemoveKeeps(o.side, q, o.id);
      RemoveElements(q, o.id);
    }

    /** Put a new order on the maps, last at its level. */
    method JoinOrder(o: Order)
      requires Queryable() && !book.sides.Has(o.id)
      modifies this`orders, this`bids, this`asks, this`book
      ensures Queryable()
      ensures book == old(book).(sides :=
                SidesAt(old(book.sides), o, Start(o, old(book.sides).Of(o.side.Opposite()))))
    {
      hide Formed, Indexes, IsLevels, NoEmptyLevel;
      ghost var s := book.sides;
      JoinBook(o);
      orders := orders[o.id := o];
      match o.side {
        case Buy => bids := bids[o.price := LevelAt(bids, o.price) + [o.id]];
        case Sell => asks := asks[o.price := LevelAt(asks, o.price) + [o.id]];
      }
      book := book.(sides := SidesAt(s, o, Start(o, s.Of(o.side.Opposite()))));
    }

    /** The admitted order `o` is announced, rests and matches. */
    method RestAndMatch(o: Order) returns (trades: seq<Trade>)
      requires Valid() && !book.sides.Has(o.id)
      modifies this
      ensures Stamped() && Queryable() && drained == old(drained)
      ensures book.sides == SidesAt(old(book.sides), o, End(o, old(book.sides).Of(o.side.Opposite())))
      ensures book.log == old(book.log) + Enter(old(book.sides), o, false).facts
      ensures trades == TradesSince(instrument, book.log, |old(book.log)|)
    {
      hide Formed, Indexes, IsLevels, NoEmptyLevel, WellFormed, EventsSince, TradesSince, Enter, Match, TradeFacts;
      ghost var s, log := book.sides, book.log;
      EndStays(s, o);
      NoTradeYet(instrument, log, Accepted(o.id, o.side, o.price, o.initial));
      EmitOrderAccepted(o.id, o.side, o.price, o.initial);
      JoinOrder(o);
      trades := MatchOrders(o.id, o.side, s, o, |log|);
    }

    /** The admitted order `o` enters the book and, if it may not wait, what is left of it goes. */
    method EnterBook(o: Order, ioc: bool) returns (trades: seq<Trade>)
      requires Valid() && !book.sides.Has(o.id)
      modifies this
      ensures Valid() && drained == old(drained)
      ensures book.sides == Enter(old(book.sides), o, ioc).sides
      ensures book.log == old(book.log) + Enter(old(book.sides), o, ioc).facts
      ensures trades == TradesSince(instrument, book.log, |old(book.log)|)
    {
      hide Formed, Indexes, IsLevels, NoEmptyLevel, WellFormed, EventsSince, Enter, Cancel, Match;
      ghost var s, log := book.sides, book.log;
      EnterKeeps(s, o, ioc);
      EndStays(s, o);
      EndLive(s, o);
      trades := RestAndMatch(o);
      FindIndexed(orders, book.sides, o.id);
      if ioc && o.id in orders {
        ghost var left := EndLeaves(s, o);
        TradesAppend(instrument, book.log, Canceled(o.id, left), |log|);
        CancelOrderInternal(o.id);
      }
    }

    /** What becomes of the maps when `o` joins. */
    lemma JoinBook(o: Order)
      requires Queryable() && !book.sides.Has(o.id)
      ensures var s := SidesAt(book.sides, o, Start(o, book.sides.Of(o.side.Opposite())));
        var levels := if o.side.Buy? then bids else asks;
        var levels' := levels[o.price := LevelAt(levels, o.price) + [o.id]];
        && Formed(s)
        && Indexes(orders[o.id := o], s)
        && NoEmptyLevel(levels') && IsLevels(levels', s.Of(o.side))
        && s.Of(o.side.Opposite()) == book.sides.Of(o.side.Opposite())
    {
      var s := book.sides;
      var q := s.Of(o.side);
      FindIndexed(orders, s, o.id);
      HasMeaning(s, o.id);
      AbsentEverywhere(s, o.id);
      JoinIndex(orders, q, s.Of(o.side.Opposite()), o);
      JoinLevel(o.side, if o.side.Buy? then bids else asks, q, o);
      JoinFormed(q, o);
      InsertElements(o.side, q, o);
    }

    method AddOrderImpl(order: Order) returns (result: Result<seq<Trade>, PlaceReject>)
      requires Valid()
      modifies this
      ensures Valid() && drained == old(drained)
      ensures var p := Place(old(book.sides), order);
        && book.sides == p.sides
        && book.log == old(book.log) + p.facts
        && result == (match p.reject
                      case None => Ok(TradesSince(instrument, book.log, |old(book.log)|))
                      case Some(r) => Err(r))
    {
      hide Formed, Indexes, IsLevels, NoEmptyLevel, WellFormed, EventsSince, TradesSince, Enter, CanMatch, CanFullyFill;
      hide TradeCount, Saturate, SaturatingInc, Match, Shown, Depth, TradeAt;
      FindIndexed(orders, book.sides, order.id);
      var o := order;
      var ioc := order.kind == FillAndKill || order.kind == Market;
      if order.id in orders {
        EmitOrderRejected(order.id, PlaceReason(DuplicateOrderId));
        return Err(DuplicateOrderId);
      }
      if order.kind == PostOnly && CanTrade(order.side, order.price) {
        EmitOrderRejected(order.id, PlaceReason(PostOnlyWouldTakeLiquidity));
        return Err(PostOnlyWouldTakeLiquidity);
      }
      if order.kind == Market {
        var worst := match order.side case Buy => WorstAsk() case Sell => WorstBid();
        if worst.None? {
          EmitOrderRejected(order.id, PlaceReason(NoLiquidityForMarket));
          return Err(NoLiquidityForMarket);
        }
        o := order.ToGoodTillCancel(worst.value).value;
      }
      if order.kind == FillAndKill && !CanTrade(order.side, order.price) {
        EmitOrderRejected(order.id, PlaceReason(FillAndKillNoMatch));
        return Err(FillAndKillNoMatch);
      }
      if order.kind == FillOrKill {
        var covered := CanFill(order.side, order.price, order.initial);
        if !covered {
          EmitOrderRejected(order.id, PlaceReason(FillOrKillInsufficientLiquidity));
          return Err(FillOrKillInsufficientLiquidity);
        }
      }
      var trades := EnterBook(o, ioc);
      return Ok(trades);
    }

    /** `result` is what the reference book returns for `a`, and the book is the reference's. */
    twostate predicate Executed(a: Action, result: Output)
      reads this
    {
      && Valid()
      && drained == old(drained)
      && Execute(instrument, old(book), a) == (book, result)
    }

    method AddOrder(order: Order) returns (result: Result<seq<Trade>, PlaceReject>)
      requires Valid()
      modifies this
      ensures Executed(Action.PlaceOrder(order), PlaceOutput(result))
    {
      hide Formed, Indexes, IsLevels, NoEmptyLevel, WellFormed, EventsSince, Place;
      hide TradesSince, TradeCount, Saturate, Cancel, CancelAll, Modify;
      ghost var log := book.log;
      var before := TopOfBookSnapshot();
      result := AddOrderImpl(order);
      TopIsNoTrade(instrument, log, book.log, before, book.sides);
      EmitTopOfBookIfChanged(before);
    }

    method CancelOrder(id: OrderId) returns (cancelled: bool)
      requires Valid()
      modifies this
      ensures Executed(Action.CancelOrder(id), CancelOutput(cancelled))
    {
      hide Formed, Indexes, IsLevels, NoEmptyLevel, EventsSince, WellFormed, Cancel;
      hide TradesSince, TradeCount, Saturate, CancelAll, Place, Modify;
      var before := TopOfBookSnapshot();
      FindIndexed(orders, book.sides, id);
      CancelKeeps(book.sides, id);
      CancelCounts(book.sides, id);
      if id in orders {
        CancelOrderInternal(id);
        cancelled := true;
      } else {
        assert book.log + [] == book.log;
        cancelled := false;
      }
      EmitTopOfBookIfChanged(before);
    }

    method CancelOrders(ids: seq<OrderId>) returns (cancelled: nat, notFound: nat)
      requires Valid()
      modifies this
      ensures Executed(Action.CancelOrders(ids), CancelsOutput(cancelled, notFound))
    {
      hide Formed, Indexes, IsLevels, NoEmptyLevel, EventsSince, WellFormed, Cancel, TradeCount, Saturate;
      ghost var b := book;
      var before := TopOfBookSnapshot();
      cancelled, notFound := 0, 0;
      assert b.log + [] == b.log;
      for i := 0 to |ids|
        invariant Stamped() && Queryable() && WellFormed(book.sides) && drained == old(drained)
        invariant var c := CancelAll(b.sides, ids[..i]);
          c == Canceling(book.sides, c.facts, cancelled, notFound) && book.log == b.log + c.facts
      {
        assert ids[..i + 1][..i] == ids[..i];
        FindIndexed(orders, book.sides, ids[i]);
        CancelKeeps(book.sides, ids[i]);
        CancelCounts(book.sides, ids[i]);
        if ids[i] in orders {
          CancelOrderInternal(ids[i]);
          cancelled := cancelled + 1;
        } else {
          assert book.log + [] == book.log;
          notFound := notFound + 1;
        }
      }
      assert ids[..|ids|] == ids;
      EmitTopOfBookIfChanged(before);
    }

    method ModifyOrderImpl(m: OrderModify) returns (result: Result<seq<Trade>, ModifyReject>)
      requires Valid()
      modifies this
      ensures Valid() && drained == old(drained)
      ensures var r := Modify(old(book.sides), m);
        && book.sides == r.sides
        && book.log == old(book.log) + r.facts
        && result == (match r.reject
                      case None => Ok(TradesSince(instrument, book.log, |old(book.log)|))
                      case Some(e) => Err(e))
    {
      hide Formed, Indexes, IsLevels, NoEmptyLevel, EventsSince, WellFormed;
      hide Cancel, Place, TradesSince, TradeCount, Saturate;
      FindIndexed(orders, book.sides, m.id);
      if m.id !in orders {
        EmitOrderRejected(m.id, OrderNotFound);
        return Err(ModifyNotFound);
      }
      if orders[m.id].side != m.side {
        EmitOrderRejected(m.id, SideChangeNotAllowed);
        return Err(ModifySideChange);
      }
      var kind := orders[m.id].kind;
      CancelKeeps(book.sides, m.id);
      ghost var log, f := book.log, CancelFact(book.sides, m.id);
      NoTradeYet(instrument, log, f);
      CancelCounts(book.sides, m.id);
      CancelOrderInternal(m.id);
      var placed := AddOrderImpl(m.Modify(kind));
      TradesShift(instrument, book.log, |log|);
      return match placed case Ok(trades) => Ok(trades) case Err(r) => Err(PlaceRejected(r));
    }

    method ModifyOrder(m: OrderModify) returns (result: Result<seq<Trade>, ModifyReject>)
      requires Valid()
      modifies this
      ensures Executed(Action.ModifyOrder(m), ModifyOutput(result))
    {
      hide Formed, Indexes, IsLevels, NoEmptyLevel, WellFormed, EventsSince, Modify;
      hide TradesSince, TradeCount, Saturate, Cancel, CancelAll, Place;
      ghost var log := book.log;
      var before := TopOfBookSnapshot();
      result := ModifyOrderImpl(m);
      TopIsNoTrade(instrument, log, book.log, before, book.sides);
      EmitTopOfBookIfChanged(before);
    }
  }
}
