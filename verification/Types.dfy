/** The vocabulary of the matching engine: orders, commands, outputs and events. */
module Types {

  /** One past the largest `u32`. */
  const U32_RANGE: nat := 0x1_0000_0000

  /** The largest `u64`; the sequence counters saturate here. */
  const U64_MAX: nat := 0xFFFF_FFFF_FFFF_FFFF

  // Prices and identifiers are only stored and compared, so their width plays no role.
  type Price = int
  type OrderId = nat
  type InstrumentId = nat

  /** A `u32` quantity. */
  type Quantity = q: int | 0 <= q < 0x1_0000_0000

  datatype Option<+T> = None | Some(value: T)

  datatype Result<+T, +E> = Ok(value: T) | Err(error: E)

  datatype Side = Buy | Sell {
    function Opposite(): Side { if Buy? then Sell else Buy }
  }

  datatype OrderType = Market | GoodTillCancel | FillAndKill | FillOrKill | PostOnly

  datatype OrderError = OverFill(id: OrderId) | InvalidPriceAdjustment(id: OrderId)

  /** An order is a value that its owner copies; filling it yields the updated copy. */
  datatype Order = Order(
    id: OrderId, side: Side, kind: OrderType, price: Price, initial: Quantity, remaining: Quantity)
  {
    predicate IsFilled() { remaining == 0 }

    /** Submitted orders come from constructors that set both quantities alike. */
    predicate Fresh() { remaining == initial }

    function Fill(quantity: Quantity): Result<Order, OrderError> {
      if quantity > remaining then Err(OverFill(id)) else Ok(this.(remaining := remaining - quantity))
    }

    function ToGoodTillCancel(p: Price): Result<Order, OrderError> {
      if kind != Market then Err(InvalidPriceAdjustment(id)) else Ok(this.(kind := GoodTillCancel, price := p))
    }
  }

  function NewOrder(id: OrderId, side: Side, kind: OrderType, price: Price, quantity: Quantity): Order {
    Order(id, side, kind, price, quantity, quantity)
  }

  datatype OrderModify = OrderModify(id: OrderId, side: Side, price: Price, quantity: Quantity) {
    function Modify(kind: OrderType): Order { NewOrder(id, side, kind, price, quantity) }
  }

  datatype PlaceReject =
    | DuplicateOrderId
    | PostOnlyWouldTakeLiquidity
    | NoLiquidityForMarket
    | FillAndKillNoMatch
    | FillOrKillInsufficientLiquidity

  datatype RejectReason = PlaceReason(reject: PlaceReject) | OrderNotFound | SideChangeNotAllowed

  datatype Trade = Trade(
    price: Price, quantity: Quantity, maker: OrderId, taker: OrderId, makerSide: Side,
    instrument: InstrumentId, number: nat)

  datatype Event =
    | OrderAccepted(number: nat, instrument: InstrumentId, id: OrderId, side: Side, price: Price, quantity: Quantity)
    | OrderRejected(number: nat, instrument: InstrumentId, id: OrderId, reason: RejectReason)
    | OrderCanceled(number: nat, instrument: InstrumentId, id: OrderId, remaining: Quantity)
    | TradeExecuted(number: nat, instrument: InstrumentId, trade: Trade)
    | TopOfBookUpdated(number: nat, instrument: InstrumentId, bid: Option<Price>, ask: Option<Price>)

  /** What an event says, without the book's identity and sequence numbers. */
  datatype Fact =
    | Accepted(id: OrderId, side: Side, price: Price, quantity: Quantity)
    | Rejected(id: OrderId, reason: RejectReason)
    | Canceled(id: OrderId, remaining: Quantity)
    | Traded(price: Price, quantity: Quantity, maker: OrderId, taker: OrderId, makerSide: Side)
    | TopOfBook(bid: Option<Price>, ask: Option<Price>)

  datatype Action =
    | PlaceOrder(order: Order)
    | CancelOrder(id: OrderId)
    | CancelOrders(ids: seq<OrderId>)
    | ModifyOrder(change: OrderModify)

  datatype Command = Command(instrument: InstrumentId, action: Action)

  datatype ModifyReject = ModifyNotFound | ModifySideChange | PlaceRejected(reject: PlaceReject)

  datatype Output =
    | PlaceOutput(placed: Result<seq<Trade>, PlaceReject>)
    | CancelOutput(cancelled: bool)
    | CancelsOutput(count: nat, notFound: nat)
    | ModifyOutput(modified: Result<seq<Trade>, ModifyReject>)

  /** One row of the depth snapshot. */
  datatype LevelInfo = LevelInfo(price: Price, quantity: Quantity)

  function Min(a: int, b: int): int { if a <= b then a else b }

  /** `u64::saturating_add(1)`. */
  function SaturatingInc(n: nat): nat { if n < U64_MAX then n + 1 else U64_MAX }
}
