/** The exchange's own vocabulary: orders, commands and events, with no wire format. */
module ExchangeTypes {

  datatype Option<+T> = None | Some(value: T)

  type Price = int
  type Quantity = nat
  type InstrumentId = nat
  type AccountId = nat
  type ClientOrderId = nat
  type ExchangeOrderId = nat

  datatype Side = Buy | Sell {
    function Opposite(): Side {
      if Buy? then Sell else Buy
    }
  }

  datatype OrderType = Limit

  datatype TimeInForce = GTC | IOC | FOK

  datatype RejectReason =
    | NoReason
    | InvalidPrice
    | InvalidQuantity
    | DuplicateOrderId
    | UnknownOrderId
    | InvalidInstrument
    | InsufficientLiquidity
    | InvalidReplacement
    | InternalError
    | InsufficientFunds
    | InsufficientPosition
    | OrderTooLarge
    | AccountMismatch

  /** What names a live order from outside: two accounts may use the same client order id. */
  datatype LiveKey = LiveKey(accountId: AccountId, clientOrderId: ClientOrderId)

  /** What a book stores for one resting order. */
  datatype BookOrder = BookOrder(
    exchangeOrderId: ExchangeOrderId,
    clientOrderId: ClientOrderId,
    accountId: AccountId,
    price: Price,
    remainingQuantity: Quantity,
    side: Side,
    timeInForce: TimeInForce)
  {
    function Key(): LiveKey {
      LiveKey(accountId, clientOrderId)
    }
  }

  /** The complete form of an order: on its way to the book, and in snapshots. */
  datatype RestingOrder = RestingOrder(
    exchangeOrderId: ExchangeOrderId,
    clientOrderId: ClientOrderId,
    accountId: AccountId,
    price: Price,
    originalQuantity: Quantity,
    remainingQuantity: Quantity,
    orderSequence: nat,
    instrumentId: InstrumentId,
    side: Side,
    timeInForce: TimeInForce)
  {
    function Key(): LiveKey {
      LiveKey(accountId, clientOrderId)
    }

    function ToBookOrder(): BookOrder {
      BookOrder(exchangeOrderId, clientOrderId, accountId, price, remainingQuantity, side, timeInForce)
    }
  }

  datatype Command =
    | NewOrder(commandSequence: nat, accountId: AccountId, clientOrderId: ClientOrderId, instrumentId: InstrumentId,
               side: Side, price: Price, quantity: Quantity, orderType: OrderType, timeInForce: TimeInForce)
    | CancelOrder(commandSequence: nat, accountId: AccountId, clientOrderId: ClientOrderId, instrumentId: InstrumentId)
    | ReplaceOrder(commandSequence: nat, accountId: AccountId, originalClientOrderId: ClientOrderId,
                   newClientOrderId: ClientOrderId, instrumentId: InstrumentId, newPrice: Price, newQuantity: Quantity)

  /** One side of a trade; remainingQuantity is what is left on that order afterwards. */
  datatype Counterparty = Counterparty(
    accountId: AccountId,
    clientOrderId: ClientOrderId,
    exchangeOrderId: ExchangeOrderId,
    remainingQuantity: Quantity)
  {
    function Key(): LiveKey {
      LiveKey(accountId, clientOrderId)
    }
  }

  datatype Event =
    | OrderAccepted(eventSequence: nat, commandSequence: nat, accountId: AccountId, clientOrderId: ClientOrderId,
                    exchangeOrderId: ExchangeOrderId, instrumentId: InstrumentId, side: Side, price: Price,
                    quantity: Quantity, orderType: OrderType, timeInForce: TimeInForce)
    | OrderRejected(eventSequence: nat, commandSequence: nat, accountId: AccountId, clientOrderId: ClientOrderId,
                    instrumentId: InstrumentId, reason: RejectReason)
    | OrderCancelled(eventSequence: nat, commandSequence: nat, accountId: AccountId, clientOrderId: ClientOrderId,
                     exchangeOrderId: ExchangeOrderId, instrumentId: InstrumentId)
    | OrderReplaced(eventSequence: nat, commandSequence: nat, accountId: AccountId,
                    originalClientOrderId: ClientOrderId, newClientOrderId: ClientOrderId,
                    exchangeOrderId: ExchangeOrderId, instrumentId: InstrumentId, newPrice: Price,
                    newQuantity: Quantity)
    | TradeExecuted(eventSequence: nat, commandSequence: nat, instrumentId: InstrumentId, price: Price,
                    quantity: Quantity, aggressorSide: Side, buyer: Counterparty, seller: Counterparty)
    | BookOrderAdded(eventSequence: nat, instrumentId: InstrumentId, exchangeOrderId: ExchangeOrderId, side: Side,
                     price: Price, quantity: Quantity)
    | BookOrderReduced(eventSequence: nat, instrumentId: InstrumentId, exchangeOrderId: ExchangeOrderId, side: Side,
                       price: Price, newRemainingQuantity: Quantity)
    | BookOrderRemoved(eventSequence: nat, instrumentId: InstrumentId, exchangeOrderId: ExchangeOrderId, side: Side,
                       price: Price)

  function Min(a: nat, b: nat): nat {
    if a <= b then a else b
  }
}
