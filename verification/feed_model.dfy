/** The public market-data feed: what the publisher says of each engine event, and what a subscriber's depth, by
    order id, becomes on each message. */
module FeedModel {
  import opened ExchangeTypes

  datatype FeedMessage =
    | AddOrder(sequence: nat, timestamp: nat, orderId: ExchangeOrderId, instrumentId: InstrumentId, price: Price,
               quantity: Quantity, side: Side)
    | DeleteOrder(sequence: nat, timestamp: nat, orderId: ExchangeOrderId, instrumentId: InstrumentId)
    | ModifyOrder(sequence: nat, timestamp: nat, orderId: ExchangeOrderId, instrumentId: InstrumentId,
                  newPrice: Price, newQuantity: Quantity)
    | Trade(sequence: nat, timestamp: nat, instrumentId: InstrumentId, price: Price, quantity: Quantity,
            aggressorSide: Side)
    | ClearBook(sequence: nat, timestamp: nat, instrumentId: InstrumentId)

  /** The four public events become messages; account-level events are never published. */
  function Translate(ev: Event, sequence: nat, timestamp: nat): Option<FeedMessage> {
    match ev
    case BookOrderAdded(_, id, eid, side, price, quantity) =>
      Some(AddOrder(sequence, timestamp, eid, id, price, quantity, side))
    case BookOrderReduced(_, id, eid, side, price, left) =>
      Some(ModifyOrder(sequence, timestamp, eid, id, price, left))
    case BookOrderRemoved(_, id, eid, side, price) => Some(DeleteOrder(sequence, timestamp, eid, id))
    case TradeExecuted(_, _, id, price, quantity, side, _, _) =>
      Some(Trade(sequence, timestamp, id, price, quantity, side))
    case _ => None
  }

  /** The feed for a list of events: numbered from `sequence`, each stamped by the clock. */
  function Feed(events: seq<Event>, sequence: nat, clock: nat -> nat): seq<FeedMessage> {
    if events == [] then []
    else
      var message := Translate(events[0], sequence, clock(sequence));
      if message.None? then Feed(events[1..], sequence, clock)
      else [message.value] + Feed(events[1..], sequence + 1, clock)
  }

  // ---------- a subscriber ----------

  datatype BookError = BadPrice | BadQuantity | DuplicateId | UnknownId

  /** What a subscriber knows of one resting order. */
  datatype Quote = Quote(side: Side, price: Price, quantity: Quantity)

  type Depth = map<ExchangeOrderId, Quote>

  datatype DepthResult = DepthResult(depth: Depth, error: Option<BookError>)

  function Added(depth: Depth, id: ExchangeOrderId, price: Price, quantity: Quantity, side: Side): DepthResult {
    if price <= 0 then DepthResult(depth, Some(BadPrice))
    else if quantity == 0 then DepthResult(depth, Some(BadQuantity))
    else if id in depth then DepthResult(depth, Some(DuplicateId))
    else DepthResult(depth[id := Quote(side, price, quantity)], None)
  }

  function Deleted(depth: Depth, id: ExchangeOrderId): DepthResult {
    if id !in depth then DepthResult(depth, Some(UnknownId)) else DepthResult(depth - {id}, None)
  }

  function Modified(depth: Depth, id: ExchangeOrderId, price: Price, quantity: Quantity): DepthResult {
    if price <= 0 then DepthResult(depth, Some(BadPrice))
    else if quantity == 0 then DepthResult(depth, Some(BadQuantity))
    else if id !in depth then DepthResult(depth, Some(UnknownId))
    else DepthResult(depth[id := Quote(depth[id].side, price, quantity)], None)
  }

  /** One message applied to the book of the instrument it names. */
  function AppliedTo(depth: Depth, message: FeedMessage): DepthResult {
    match message
    case AddOrder(_, _, id, _, price, quantity, side) => Added(depth, id, price, quantity, side)
    case DeleteOrder(_, _, id, _) => Deleted(depth, id)
    case ModifyOrder(_, _, id, _, price, quantity) => Modified(depth, id, price, quantity)
    case Trade(_, _, _, _, _, _) => DepthResult(depth, None)
    case ClearBook(_, _, _) => DepthResult(map[], None)
  }

  /** Every instrument's depth; an instrument not seen yet has an empty one. */
  type Depths = map<InstrumentId, Depth>

  function DepthOf(depths: Depths, id: InstrumentId): Depth {
    if id in depths then depths[id] else map[]
  }

  /** The whole feed applied, and how many messages were refused. */
  function Followed(depths: Depths, messages: seq<FeedMessage>): (Depths, nat)
    decreases |messages|
  {
    if messages == [] then (depths, 0)
    else
      var id := messages[0].instrumentId;
      var r := AppliedTo(DepthOf(depths, id), messages[0]);
      var rest := Followed(depths[id := r.depth], messages[1..]);
      (rest.0, rest.1 + if r.error.Some? then 1 else 0)
  }

  /** What a subscriber should know of an order the exchange holds. */
  function QuoteOf(o: BookOrder): Quote {
    Quote(o.side, o.price, o.remainingQuantity)
  }
}
