/** Enumerations as they go on the wire: one byte each. */
module WireCodes {
  import opened ExchangeTypes

  function SideCode(side: Side): nat {
    if side.Buy? then 0 else 1
  }

  function SideFrom(n: int): (side: Option<Side>)
    ensures side.Some? <==> n == 0 || n == 1
    ensures side.Some? ==> SideCode(side.value) == n
  {
    if n == 0 then Some(Buy) else if n == 1 then Some(Sell) else None
  }

  function OrderTypeCode(t: OrderType): nat {
    0
  }

  function OrderTypeFrom(n: int): (t: Option<OrderType>)
    ensures t.Some? <==> n == 0
  {
    if n == 0 then Some(Limit) else None
  }

  function TimeInForceCode(t: TimeInForce): nat {
    match t
    case GTC => 0
    case IOC => 1
    case FOK => 2
  }

  function TimeInForceFrom(n: int): (t: Option<TimeInForce>)
    ensures t.Some? <==> 0 <= n <= 2
    ensures t.Some? ==> TimeInForceCode(t.value) == n
  {
    if n == 0 then Some(GTC) else if n == 1 then Some(IOC) else if n == 2 then Some(FOK) else None
  }

  function ReasonCode(r: RejectReason): nat {
    match r
    case NoReason => 0
    case InvalidPrice => 1
    case InvalidQuantity => 2
    case DuplicateOrderId => 3
    case UnknownOrderId => 4
    case InvalidInstrument => 5
    case InsufficientLiquidity => 6
    case InvalidReplacement => 7
    case InternalError => 8
    case InsufficientFunds => 9
    case InsufficientPosition => 10
    case OrderTooLarge => 11
    case AccountMismatch => 12
  }

  const ALL_REASONS := [NoReason, InvalidPrice, InvalidQuantity, DuplicateOrderId, UnknownOrderId, InvalidInstrument,
                        InsufficientLiquidity, InvalidReplacement, InternalError, InsufficientFunds,
                        InsufficientPosition, OrderTooLarge, AccountMismatch]

  function ReasonFrom(n: int): (r: Option<RejectReason>)
    ensures r.Some? <==> 0 <= n <= 12
    ensures r.Some? ==> ReasonCode(r.value) == n
  {
    if 0 <= n <= 12 then Some(ALL_REASONS[n]) else None
  }

  lemma ReasonRoundTrip(r: RejectReason)
    ensures ReasonFrom(ReasonCode(r)) == Some(r)
  {
  }
}
