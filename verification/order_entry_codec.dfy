/** The order-entry stream's messages: a 3-byte header that only frames, then a payload of fixed size for its type. */
module OrderEntryCodec {
  import opened ExchangeTypes
  import opened ByteCodec
  import opened WireCodes

  datatype DecodeError =
    | TruncatedHeader
    | TruncatedPayload
    | InvalidMessageType
    | InvalidMessageSize
    | InvalidSide
    | InvalidOrderType
    | InvalidTimeInForce
    | InvalidRejectReason

  datatype Message =
    | NewOrderRequest(accountId: AccountId, clientOrderId: ClientOrderId, instrumentId: InstrumentId, side: Side,
                      price: Price, quantity: Quantity, orderType: OrderType, timeInForce: TimeInForce)
    | CancelRequest(accountId: AccountId, clientOrderId: ClientOrderId, instrumentId: InstrumentId)
    | ReplaceRequest(accountId: AccountId, originalClientOrderId: ClientOrderId, newClientOrderId: ClientOrderId,
                     instrumentId: InstrumentId, newPrice: Price, newQuantity: Quantity)
    | Accepted(accountId: AccountId, clientOrderId: ClientOrderId, exchangeOrderId: ExchangeOrderId,
               instrumentId: InstrumentId, side: Side, price: Price, quantity: Quantity, orderType: OrderType,
               timeInForce: TimeInForce)
    | Rejected(accountId: AccountId, clientOrderId: ClientOrderId, instrumentId: InstrumentId, reason: RejectReason)
    | Cancelled(accountId: AccountId, clientOrderId: ClientOrderId, exchangeOrderId: ExchangeOrderId,
                instrumentId: InstrumentId)
    | Replaced(accountId: AccountId, originalClientOrderId: ClientOrderId, newClientOrderId: ClientOrderId,
               exchangeOrderId: ExchangeOrderId, instrumentId: InstrumentId, newPrice: Price, newQuantity: Quantity)
    | TradeReport(accountId: AccountId, clientOrderId: ClientOrderId, exchangeOrderId: ExchangeOrderId,
                  instrumentId: InstrumentId, price: Price, quantity: Quantity, remainingQuantity: Quantity)

  datatype Decoded =
    | Good(message: Message)
    | Bad(error: DecodeError)

  datatype Header = Header(tag: nat, payloadSize: nat)

  datatype HeaderResult =
    | GoodHeader(header: Header)
    | BadHeader(headerError: DecodeError)

  const HEADER_SIZE: nat := 3

  const HEADER_KINDS := [U8, U16]

  predicate KnownTag(tag: int) {
    1 <= tag <= 3 || 10 <= tag <= 14
  }

  function PayloadKinds(tag: int): seq<Kind>
    requires KnownTag(tag)
  {
    match tag
    case 1 => [U64, U64, U32, U8, I64, U64, U8, U8]
    case 2 => [U64, U64, U32]
    case 3 => [U64, U64, U64, U32, I64, U64]
    case 10 => [U64, U64, U64, U32, U8, I64, U64, U8, U8]
    case 11 => [U64, U64, U32, U8]
    case 12 => [U64, U64, U64, U32]
    case 13 => [U64, U64, U64, U64, U32, I64, U64]
    case _ => [U64, U64, U64, U32, I64, U64, U64]
  }

  function PayloadSize(tag: int): nat
    requires KnownTag(tag)
  {
    match tag
    case 1 => 39
    case 2 => 20
    case 3 => 44
    case 10 => 47
    case 11 => 21
    case 12 => 28
    case 13 => 52
    case _ => 52
  }

  lemma Sizes(tag: int)
    requires KnownTag(tag)
    ensures WidthOf(PayloadKinds(tag)) == PayloadSize(tag) && WidthOf(HEADER_KINDS) == HEADER_SIZE
  {
    hide WidthOf;
    RequestSizes();
    ReportSizes();
    ExecutionSizes();
    HeaderWidth();
  }

  lemma HeaderWidth()
    ensures WidthOf(HEADER_KINDS) == HEADER_SIZE
  {
    assert WidthOf([U8, U16]) == 3;
  }

  lemma RequestSizes()
    ensures WidthOf([U64, U64, U32, U8, I64, U64, U8, U8]) == 39
    ensures WidthOf([U64, U64, U32]) == 20
    ensures WidthOf([U64, U64, U64, U32, I64, U64]) == 44
  {
  }

  lemma ReportSizes()
    ensures WidthOf([U64, U64, U64, U32, U8, I64, U64, U8, U8]) == 47
    ensures WidthOf([U64, U64, U32, U8]) == 21
    ensures WidthOf([U64, U64, U64, U32]) == 28
  {
  }

  lemma ExecutionSizes()
    ensures WidthOf([U64, U64, U64, U64, U32, I64, U64]) == 52
    ensures WidthOf([U64, U64, U64, U32, I64, U64, U64]) == 52
  {
  }

  // ---------- messages as records ----------

  function TagOf(m: Message): (tag: nat)
    ensures KnownTag(tag)
  {
    match m
    case NewOrderRequest(_, _, _, _, _, _, _, _) => 1
    case CancelRequest(_, _, _) => 2
    case ReplaceRequest(_, _, _, _, _, _) => 3
    case Accepted(_, _, _, _, _, _, _, _, _) => 10
    case Rejected(_, _, _, _) => 11
    case Cancelled(_, _, _, _) => 12
    case Replaced(_, _, _, _, _, _, _) => 13
    case TradeReport(_, _, _, _, _, _, _) => 14
  }

  function PayloadOf(m: Message): (values: seq<int>)
    ensures |values| == |PayloadKinds(TagOf(m))|
  {
    match m
    case NewOrderRequest(a, cid, id, side, price, quantity, t, tif) =>
      [a, cid, id, SideCode(side), price, quantity, OrderTypeCode(t), TimeInForceCode(tif)]
    case CancelRequest(a, cid, id) => [a, cid, id]
    case ReplaceRequest(a, original, cid, id, price, quantity) => [a, original, cid, id, price, quantity]
    case Accepted(a, cid, eid, id, side, price, quantity, t, tif) =>
      [a, cid, eid, id, SideCode(side), price, quantity, OrderTypeCode(t), TimeInForceCode(tif)]
    case Rejected(a, cid, id, reason) => [a, cid, id, ReasonCode(reason)]
    case Cancelled(a, cid, eid, id) => [a, cid, eid, id]
    case Replaced(a, original, cid, eid, id, price, quantity) => [a, original, cid, eid, id, price, quantity]
    case TradeReport(a, cid, eid, id, price, quantity, left) => [a, cid, eid, id, price, quantity, left]
  }

  /** Every field fits its place on the wire. */
  predicate InRange(m: Message) {
    InKinds(PayloadKinds(TagOf(m)), PayloadOf(m))
  }

  /** The message that a well-formed payload spells, or what is wrong with it. */
  function FromPayload(tag: int, v: seq<int>): Decoded
    requires KnownTag(tag) && InKinds(PayloadKinds(tag), v)
  {
    assert forall i :: 0 <= i < |v| && PayloadKinds(tag)[i] != I64 ==> InKind(PayloadKinds(tag)[i], v[i]) && v[i] >= 0;
    match tag
    case 1 =>
      if SideFrom(v[3]).None? then Bad(InvalidSide)
      else if OrderTypeFrom(v[6]).None? then Bad(InvalidOrderType)
      else if TimeInForceFrom(v[7]).None? then Bad(InvalidTimeInForce)
      else Good(NewOrderRequest(v[0], v[1], v[2], SideFrom(v[3]).value, v[4], v[5], OrderTypeFrom(v[6]).value,
                                TimeInForceFrom(v[7]).value))
    case 2 => Good(CancelRequest(v[0], v[1], v[2]))
    case 3 => Good(ReplaceRequest(v[0], v[1], v[2], v[3], v[4], v[5]))
    case 10 =>
      if SideFrom(v[4]).None? then Bad(InvalidSide)
      else if OrderTypeFrom(v[7]).None? then Bad(InvalidOrderType)
      else if TimeInForceFrom(v[8]).None? then Bad(InvalidTimeInForce)
      else Good(Accepted(v[0], v[1], v[2], v[3], SideFrom(v[4]).value, v[5], v[6], OrderTypeFrom(v[7]).value,
                         TimeInForceFrom(v[8]).value))
    case 11 =>
      if ReasonFrom(v[3]).None? then Bad(InvalidRejectReason)
      else Good(Rejected(v[0], v[1], v[2], ReasonFrom(v[3]).value))
    case 12 => Good(Cancelled(v[0], v[1], v[2], v[3]))
    case 13 => Good(Replaced(v[0], v[1], v[2], v[3], v[4], v[5], v[6]))
    case _ => Good(TradeReport(v[0], v[1], v[2], v[3], v[4], v[5], v[6]))
  }

  function HeaderOf(m: Message): seq<int> {
    [TagOf(m), PayloadSize(TagOf(m))]
  }

  function Encode(m: Message): (s: Bytes)
    requires InRange(m)
    ensures |s| == HEADER_SIZE + PayloadSize(TagOf(m))
  {
    Sizes(TagOf(m));
    EncodeFields(HEADER_KINDS, HeaderOf(m)) + EncodeFields(PayloadKinds(TagOf(m)), PayloadOf(m))
  }

  // ---------- decoding ----------

  function DecodeHeader(s: Bytes): (r: HeaderResult)
    ensures r.GoodHeader? ==> |s| >= HEADER_SIZE && KnownTag(r.header.tag)
  {
    if |s| < HEADER_SIZE then BadHeader(TruncatedHeader)
    else
      Sizes(1);
      var h := DecodeFields(HEADER_KINDS, s[..HEADER_SIZE]);
      RecordReverse(HEADER_KINDS, s[..HEADER_SIZE]);
      assert InKind(U8, h[0]) && InKind(U16, h[1]);
      if !KnownTag(h[0]) then BadHeader(InvalidMessageType) else GoodHeader(Header(h[0], h[1]))
  }

  function Decode(s: Bytes): Decoded {
    var r := DecodeHeader(s);
    if r.BadHeader? then Bad(r.headerError)
    else
      var h := r.header;
      if h.payloadSize != PayloadSize(h.tag) then Bad(InvalidMessageSize)
      else if |s| < HEADER_SIZE + h.payloadSize then Bad(TruncatedPayload)
      else
        Sizes(h.tag);
        var payload := s[HEADER_SIZE..HEADER_SIZE + h.payloadSize];
        RecordReverse(PayloadKinds(h.tag), payload);
        FromPayload(h.tag, DecodeFields(PayloadKinds(h.tag), payload))
  }

  // ---------- round trips ----------

  lemma HeaderRoundTrip(m: Message, rest: Bytes)
    requires InRange(m)
    ensures DecodeHeader(Encode(m) + rest) == GoodHeader(Header(TagOf(m), PayloadSize(TagOf(m))))
  {
    hide DecodeFields, EncodeFields, WidthOf;
    Sizes(TagOf(m));
    var s := Encode(m) + rest;
    assert s[..HEADER_SIZE] == EncodeFields(HEADER_KINDS, HeaderOf(m));
    RecordRoundTrip(HEADER_KINDS, HeaderOf(m));
  }

  lemma PayloadRoundTrip(m: Message)
    requires InRange(m)
    ensures FromPayload(TagOf(m), PayloadOf(m)) == Good(m)
  {
    hide ReasonFrom, ReasonCode;
    if m.Rejected? {
      ReasonRoundTrip(m.reason);
    }
  }

  /** Decoding what was encoded gives the message back, whatever follows it. */
  lemma DecodeEncode(m: Message, rest: Bytes)
    requires InRange(m)
    ensures Decode(Encode(m) + rest) == Good(m)
  {
    hide DecodeFields, EncodeFields, WidthOf, FromPayload, PayloadOf, DecodeHeader;
    HeaderRoundTrip(m, rest);
    PayloadRoundTrip(m);
    Sizes(TagOf(m));
    var s := Encode(m) + rest;
    var payload := EncodeFields(PayloadKinds(TagOf(m)), PayloadOf(m));
    assert s[HEADER_SIZE..HEADER_SIZE + PayloadSize(TagOf(m))] == payload;
    RecordRoundTrip(PayloadKinds(TagOf(m)), PayloadOf(m));
  }

  lemma PayloadReverse(tag: int, v: seq<int>)
    requires KnownTag(tag) && InKinds(PayloadKinds(tag), v) && FromPayload(tag, v).Good?
    ensures TagOf(FromPayload(tag, v).message) == tag && PayloadOf(FromPayload(tag, v).message) == v
  {
  }

  /** An accepted message is spelled one way only: re-encoding it gives back the bytes it was read from. */
  lemma EncodeDecode(s: Bytes)
    requires Decode(s).Good?
    ensures var m := Decode(s).message;
            InRange(m) && |s| >= |Encode(m)| && Encode(m) == s[..|Encode(m)|]
  {
    hide DecodeFields, EncodeFields, WidthOf, FromPayload, PayloadOf;
    var h := DecodeHeader(s).header;
    Sizes(h.tag);
    var payload := s[HEADER_SIZE..HEADER_SIZE + h.payloadSize];
    RecordReverse(HEADER_KINDS, s[..HEADER_SIZE]);
    RecordReverse(PayloadKinds(h.tag), payload);
    PayloadReverse(h.tag, DecodeFields(PayloadKinds(h.tag), payload));
    assert DecodeFields(HEADER_KINDS, s[..HEADER_SIZE]) == [h.tag, h.payloadSize];
    assert s[..HEADER_SIZE + h.payloadSize] == s[..HEADER_SIZE] + payload;
  }
}
