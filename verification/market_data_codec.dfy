/** The market-data feed's frames: a 20-byte header carrying sequence and timestamp, then a payload of fixed size for
    its type. */
module MarketDataCodec {
  import opened ExchangeTypes
  import opened ByteCodec
  import opened WireCodes
  import opened FeedModel

  datatype DecodeError =
    | TruncatedHeader
    | TruncatedPayload
    | InvalidReserved
    | InvalidMessageType
    | InvalidMessageSize
    | InvalidSide

  datatype Decoded =
    | Good(message: FeedMessage)
    | Bad(error: DecodeError)

  datatype Header = Header(tag: nat, payloadSize: nat, sequence: nat, timestamp: nat)

  datatype HeaderResult =
    | GoodHeader(header: Header)
    | BadHeader(headerError: DecodeError)

  const HEADER_SIZE: nat := 20

  const HEADER_KINDS := [U8, U8, U16, U64, U64]

  predicate KnownTag(tag: int) {
    1 <= tag <= 5
  }

  function PayloadKinds(tag: int): seq<Kind>
    requires KnownTag(tag)
  {
    match tag
    case 1 => [U64, U32, I64, U64, U8]
    case 2 => [U64, U32]
    case 3 => [U64, U32, I64, U64]
    case 4 => [U32, I64, U64, U8]
    case _ => [U32]
  }

  function PayloadSize(tag: int): nat
    requires KnownTag(tag)
  {
    match tag
    case 1 => 29
    case 2 => 12
    case 3 => 28
    case 4 => 21
    case _ => 4
  }

  lemma Sizes(tag: int)
    requires KnownTag(tag)
    ensures WidthOf(PayloadKinds(tag)) == PayloadSize(tag) && WidthOf(HEADER_KINDS) == HEADER_SIZE
  {
    assert WidthOf([U64, U32, I64, U64, U8]) == 29;
    assert WidthOf([U64, U32]) == 12;
    assert WidthOf([U64, U32, I64, U64]) == 28;
    assert WidthOf([U32, I64, U64, U8]) == 21;
    assert WidthOf([U32]) == 4;
    assert WidthOf([U8, U8, U16, U64, U64]) == 20;
  }

  // ---------- messages as records ----------

  function TagOf(m: FeedMessage): (tag: nat)
    ensures KnownTag(tag)
  {
    match m
    case AddOrder(_, _, _, _, _, _, _) => 1
    case DeleteOrder(_, _, _, _) => 2
    case ModifyOrder(_, _, _, _, _, _) => 3
    case Trade(_, _, _, _, _, _) => 4
    case ClearBook(_, _, _) => 5
  }

  function PayloadOf(m: FeedMessage): (values: seq<int>)
    ensures |values| == |PayloadKinds(TagOf(m))|
  {
    match m
    case AddOrder(_, _, oid, id, price, quantity, side) => [oid, id, price, quantity, SideCode(side)]
    case DeleteOrder(_, _, oid, id) => [oid, id]
    case ModifyOrder(_, _, oid, id, price, quantity) => [oid, id, price, quantity]
    case Trade(_, _, id, price, quantity, side) => [id, price, quantity, SideCode(side)]
    case ClearBook(_, _, id) => [id]
  }

  /** Every field fits its place on the wire. */
  predicate InRange(m: FeedMessage) {
    InKind(U64, m.sequence) && InKind(U64, m.timestamp) && InKinds(PayloadKinds(TagOf(m)), PayloadOf(m))
  }

  /** The message that a well-formed payload spells, or what is wrong with it. */
  function FromPayload(tag: int, sequence: nat, timestamp: nat, v: seq<int>): Decoded
    requires KnownTag(tag) && InKinds(PayloadKinds(tag), v)
  {
    assert forall i :: 0 <= i < |v| && PayloadKinds(tag)[i] != I64 ==> InKind(PayloadKinds(tag)[i], v[i]) && v[i] >= 0;
    match tag
    case 1 =>
      if SideFrom(v[4]).None? then Bad(InvalidSide)
      else Good(AddOrder(sequence, timestamp, v[0], v[1], v[2], v[3], SideFrom(v[4]).value))
    case 2 => Good(DeleteOrder(sequence, timestamp, v[0], v[1]))
    case 3 => Good(ModifyOrder(sequence, timestamp, v[0], v[1], v[2], v[3]))
    case 4 =>
      if SideFrom(v[3]).None? then Bad(InvalidSide)
      else Good(Trade(sequence, timestamp, v[0], v[1], v[2], SideFrom(v[3]).value))
    case _ => Good(ClearBook(sequence, timestamp, v[0]))
  }

  function HeaderOf(m: FeedMessage): seq<int> {
    [TagOf(m), 0, PayloadSize(TagOf(m)), m.sequence, m.timestamp]
  }

  function Encode(m: FeedMessage): (s: Bytes)
    requires InRange(m)
    ensures |s| == HEADER_SIZE + PayloadSize(TagOf(m))
  {
    Sizes(TagOf(m));
    EncodeFields(HEADER_KINDS, HeaderOf(m)) + EncodeFields(PayloadKinds(TagOf(m)), PayloadOf(m))
  }

  // ---------- decoding ----------

  function DecodeHeader(s: Bytes): (r: HeaderResult)
    ensures r.GoodHeader? ==> |s| >= HEADER_SIZE && KnownTag(r.header.tag)
  {
    if |s| < HEADER_SIZE then BadHeader(TruncatedHeader)
    else
      Sizes(1);
      var h := DecodeFields(HEADER_KINDS, s[..HEADER_SIZE]);
      RecordReverse(HEADER_KINDS, s[..HEADER_SIZE]);
      assert InKind(U8, h[0]) && InKind(U16, h[2]) && InKind(U64, h[3]) && InKind(U64, h[4]);
      if h[1] != 0 then BadHeader(InvalidReserved)
      else if !KnownTag(h[0]) then BadHeader(InvalidMessageType)
      else GoodHeader(Header(h[0], h[2], h[3], h[4]))
  }

  function Decode(s: Bytes): Decoded {
    var r := DecodeHeader(s);
    if r.BadHeader? then Bad(r.headerError)
    else
      var h := r.header;
      if h.payloadSize != PayloadSize(h.tag) then Bad(InvalidMessageSize)
      else if |s| < HEADER_SIZE + h.payloadSize then Bad(TruncatedPayload)
      else
        Sizes(h.tag);
        var payload := s[HEADER_SIZE..HEADER_SIZE + h.payloadSize];
        RecordReverse(PayloadKinds(h.tag), payload);
        FromPayload(h.tag, h.sequence, h.timestamp, DecodeFields(PayloadKinds(h.tag), payload))
  }

  // ---------- round trips ----------

  lemma HeaderRoundTrip(m: FeedMessage, rest: Bytes)
    requires InRange(m)
    ensures DecodeHeader(Encode(m) + rest)
              == GoodHeader(Header(TagOf(m), PayloadSize(TagOf(m)), m.sequence, m.timestamp))
  {
    hide DecodeFields, EncodeFields, WidthOf;
    Sizes(TagOf(m));
    var s := Encode(m) + rest;
    assert s[..HEADER_SIZE] == EncodeFields(HEADER_KINDS, HeaderOf(m));
    RecordRoundTrip(HEADER_KINDS, HeaderOf(m));
  }

  lemma PayloadRoundTrip(m: FeedMessage)
    requires InRange(m)
    ensures FromPayload(TagOf(m), m.sequence, m.timestamp, PayloadOf(m)) == Good(m)
  {
  }

  /** Decoding what was encoded gives the message back, whatever follows it. */
  lemma DecodeEncode(m: FeedMessage, rest: Bytes)
    requires InRange(m)
    ensures Decode(Encode(m) + rest) == Good(m)
  {
    hide DecodeFields, EncodeFields, WidthOf, FromPayload, PayloadOf, DecodeHeader;
    HeaderRoundTrip(m, rest);
    PayloadRoundTrip(m);
    Sizes(TagOf(m));
    var s := Encode(m) + rest;
    var payload := EncodeFields(PayloadKinds(TagOf(m)), PayloadOf(m));
    assert s[HEADER_SIZE..HEADER_SIZE + PayloadSize(TagOf(m))] == payload;
    RecordRoundTrip(PayloadKinds(TagOf(m)), PayloadOf(m));
  }

  lemma PayloadReverse(tag: int, sequence: nat, timestamp: nat, v: seq<int>)
    requires KnownTag(tag) && InKinds(PayloadKinds(tag), v) && FromPayload(tag, sequence, timestamp, v).Good?
    ensures var m := FromPayload(tag, sequence, timestamp, v).message;
            TagOf(m) == tag && PayloadOf(m) == v && m.sequence == sequence && m.timestamp == timestamp
  {
  }

  /** An accepted frame is spelled one way only: re-encoding it gives back the bytes it was read from. */
  lemma EncodeDecode(s: Bytes)
    requires Decode(s).Good?
    ensures var m := Decode(s).message;
            InRange(m) && |s| >= |Encode(m)| && Encode(m) == s[..|Encode(m)|]
  {
    hide DecodeFields, EncodeFields, WidthOf, FromPayload, PayloadOf;
    var h := DecodeHeader(s).header;
    Sizes(h.tag);
    var payload := s[HEADER_SIZE..HEADER_SIZE + h.payloadSize];
    RecordReverse(HEADER_KINDS, s[..HEADER_SIZE]);
    RecordReverse(PayloadKinds(h.tag), payload);
    PayloadReverse(h.tag, h.sequence, h.timestamp, DecodeFields(PayloadKinds(h.tag), payload));
    assert DecodeFields(HEADER_KINDS, s[..HEADER_SIZE]) == [h.tag, 0, h.payloadSize, h.sequence, h.timestamp];
    assert s[..HEADER_SIZE + h.payloadSize] == s[..HEADER_SIZE] + payload;
  }
}
