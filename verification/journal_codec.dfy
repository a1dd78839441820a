/** The command journal's frames: a 12-byte header, then a payload of fixed size for its type. */
module JournalCodec {
  import opened ExchangeTypes
  import opened ByteCodec
  import opened WireCodes

  datatype DecodeError =
    | TruncatedHeader
    | TruncatedPayload
    | InvalidReserved
    | InvalidMessageType
    | InvalidMessageSize
    | InvalidSide
    | InvalidOrderType
    | InvalidTimeInForce

  /** A journal frame is a command, or names an instrument the journaled engine traded. */
  datatype Frame =
    | CommandFrame(command: Command)
    | RegistrationFrame(instrumentId: InstrumentId)

  datatype Decoded =
    | Good(frame: Frame)
    | Bad(error: DecodeError)

  datatype Header = Header(tag: nat, payloadSize: nat, commandSequence: nat)

  datatype HeaderResult =
    | GoodHeader(header: Header)
    | BadHeader(headerError: DecodeError)

  const HEADER_SIZE: nat := 12

  const HEADER_KINDS := [U8, U8, U16, U64]

  const NEW_ORDER := 1
  const CANCEL_ORDER := 2
  const REPLACE_ORDER := 3
  const REGISTER_INSTRUMENT := 4

  predicate KnownTag(tag: int) {
    1 <= tag <= 4
  }

  function PayloadKinds(tag: int): seq<Kind>
    requires KnownTag(tag)
  {
    if tag == NEW_ORDER then [U64, U64, U32, U8, I64, U64, U8, U8]
    else if tag == CANCEL_ORDER then [U64, U64, U32]
    else if tag == REPLACE_ORDER then [U64, U64, U64, U32, I64, U64]
    else [U32]
  }

  function PayloadSize(tag: int): nat
    requires KnownTag(tag)
  {
    if tag == NEW_ORDER then 39
    else if tag == CANCEL_ORDER then 20
    else if tag == REPLACE_ORDER then 44
    else 4
  }

  lemma Sizes(tag: int)
    requires KnownTag(tag)
    ensures WidthOf(PayloadKinds(tag)) == PayloadSize(tag) && WidthOf(HEADER_KINDS) == HEADER_SIZE
  {
    assert WidthOf([U64, U64, U32, U8, I64, U64, U8, U8]) == 39;
    assert WidthOf([U64, U64, U32]) == 20;
    assert WidthOf([U64, U64, U64, U32, I64, U64]) == 44;
    assert WidthOf([U32]) == 4;
    assert WidthOf([U8, U8, U16, U64]) == 12;
  }

  // ---------- frames as records ----------

  function TagOf(frame: Frame): (tag: nat)
    ensures KnownTag(tag)
  {
    match frame
    case CommandFrame(NewOrder(_, _, _, _, _, _, _, _, _)) => NEW_ORDER
    case CommandFrame(CancelOrder(_, _, _, _)) => CANCEL_ORDER
    case CommandFrame(ReplaceOrder(_, _, _, _, _, _, _)) => REPLACE_ORDER
    case RegistrationFrame(_) => REGISTER_INSTRUMENT
  }

  /** Registration consumes no sequence number; its header carries 0. */
  function SequenceOf(frame: Frame): nat {
    if frame.CommandFrame? then frame.command.commandSequence else 0
  }

  function PayloadOf(frame: Frame): (values: seq<int>)
    ensures |values| == |PayloadKinds(TagOf(frame))|
  {
    match frame
    case CommandFrame(NewOrder(_, a, cid, id, side, price, quantity, t, tif)) =>
      [a, cid, id, SideCode(side), price, quantity, OrderTypeCode(t), TimeInForceCode(tif)]
    case CommandFrame(CancelOrder(_, a, cid, id)) => [a, cid, id]
    case CommandFrame(ReplaceOrder(_, a, original, cid, id, price, quantity)) => [a, original, cid, id, price, quantity]
    case RegistrationFrame(id) => [id]
  }

  /** Every field fits its place on the wire. */
  predicate InRange(frame: Frame) {
    InKind(U64, SequenceOf(frame)) && InKinds(PayloadKinds(TagOf(frame)), PayloadOf(frame))
  }

  /** The frame that a well-formed payload spells, or what is wrong with it. */
  function FromPayload(tag: int, commandSequence: nat, v: seq<int>): Decoded
    requires KnownTag(tag) && InKinds(PayloadKinds(tag), v)
  {
    if tag == NEW_ORDER then
      assert InKind(U64, v[0]) && InKind(U64, v[1]) && InKind(U32, v[2]) && InKind(U64, v[5]);
      if SideFrom(v[3]).None? then Bad(InvalidSide)
      else if OrderTypeFrom(v[6]).None? then Bad(InvalidOrderType)
      else if TimeInForceFrom(v[7]).None? then Bad(InvalidTimeInForce)
      else Good(CommandFrame(NewOrder(commandSequence, v[0], v[1], v[2], SideFrom(v[3]).value, v[4], v[5],
                                      OrderTypeFrom(v[6]).value, TimeInForceFrom(v[7]).value)))
    else if tag == CANCEL_ORDER then
      assert InKind(U64, v[0]) && InKind(U64, v[1]) && InKind(U32, v[2]);
      Good(CommandFrame(CancelOrder(commandSequence, v[0], v[1], v[2])))
    else if tag == REPLACE_ORDER then
      assert InKind(U64, v[0]) && InKind(U64, v[1]) && InKind(U64, v[2]) && InKind(U32, v[3]) && InKind(U64, v[5]);
      Good(CommandFrame(ReplaceOrder(commandSequence, v[0], v[1], v[2], v[3], v[4], v[5])))
    else
      assert InKind(U32, v[0]);
      Good(RegistrationFrame(v[0]))
  }

  function HeaderOf(frame: Frame): (values: seq<int>)
  {
    [TagOf(frame), 0, PayloadSize(TagOf(frame)), SequenceOf(frame)]
  }

  function Encode(frame: Frame): (s: Bytes)
    requires InRange(frame)
    ensures |s| == HEADER_SIZE + PayloadSize(TagOf(frame))
  {
    Sizes(TagOf(frame));
    EncodeFields(HEADER_KINDS, HeaderOf(frame)) + EncodeFields(PayloadKinds(TagOf(frame)), PayloadOf(frame))
  }

  // ---------- decoding ----------

  function DecodeHeader(s: Bytes): (r: HeaderResult)
    ensures r.GoodHeader? ==> |s| >= HEADER_SIZE && KnownTag(r.header.tag)
  {
    if |s| < HEADER_SIZE then BadHeader(TruncatedHeader)
    else
      Sizes(NEW_ORDER);
      var h := DecodeFields(HEADER_KINDS, s[..HEADER_SIZE]);
      RecordReverse(HEADER_KINDS, s[..HEADER_SIZE]);
      assert InKind(U8, h[0]) && InKind(U16, h[2]) && InKind(U64, h[3]);
      if h[1] != 0 then BadHeader(InvalidReserved)
      else if !KnownTag(h[0]) then BadHeader(InvalidMessageType)
      else GoodHeader(Header(h[0], h[2], h[3]))
  }

  function Decode(s: Bytes): Decoded {
    var r := DecodeHeader(s);
    if r.BadHeader? then Bad(r.headerError)
    else
      var h := r.header;
      if h.payloadSize != PayloadSize(h.tag) then Bad(InvalidMessageSize)
      else if |s| < HEADER_SIZE + h.payloadSize then Bad(TruncatedPayload)
      else
        Sizes(h.tag);
        var payload := s[HEADER_SIZE..HEADER_SIZE + h.payloadSize];
        RecordReverse(PayloadKinds(h.tag), payload);
        FromPayload(h.tag, h.commandSequence, DecodeFields(PayloadKinds(h.tag), payload))
  }

  // ---------- round trips ----------

  lemma HeaderRoundTrip(frame: Frame, rest: Bytes)
    requires InRange(frame)
    ensures DecodeHeader(Encode(frame) + rest)
              == GoodHeader(Header(TagOf(frame), PayloadSize(TagOf(frame)), SequenceOf(frame)))
  {
    hide DecodeFields, EncodeFields, WidthOf;
    Sizes(TagOf(frame));
    var s := Encode(frame) + rest;
    assert s[..HEADER_SIZE] == EncodeFields(HEADER_KINDS, HeaderOf(frame));
    RecordRoundTrip(HEADER_KINDS, HeaderOf(frame));
  }

  lemma PayloadRoundTrip(frame: Frame)
    requires InRange(frame)
    ensures FromPayload(TagOf(frame), SequenceOf(frame), PayloadOf(frame)) == Good(frame)
  {
  }

  /** Decoding what was encoded gives the frame back, whatever follows it. */
  lemma DecodeEncode(frame: Frame, rest: Bytes)
    requires InRange(frame)
    ensures Decode(Encode(frame) + rest) == Good(frame)
  {
    hide DecodeFields, EncodeFields, WidthOf, FromPayload, PayloadOf, DecodeHeader;
    HeaderRoundTrip(frame, rest);
    PayloadRoundTrip(frame);
    Sizes(TagOf(frame));
    var s := Encode(frame) + rest;
    var payload := EncodeFields(PayloadKinds(TagOf(frame)), PayloadOf(frame));
    assert s[HEADER_SIZE..HEADER_SIZE + PayloadSize(TagOf(frame))] == payload;
    RecordRoundTrip(PayloadKinds(TagOf(frame)), PayloadOf(frame));
  }

  lemma PayloadReverse(tag: int, commandSequence: nat, v: seq<int>)
    requires KnownTag(tag) && InKinds(PayloadKinds(tag), v) && FromPayload(tag, commandSequence, v).Good?
    ensures var frame := FromPayload(tag, commandSequence, v).frame;
            && TagOf(frame) == tag && PayloadOf(frame) == v
            && SequenceOf(frame) == if tag == REGISTER_INSTRUMENT then 0 else commandSequence
  {
  }

  /** An accepted frame is spelled one way only: re-encoding it gives back the bytes it was read from, except that a
      registration's sequence field is not kept. */
  lemma EncodeDecode(s: Bytes)
    requires Decode(s).Good?
    ensures var frame := Decode(s).frame;
            && InRange(frame)
            && |s| >= |Encode(frame)|
            && (frame.CommandFrame? || DecodeHeader(s).header.commandSequence == 0 ==>
                  Encode(frame) == s[..|Encode(frame)|])
  {
    hide DecodeFields, EncodeFields, WidthOf, FromPayload, PayloadOf;
    var h := DecodeHeader(s).header;
    Sizes(h.tag);
    var payload := s[HEADER_SIZE..HEADER_SIZE + h.payloadSize];
    RecordReverse(HEADER_KINDS, s[..HEADER_SIZE]);
    RecordReverse(PayloadKinds(h.tag), payload);
    PayloadReverse(h.tag, h.commandSequence, DecodeFields(PayloadKinds(h.tag), payload));
    var frame := Decode(s).frame;
    assert DecodeFields(HEADER_KINDS, s[..HEADER_SIZE]) == [h.tag, 0, h.payloadSize, h.commandSequence];
    assert s[..HEADER_SIZE + h.payloadSize] == s[..HEADER_SIZE] + payload;
  }
}
