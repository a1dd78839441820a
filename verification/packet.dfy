/** Several feed frames in one datagram: a 20-byte packet header, then the frames back to back. */
module Packets {
  import opened ExchangeTypes
  import opened ByteCodec
  import opened FeedModel
  import opened MarketDataCodec

  const PACKET_MAGIC: nat := 0x4D44_4831
  const PACKET_VERSION: nat := 1
  const PACKET_HEADER_SIZE: nat := 20

  const PACKET_KINDS := [U32, U16, U16, U64, U32]

  datatype PacketError =
    | TruncatedPacket
    | InvalidMagic
    | InvalidVersion
    | ZeroFrameCount
    | PayloadLengthMismatch
    | InnerFrameHeaderInvalid
    | FrameCountMismatch

  /** A frame whose content is bad does not spoil the packet: each frame carries its own result. */
  datatype Unpacked =
    | Packet(packetSequence: nat, frames: seq<Decoded>)
    | BadPacket(packetError: PacketError)

  predicate AllInRange(messages: seq<FeedMessage>) {
    forall i :: 0 <= i < |messages| ==> InRange(messages[i])
  }

  function EncodeAll(messages: seq<FeedMessage>): Bytes
    requires AllInRange(messages)
  {
    if messages == [] then [] else Encode(messages[0]) + EncodeAll(messages[1..])
  }

  lemma {:induction false} EncodedSize(messages: seq<FeedMessage>)
    requires AllInRange(messages)
    ensures |EncodeAll(messages)| <= 49 * |messages|
  {
    if messages != [] {
      EncodedSize(messages[1..]);
    }
  }

  function PacketHeader(packetSequence: nat, count: nat, length: nat): (values: seq<int>)
    requires InKind(U64, packetSequence)
    ensures InKinds(PACKET_KINDS, values)
  {
    [PACKET_MAGIC, PACKET_VERSION, count % 0x1_0000, packetSequence, length % 0x1_0000_0000]
  }

  /** Both lengths are cast to their fields' widths. */
  function Pack(packetSequence: nat, messages: seq<FeedMessage>): Bytes
    requires InKind(U64, packetSequence) && AllInRange(messages)
  {
    var payload := EncodeAll(messages);
    EncodeFields(PACKET_KINDS, PacketHeader(packetSequence, |messages|, |payload|)) + payload
  }

  // ---------- unpacking ----------

  datatype Walk =
    | Walked(frames: seq<Decoded>, rest: Bytes)
    | Lost

  /** The length of the frame at the front, if its header can be read and all of it is there. */
  function FrameLength(s: Bytes): (n: Option<nat>)
    ensures n.Some? ==> 0 < n.value <= |s|
  {
    var r := DecodeHeader(s);
    if r.BadHeader? || |s| < HEADER_SIZE + r.header.payloadSize then None else Some(HEADER_SIZE + r.header.payloadSize)
  }

  function WalkFrames(s: Bytes, count: nat): Walk {
    if count == 0 then Walked([], s)
    else
      var n := FrameLength(s);
      if n.None? then Lost
      else
        var rest := WalkFrames(s[n.value..], count - 1);
        if rest.Lost? then Lost else Walked([Decode(s[..n.value])] + rest.frames, rest.rest)
  }

  lemma PacketHeaderSize()
    ensures WidthOf(PACKET_KINDS) == PACKET_HEADER_SIZE
  {
  }

  function Unpack(datagram: Bytes): Unpacked {
    if |datagram| < PACKET_HEADER_SIZE then BadPacket(TruncatedPacket)
    else
      PacketHeaderSize();
      var h := DecodeFields(PACKET_KINDS, datagram[..PACKET_HEADER_SIZE]);
      RecordReverse(PACKET_KINDS, datagram[..PACKET_HEADER_SIZE]);
      assert InKind(U16, h[2]) && InKind(U64, h[3]);
      var payload := datagram[PACKET_HEADER_SIZE..];
      if h[0] != PACKET_MAGIC then BadPacket(InvalidMagic)
      else if h[1] != PACKET_VERSION then BadPacket(InvalidVersion)
      else if h[2] == 0 then BadPacket(ZeroFrameCount)
      else if |payload| != h[4] then BadPacket(PayloadLengthMismatch)
      else
        var walk := WalkFrames(payload, h[2]);
        if walk.Lost? then BadPacket(InnerFrameHeaderInvalid)
        else if walk.rest != [] then BadPacket(FrameCountMismatch)
        else Packet(h[3], walk.frames)
  }

  // ---------- round trips ----------

  function AllGood(messages: seq<FeedMessage>): (frames: seq<Decoded>)
    ensures |frames| == |messages|
  {
    seq(|messages|, i requires 0 <= i < |messages| => Good(messages[i]))
  }

  lemma FrameAtFront(m: FeedMessage, rest: Bytes)
    requires InRange(m)
    ensures var s := Encode(m) + rest;
            && FrameLength(s) == Some(|Encode(m)|)
            && s[..|Encode(m)|] == Encode(m) && s[|Encode(m)|..] == rest
            && Decode(Encode(m)) == Good(m)
  {
    hide Decode, DecodeHeader, InRange;
    HeaderRoundTrip(m, rest);
    DecodeEncode(m, []);
    assert Encode(m) + [] == Encode(m);
  }

  lemma {:induction false} WalkEncoded(messages: seq<FeedMessage>)
    requires AllInRange(messages)
    ensures WalkFrames(EncodeAll(messages), |messages|) == Walked(AllGood(messages), [])
  {
    hide Encode, Decode, InRange, FrameLength;
    if messages != [] {
      FrameAtFront(messages[0], EncodeAll(messages[1..]));
      WalkEncoded(messages[1..]);
      assert AllGood(messages) == [Good(messages[0])] + AllGood(messages[1..]);
    }
  }

  lemma {:induction false} WalkCounts(s: Bytes, count: nat)
    ensures WalkFrames(s, count).Walked? ==> |WalkFrames(s, count).frames| == count
  {
    hide Decode, FrameLength;
    if count > 0 && FrameLength(s).Some? {
      WalkCounts(s[FrameLength(s).value..], count - 1);
    }
  }

  lemma PackedHeader(packetSequence: nat, messages: seq<FeedMessage>)
    requires InKind(U64, packetSequence) && AllInRange(messages)
    ensures var s := Pack(packetSequence, messages);
            && |s| >= PACKET_HEADER_SIZE == WidthOf(PACKET_KINDS)
            && DecodeFields(PACKET_KINDS, s[..PACKET_HEADER_SIZE])
                 == PacketHeader(packetSequence, |messages|, |EncodeAll(messages)|)
            && s[PACKET_HEADER_SIZE..] == EncodeAll(messages)
  {
    hide DecodeFields, EncodeFields, EncodeAll, PacketHeader;
    PacketHeaderSize();
    var s, h := Pack(packetSequence, messages), PacketHeader(packetSequence, |messages|, |EncodeAll(messages)|);
    assert s[..PACKET_HEADER_SIZE] == EncodeFields(PACKET_KINDS, h);
    RecordRoundTrip(PACKET_KINDS, h);
  }

  /** Unpacking a packed batch gives every message back precisely when there are from 1 to 65535 of them. */
  lemma UnpackPack(packetSequence: nat, messages: seq<FeedMessage>)
    requires InKind(U64, packetSequence) && AllInRange(messages)
    ensures (Unpack(Pack(packetSequence, messages)) == Packet(packetSequence, AllGood(messages)))
              <==> (1 <= |messages| <= 0xFFFF)
  {
    hide DecodeFields, EncodeFields, EncodeAll, WalkFrames, WidthOf;
    PackedHeader(packetSequence, messages);
    if 1 <= |messages| <= 0xFFFF {
      EncodedSize(messages);
      WalkEncoded(messages);
    } else {
      WalkCounts(EncodeAll(messages), |messages| % 0x1_0000);
    }
  }

  lemma {:induction false} WalkReverse(s: Bytes, count: nat, messages: seq<FeedMessage>)
    requires WalkFrames(s, count) == Walked(AllGood(messages), []) && |messages| == count
    ensures AllInRange(messages) && EncodeAll(messages) == s
    decreases count
  {
    hide Encode, Decode, InRange, FrameLength;
    if count > 0 {
      var n := FrameLength(s).value;
      assert AllGood(messages)[0] == Good(messages[0]);
      assert AllGood(messages)[1..] == AllGood(messages[1..]);
      WholeFrame(s, n);
      WalkReverse(s[n..], count - 1, messages[1..]);
      assert s == s[..n] + s[n..];
      assert forall i :: 1 <= i < |messages| ==> messages[i] == messages[1..][i - 1];
    }
  }

  /** A frame cut to its own length and accepted is exactly the encoding of its message. */
  lemma WholeFrame(s: Bytes, n: nat)
    requires FrameLength(s) == Some(n) && Decode(s[..n]).Good?
    ensures InRange(Decode(s[..n]).message) && Encode(Decode(s[..n]).message) == s[..n]
  {
    hide InRange, DecodeFields;
    EncodeDecode(s[..n]);
    assert s[..n][..HEADER_SIZE] == s[..HEADER_SIZE];
    FullLength(s[..n]);
  }

  lemma FullLength(s: Bytes)
    requires Decode(s).Good? && InRange(Decode(s).message)
    ensures |Encode(Decode(s).message)| == HEADER_SIZE + DecodeHeader(s).header.payloadSize
  {
    hide DecodeFields;
    var h := DecodeHeader(s).header;
    Sizes(h.tag);
    var payload := s[HEADER_SIZE..HEADER_SIZE + h.payloadSize];
    RecordReverse(PayloadKinds(h.tag), payload);
    PayloadReverse(h.tag, h.sequence, h.timestamp, DecodeFields(PayloadKinds(h.tag), payload));
  }

  /** A datagram accepted with every frame good is the packing of those messages, byte for byte. */
  lemma PackUnpack(datagram: Bytes, packetSequence: nat, messages: seq<FeedMessage>)
    requires Unpack(datagram) == Packet(packetSequence, AllGood(messages))
    ensures InKind(U64, packetSequence) && AllInRange(messages) && 1 <= |messages| <= 0xFFFF
    ensures Pack(packetSequence, messages) == datagram
  {
    hide DecodeFields, EncodeFields, EncodeAll, WalkFrames, Decode, InRange, WidthOf;
    PacketHeaderSize();
    var front, payload := datagram[..PACKET_HEADER_SIZE], datagram[PACKET_HEADER_SIZE..];
    var h := DecodeFields(PACKET_KINDS, front);
    RecordReverse(PACKET_KINDS, front);
    assert InKind(U16, h[2]) && InKind(U64, h[3]) && InKind(U32, h[4]);
    WalkCounts(payload, h[2]);
    WalkReverse(payload, h[2], messages);
    assert h == PacketHeader(packetSequence, |messages|, |payload|);
    assert datagram == front + payload;
  }

  // ---------- frames that do not decode ----------

  function Joined(pieces: seq<Bytes>): Bytes {
    if pieces == [] then [] else pieces[0] + Joined(pieces[1..])
  }

  /** Each of these bytes is one frame, by the length its header gives; whether it decodes is another matter. */
  predicate AllWhole(pieces: seq<Bytes>) {
    forall i :: 0 <= i < |pieces| ==> FrameLength(pieces[i]) == Some(|pieces[i]|)
  }

  function Results(pieces: seq<Bytes>): (frames: seq<Decoded>)
    ensures |frames| == |pieces|
    ensures forall i :: 0 <= i < |pieces| ==> frames[i] == Decode(pieces[i])
  {
    seq(|pieces|, i requires 0 <= i < |pieces| => Decode(pieces[i]))
  }

  lemma WholeAtFront(piece: Bytes, rest: Bytes)
    requires FrameLength(piece) == Some(|piece|)
    ensures FrameLength(piece + rest) == Some(|piece|)
  {
    hide DecodeFields;
    assert (piece + rest)[..HEADER_SIZE] == piece[..HEADER_SIZE];
  }

  lemma {:induction false} WalkWhole(pieces: seq<Bytes>)
    requires AllWhole(pieces)
    ensures WalkFrames(Joined(pieces), |pieces|) == Walked(Results(pieces), [])
    decreases |pieces|
  {
    hide Decode, FrameLength;
    if pieces != [] {
      var rest := Joined(pieces[1..]);
      WholeAtFront(pieces[0], rest);
      WalkWhole(pieces[1..]);
      var s := pieces[0] + rest;
      assert s[..|pieces[0]|] == pieces[0] && s[|pieces[0]|..] == rest;
      assert Results(pieces) == [Decode(pieces[0])] + Results(pieces[1..]);
    }
  }

  /** A datagram is accepted for its framing alone: each frame carries its own result, and a bad one spoils no other. */
  lemma EachFrameItsOwn(packetSequence: nat, pieces: seq<Bytes>)
    requires InKind(U64, packetSequence) && AllWhole(pieces) && 1 <= |pieces| <= 0xFFFF
    requires |Joined(pieces)| < 0x1_0000_0000
    ensures Unpack(EncodeFields(PACKET_KINDS, PacketHeader(packetSequence, |pieces|, |Joined(pieces)|)) + Joined(pieces))
              == Packet(packetSequence, Results(pieces))
  {
    hide DecodeFields, EncodeFields, Joined, AllWhole, WalkFrames, WidthOf, PacketHeader, Results;
    PacketHeaderSize();
    var h := PacketHeader(packetSequence, |pieces|, |Joined(pieces)|);
    var s := EncodeFields(PACKET_KINDS, h) + Joined(pieces);
    assert s[..PACKET_HEADER_SIZE] == EncodeFields(PACKET_KINDS, h) && s[PACKET_HEADER_SIZE..] == Joined(pieces);
    RecordRoundTrip(PACKET_KINDS, h);
    HeaderFields(packetSequence, |pieces|, |Joined(pieces)|);
    WalkWhole(pieces);
  }

  lemma HeaderFields(packetSequence: nat, count: nat, length: nat)
    requires InKind(U64, packetSequence) && count <= 0xFFFF && length < 0x1_0000_0000
    ensures PacketHeader(packetSequence, count, length) == [PACKET_MAGIC, PACKET_VERSION, count, packetSequence, length]
  {
  }

  // ---------- the loops ----------

  method PackFrames(packetSequence: nat, messages: seq<FeedMessage>) returns (out: Bytes)
    requires InKind(U64, packetSequence) && AllInRange(messages)
    ensures out == Pack(packetSequence, messages)
  {
    hide Encode, InRange;
    var payload: Bytes := [];
    for i := 0 to |messages|
      invariant payload + EncodeAll(messages[i..]) == EncodeAll(messages)
    {
      payload := payload + Encode(messages[i]);
      assert messages[i..][0] == messages[i] && messages[i..][1..] == messages[i + 1..];
    }
    assert messages[|messages|..] == [];
    out := EncodeFields(PACKET_KINDS, PacketHeader(packetSequence, |messages|, |payload|)) + payload;
  }

  /** The loop over the frames of a payload, by a moving offset. */
  method WalkPayload(payload: Bytes, count: nat) returns (walk: Walk)
    ensures walk == WalkFrames(payload, count)
  {
    hide Decode, FrameLength;
    var frames: seq<Decoded> := [];
    var offset: nat := 0;
    assert payload[0..] == payload;
    for i := 0 to count
      invariant offset <= |payload|
      invariant WalkFrames(payload, count)
                  == match WalkFrames(payload[offset..], count - i)
                     case Lost => Lost
                     case Walked(more, rest) => Walked(frames + more, rest)
    {
      var rest := payload[offset..];
      var n := FrameLength(rest);
      if n.None? {
        return Lost;
      }
      ghost var ahead := WalkFrames(rest[n.value..], count - i - 1);
      assert ahead.Walked? ==> frames + ([Decode(rest[..n.value])] + ahead.frames)
                                 == frames + [Decode(rest[..n.value])] + ahead.frames;
      frames := frames + [Decode(rest[..n.value])];
      assert rest[n.value..] == payload[offset + n.value..];
      offset := offset + n.value;
    }
    assert frames + [] == frames;
    walk := Walked(frames, payload[offset..]);
  }

  method UnpackFrames(datagram: Bytes) returns (r: Unpacked)
    ensures r == Unpack(datagram)
  {
    hide WalkFrames, Decode, WidthOf, DecodeFields;
    PacketHeaderSize();
    if |datagram| < PACKET_HEADER_SIZE {
      return BadPacket(TruncatedPacket);
    }
    var reader := new ByteReader(datagram[..PACKET_HEADER_SIZE]);
    assert reader.Rest() == datagram[..PACKET_HEADER_SIZE] == datagram[..PACKET_HEADER_SIZE][..WidthOf(PACKET_KINDS)];
    var header := reader.GetAll(PACKET_KINDS);
    var h := header.value;
    RecordReverse(PACKET_KINDS, datagram[..PACKET_HEADER_SIZE]);
    assert InKind(U16, h[2]) && InKind(U64, h[3]);
    if h[0] != PACKET_MAGIC {
      return BadPacket(InvalidMagic);
    }
    if h[1] != PACKET_VERSION {
      return BadPacket(InvalidVersion);
    }
    if h[2] == 0 {
      return BadPacket(ZeroFrameCount);
    }
    var payload := datagram[PACKET_HEADER_SIZE..];
    if |payload| != h[4] {
      return BadPacket(PayloadLengthMismatch);
    }
    var walk := WalkPayload(payload, h[2]);
    if walk.Lost? {
      return BadPacket(InnerFrameHeaderInvalid);
    }
    if walk.rest != [] {
      return BadPacket(FrameCountMismatch);
    }
    r := Packet(h[3], walk.frames);
  }
}
