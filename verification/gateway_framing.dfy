/** How a gateway connection cuts its byte stream into messages, however TCP slices it. */
module GatewayFraming {
  import opened ExchangeTypes
  import opened ByteCodec
  import opened OrderEntryCodec

  datatype Drained = Drained(messages: seq<Message>, leftover: Bytes)

  /** The size of the frame at the front, once its header can be read and all of it has arrived. */
  function WholeFrame(buffer: Bytes): (n: Option<nat>)
    ensures n.Some? ==> HEADER_SIZE <= n.value <= |buffer|
  {
    var h := DecodeHeader(buffer);
    if h.BadHeader? || |buffer| < HEADER_SIZE + h.header.payloadSize then None
    else Some(HEADER_SIZE + h.header.payloadSize)
  }

  /** Every complete frame at the front of the buffer; one whose content is malformed is dropped. */
  function Drain(buffer: Bytes): (r: Drained)
    ensures |r.leftover| <= |buffer|
    decreases |buffer|
  {
    var n := WholeFrame(buffer);
    if n.None? then Drained([], buffer)
    else
      var decoded := Decode(buffer[..n.value]);
      var rest := Drain(buffer[n.value..]);
      if decoded.Bad? then rest else Drained([decoded.message] + rest.messages, rest.leftover)
  }

  /** A stream received in pieces, each drained as it arrives. */
  function Received(buffer: Bytes, chunks: seq<Bytes>): Drained
    decreases |chunks|
  {
    if chunks == [] then Drained([], buffer)
    else
      var first := Drain(buffer + chunks[0]);
      var rest := Received(first.leftover, chunks[1..]);
      Drained(first.messages + rest.messages, rest.leftover)
  }

  function Joined(chunks: seq<Bytes>): Bytes {
    if chunks == [] then [] else chunks[0] + Joined(chunks[1..])
  }

  lemma HeaderStays(a: Bytes, b: Bytes)
    requires |a| >= HEADER_SIZE
    ensures DecodeHeader(a + b) == DecodeHeader(a)
  {
    hide DecodeFields;
    assert (a + b)[..HEADER_SIZE] == a[..HEADER_SIZE];
  }

  /** A frame complete in what has arrived is the same frame whatever arrives later. */
  lemma FrameStays(a: Bytes, b: Bytes)
    requires WholeFrame(a).Some?
    ensures WholeFrame(a + b) == WholeFrame(a)
    ensures var n := WholeFrame(a).value; (a + b)[..n] == a[..n] && (a + b)[n..] == a[n..] + b
  {
    hide DecodeHeader;
    HeaderStays(a, b);
  }

  /** Draining early and draining again when more has arrived is draining once at the end. */
  lemma {:induction false} DrainInTwo(a: Bytes, b: Bytes)
    ensures var first := Drain(a); var second := Drain(first.leftover + b);
            Drain(a + b) == Drained(first.messages + second.messages, second.leftover)
    decreases |a|
  {
    hide WholeFrame, Decode;
    var n := WholeFrame(a);
    if n.Some? {
      FrameStays(a, b);
      DrainInTwo(a[n.value..], b);
      var rest := Drain(a[n.value..]);
      var second := Drain(rest.leftover + b);
      var decoded := Decode(a[..n.value]);
      assert decoded.Good? ==> [decoded.message] + (rest.messages + second.messages)
                                 == [decoded.message] + rest.messages + second.messages;
    }
  }

  lemma DrainDone(buffer: Bytes)
    ensures Drain(Drain(buffer).leftover) == Drained([], Drain(buffer).leftover)
    decreases |buffer|
  {
    hide WholeFrame, Decode;
    var n := WholeFrame(buffer);
    if n.Some? {
      DrainDone(buffer[n.value..]);
    }
  }

  /** However the stream is sliced into reads, the same messages come out and the same bytes are left over. */
  lemma {:induction false} ChunkingDoesNotMatter(buffer: Bytes, chunks: seq<Bytes>)
    requires Drain(buffer) == Drained([], buffer)
    ensures Received(buffer, chunks) == Drain(buffer + Joined(chunks))
    decreases |chunks|
  {
    hide WholeFrame, Decode, Drain;
    if chunks == [] {
      assert buffer + [] == buffer;
    } else {
      var first := Drain(buffer + chunks[0]);
      DrainDone(buffer + chunks[0]);
      ChunkingDoesNotMatter(first.leftover, chunks[1..]);
      DrainInTwo(buffer + chunks[0], Joined(chunks[1..]));
      assert buffer + chunks[0] + Joined(chunks[1..]) == buffer + (chunks[0] + Joined(chunks[1..]));
    }
  }

  lemma NothingBuffered()
    ensures Drain([]) == Drained([], [])
  {
  }

  /** Two ways of slicing one stream are indistinguishable. */
  lemma AnyTwoChunkings(a: seq<Bytes>, b: seq<Bytes>)
    requires Joined(a) == Joined(b)
    ensures Received([], a) == Received([], b)
  {
    hide Drain, Received;
    NothingBuffered();
    ChunkingDoesNotMatter([], a);
    ChunkingDoesNotMatter([], b);
  }

  /** A frame whose header is sound but whose content is not costs nothing but itself. */
  lemma MalformedDropsOnlyItself(frame: Bytes, rest: Bytes)
    requires WholeFrame(frame) == Some(|frame|) && Decode(frame).Bad?
    ensures Drain(frame + rest) == Drain(rest)
  {
    hide WholeFrame, Decode;
    FrameStays(frame, rest);
    assert frame[..|frame|] == frame && frame[|frame|..] + rest == rest;
  }

  predicate AllInRange(messages: seq<Message>) {
    forall i :: 0 <= i < |messages| ==> InRange(messages[i])
  }

  function EncodeAll(messages: seq<Message>): Bytes
    requires AllInRange(messages)
  {
    if messages == [] then [] else Encode(messages[0]) + EncodeAll(messages[1..])
  }

  lemma WrittenFrame(m: Message, rest: Bytes)
    requires InRange(m)
    ensures var s := Encode(m) + rest;
            && WholeFrame(s) == Some(|Encode(m)|)
            && s[..|Encode(m)|] == Encode(m) && s[|Encode(m)|..] == rest
            && Decode(Encode(m)) == Good(m)
  {
    hide Decode, DecodeHeader, InRange;
    HeaderRoundTrip(m, rest);
    DecodeEncode(m, []);
    assert Encode(m) + [] == Encode(m);
  }

  lemma DrainOne(m: Message, rest: Bytes)
    requires InRange(m)
    ensures Drain(Encode(m) + rest) == Drained([m] + Drain(rest).messages, Drain(rest).leftover)
  {
    hide Encode, Decode, InRange, WholeFrame;
    WrittenFrame(m, rest);
  }

  lemma {:induction false} DrainWritten(messages: seq<Message>, rest: Bytes)
    requires AllInRange(messages)
    ensures Drain(EncodeAll(messages) + rest)
              == Drained(messages + Drain(rest).messages, Drain(rest).leftover)
    decreases |messages|
  {
    hide Encode, Drain, InRange;
    if messages == [] {
      assert [] + rest == rest;
      assert [] + Drain(rest).messages == Drain(rest).messages;
    } else {
      DrainOne(messages[0], EncodeAll(messages[1..]) + rest);
      DrainWritten(messages[1..], rest);
      assert EncodeAll(messages) + rest == Encode(messages[0]) + (EncodeAll(messages[1..]) + rest);
      assert messages + Drain(rest).messages == [messages[0]] + (messages[1..] + Drain(rest).messages);
    }
  }

  /** What a client wrote is what the gateway reads, whatever TCP does to the boundaries. */
  lemma ClientToGateway(messages: seq<Message>, chunks: seq<Bytes>)
    requires AllInRange(messages) && Joined(chunks) == EncodeAll(messages)
    ensures Received([], chunks) == Drained(messages, [])
  {
    hide Drain, Received, EncodeAll;
    NothingBuffered();
    ChunkingDoesNotMatter([], chunks);
    DrainWritten(messages, []);
    assert [] + Joined(chunks) == EncodeAll(messages) + [];
    assert messages + [] == messages;
  }

  /** A header of an unknown type is taken for one still to come: the messages in front of it are read, and nothing
      after it ever is. */
  lemma UnknownTypeHoldsTheRest(messages: seq<Message>, header: Bytes, chunks: seq<Bytes>, rest: Bytes)
    requires AllInRange(messages) && |header| >= HEADER_SIZE && DecodeHeader(header).BadHeader?
    requires Joined(chunks) == EncodeAll(messages) + (header + rest)
    ensures Received([], chunks) == Drained(messages, header + rest)
  {
    hide Drain, Received, EncodeAll, DecodeHeader;
    NothingBuffered();
    ChunkingDoesNotMatter([], chunks);
    DrainWritten(messages, header + rest);
    assert [] + Joined(chunks) == Joined(chunks);
    HeldBack(header, rest);
    assert messages + [] == messages;
  }

  lemma HeldBack(header: Bytes, rest: Bytes)
    requires |header| >= HEADER_SIZE && DecodeHeader(header).BadHeader?
    ensures Drain(header + rest) == Drained([], header + rest)
  {
    hide DecodeHeader;
    HeaderStays(header, rest);
  }

  /** One connection's receive buffer. */
  class Connection {
    var readBuffer: Bytes

    constructor ()
      ensures readBuffer == []
    {
      readBuffer := [];
    }

    /** One read: append, then take every complete frame. */
    method OnRead(chunk: Bytes) returns (messages: seq<Message>)
      modifies this
      ensures Drained(messages, readBuffer) == Drain(old(readBuffer) + chunk)
    {
      hide WholeFrame, Decode, DecodeHeader;
      readBuffer := readBuffer + chunk;
      messages := [];
      ghost var start := readBuffer;
      while true
        invariant Drain(start) == Drained(messages + Drain(readBuffer).messages, Drain(readBuffer).leftover)
        decreases |readBuffer|
      {
        var header := DecodeHeader(readBuffer);
        FrameNow(readBuffer);
        if header.BadHeader? || |readBuffer| < HEADER_SIZE + header.header.payloadSize {
          break;
        }
        var frameSize := HEADER_SIZE + header.header.payloadSize;
        var decoded := Decode(readBuffer[..frameSize]);
        readBuffer := readBuffer[frameSize..];
        if decoded.Bad? {
          continue;
        }
        assert messages + ([decoded.message] + Drain(readBuffer).messages)
            == messages + [decoded.message] + Drain(readBuffer).messages;
        messages := messages + [decoded.message];
      }
      assert messages + [] == messages;
    }

    lemma FrameNow(buffer: Bytes)
      ensures var h := DecodeHeader(buffer);
              WholeFrame(buffer) == if h.BadHeader? || |buffer| < HEADER_SIZE + h.header.payloadSize then None
                                    else Some(HEADER_SIZE + h.header.payloadSize)
    {
    }
  }
}
