/** Where each field stands on the wire, byte for byte. */
module WireLayout {
  import opened ExchangeTypes
  import opened ByteCodec
  import opened WireCodes
  import FeedModel
  import J = JournalCodec
  import E = OrderEntryCodec
  import M = MarketDataCodec
  import P = Packets
  import S = BookSnapshots
  import opened TraderFeeds

  /** The bytes are n, most significant first. */
  predicate Spells(s: Bytes, n: nat) {
    forall i :: 0 <= i < |s| ==> ByteOf(s, n, i)
  }

  predicate ByteOf(s: Bytes, n: nat, i: nat)
    requires i < |s|
  {
    s[i] == n / Pow256(|s| - 1 - i) % 256
  }

  /** The bytes are a field of this kind that holds v, in two's complement if v is negative. */
  predicate FieldIs(s: Bytes, k: Kind, v: int) {
    InKind(k, v) && |s| == Width(k) && Spells(s, if v < 0 then v + TWO_64 else v)
  }

  lemma {:induction false} PutIsBigEndian(w: nat, v: nat)
    ensures Spells(PutUint(w, v), v)
  {
    if w > 0 {
      var s := PutUint(w, v);
      PutIsBigEndian(w - 1, v / 256);
      forall i | 0 <= i < w ensures ByteOf(s, v, i) {
        if i < w - 1 {
          assert ByteOf(PutUint(w - 1, v / 256), v / 256, i);
          ShiftTwice(v, Pow256(w - 2 - i));
        } else {
          assert Pow256(0) == 1 && v / 1 == v;
        }
      }
    }
  }

  lemma FieldSpelt(k: Kind, v: int)
    requires InKind(k, v)
    ensures FieldIs(EncodeField(k, v), k, v)
  {
    PutIsBigEndian(Width(k), BitsOf(k, v));
  }

  // ---------- records ----------

  datatype Field = Field(kind: Kind, value: int)

  /** The bytes are these fields, back to back and in this order, each most significant byte first. */
  predicate Laid(s: Bytes, fields: seq<Field>)
    decreases |fields|
  {
    if fields == [] then s == []
    else
      var w := Width(fields[0].kind);
      |s| >= w && FieldIs(s[..w], fields[0].kind, fields[0].value) && Laid(s[w..], fields[1..])
  }

  function Fields(kinds: seq<Kind>, values: seq<int>): (fields: seq<Field>)
    requires |kinds| == |values|
    ensures |fields| == |kinds|
    ensures forall i :: 0 <= i < |fields| ==> fields[i] == Field(kinds[i], values[i])
  {
    seq(|kinds|, i requires 0 <= i < |kinds| => Field(kinds[i], values[i]))
  }

  lemma {:induction false} RecordLaid(kinds: seq<Kind>, values: seq<int>)
    requires InKinds(kinds, values)
    ensures Laid(EncodeFields(kinds, values), Fields(kinds, values))
    decreases |kinds|
  {
    hide FieldIs, EncodeField, InKind;
    if kinds != [] {
      var s, w := EncodeFields(kinds, values), Width(kinds[0]);
      FieldSpelt(kinds[0], values[0]);
      assert s[..w] == EncodeField(kinds[0], values[0]);
      RecordLaid(kinds[1..], values[1..]);
      assert s[w..] == EncodeFields(kinds[1..], values[1..]);
      assert Fields(kinds, values)[1..] == Fields(kinds[1..], values[1..]);
    }
  }

  lemma {:induction false} LaidConcat(a: Bytes, f: seq<Field>, b: Bytes, g: seq<Field>)
    requires Laid(a, f) && Laid(b, g)
    ensures Laid(a + b, f + g)
    decreases |f|
  {
    hide FieldIs;
    if f == [] {
      assert a + b == b && f + g == g;
    } else {
      var w := Width(f[0].kind);
      assert (a + b)[..w] == a[..w] && (a + b)[w..] == a[w..] + b;
      assert (f + g)[1..] == f[1..] + g;
      LaidConcat(a[w..], f[1..], b, g);
    }
  }

  /** A header and a payload. */
  lemma FrameLaid(k1: seq<Kind>, v1: seq<int>, k2: seq<Kind>, v2: seq<int>)
    requires InKinds(k1, v1) && InKinds(k2, v2)
    ensures Laid(EncodeFields(k1, v1) + EncodeFields(k2, v2), Fields(k1, v1) + Fields(k2, v2))
  {
    RecordLaid(k1, v1);
    RecordLaid(k2, v2);
    LaidConcat(EncodeFields(k1, v1), Fields(k1, v1), EncodeFields(k2, v2), Fields(k2, v2));
  }

  function SideByte(side: Side): nat {
    if side == Buy then 0 else 1
  }

  function TifByte(tif: TimeInForce): nat {
    match tif
    case GTC => 0
    case IOC => 1
    case FOK => 2
  }

  function ReasonByte(r: RejectReason): nat {
    match r
    case NoReason => 0
    case InvalidPrice => 1
    case InvalidQuantity => 2
    case DuplicateOrderId => 3
    case UnknownOrderId => 4
    case InvalidInstrument => 5
    case InsufficientLiquidity => 6
    case InvalidReplacement => 7
    case InternalError => 8
    case InsufficientFunds => 9
    case InsufficientPosition => 10
    case OrderTooLarge => 11
    case AccountMismatch => 12
  }

  // ---------- the three formats ----------

  /** A journal frame: type, a zero byte, payload size, sequence number; then the payload. */
  function JournalTable(frame: J.Frame): seq<Field> {
    match frame
    case CommandFrame(NewOrder(n, a, cid, id, side, price, quantity, _, tif)) =>
      [Field(U8, 1), Field(U8, 0), Field(U16, 39), Field(U64, n), Field(U64, a), Field(U64, cid), Field(U32, id),
       Field(U8, SideByte(side)), Field(I64, price), Field(U64, quantity), Field(U8, 0), Field(U8, TifByte(tif))]
    case CommandFrame(CancelOrder(n, a, cid, id)) =>
      [Field(U8, 2), Field(U8, 0), Field(U16, 20), Field(U64, n), Field(U64, a), Field(U64, cid), Field(U32, id)]
    case CommandFrame(ReplaceOrder(n, a, original, cid, id, price, quantity)) =>
      [Field(U8, 3), Field(U8, 0), Field(U16, 44), Field(U64, n), Field(U64, a), Field(U64, original), Field(U64, cid),
       Field(U32, id), Field(I64, price), Field(U64, quantity)]
    case RegistrationFrame(id) => [Field(U8, 4), Field(U8, 0), Field(U16, 4), Field(U64, 0), Field(U32, id)]
  }

  lemma JournalLayout(frame: J.Frame)
    requires J.InRange(frame)
    ensures Laid(J.Encode(frame), JournalTable(frame))
  {
    hide Laid, EncodeFields, WidthOf;
    J.Sizes(J.TagOf(frame));
    FrameLaid(J.HEADER_KINDS, J.HeaderOf(frame), J.PayloadKinds(J.TagOf(frame)), J.PayloadOf(frame));
    assert Fields(J.HEADER_KINDS, J.HeaderOf(frame)) + Fields(J.PayloadKinds(J.TagOf(frame)), J.PayloadOf(frame))
        == JournalTable(frame);
  }

  /** An order-entry message: type, payload size; then the payload. */
  function EntryTable(m: E.Message): seq<Field> {
    match m
    case NewOrderRequest(a, cid, id, side, price, quantity, _, tif) =>
      [Field(U8, 1), Field(U16, 39), Field(U64, a), Field(U64, cid), Field(U32, id), Field(U8, SideByte(side)),
       Field(I64, price), Field(U64, quantity), Field(U8, 0), Field(U8, TifByte(tif))]
    case CancelRequest(a, cid, id) =>
      [Field(U8, 2), Field(U16, 20), Field(U64, a), Field(U64, cid), Field(U32, id)]
    case ReplaceRequest(a, original, cid, id, price, quantity) =>
      [Field(U8, 3), Field(U16, 44), Field(U64, a), Field(U64, original), Field(U64, cid), Field(U32, id),
       Field(I64, price), Field(U64, quantity)]
    case Accepted(a, cid, eid, id, side, price, quantity, _, tif) =>
      [Field(U8, 10), Field(U16, 47), Field(U64, a), Field(U64, cid), Field(U64, eid), Field(U32, id),
       Field(U8, SideByte(side)), Field(I64, price), Field(U64, quantity), Field(U8, 0), Field(U8, TifByte(tif))]
    case Rejected(a, cid, id, reason) =>
      [Field(U8, 11), Field(U16, 21), Field(U64, a), Field(U64, cid), Field(U32, id), Field(U8, ReasonByte(reason))]
    case Cancelled(a, cid, eid, id) =>
      [Field(U8, 12), Field(U16, 28), Field(U64, a), Field(U64, cid), Field(U64, eid), Field(U32, id)]
    case Replaced(a, original, cid, eid, id, price, quantity) =>
      [Field(U8, 13), Field(U16, 52), Field(U64, a), Field(U64, original), Field(U64, cid), Field(U64, eid),
       Field(U32, id), Field(I64, price), Field(U64, quantity)]
    case TradeReport(a, cid, eid, id, price, quantity, left) =>
      [Field(U8, 14), Field(U16, 52), Field(U64, a), Field(U64, cid), Field(U64, eid), Field(U32, id),
       Field(I64, price), Field(U64, quantity), Field(U64, left)]
  }

  lemma EntryLayout(m: E.Message)
    requires E.InRange(m)
    ensures Laid(E.Encode(m), EntryTable(m))
  {
    hide Laid, EncodeFields, WidthOf, EntryTable;
    E.Sizes(E.TagOf(m));
    FrameLaid(E.HEADER_KINDS, E.HeaderOf(m), E.PayloadKinds(E.TagOf(m)), E.PayloadOf(m));
    if m.NewOrderRequest? || m.CancelRequest? || m.ReplaceRequest? {
      RequestTable(m);
    } else if m.Accepted? || m.Rejected? {
      AnswerTable(m);
    } else {
      ExecutionTable(m);
    }
  }

  lemma RequestTable(m: E.Message)
    requires m.NewOrderRequest? || m.CancelRequest? || m.ReplaceRequest?
    ensures Fields(E.HEADER_KINDS, E.HeaderOf(m)) + Fields(E.PayloadKinds(E.TagOf(m)), E.PayloadOf(m)) == EntryTable(m)
  {
  }

  lemma AnswerTable(m: E.Message)
    requires m.Accepted? || m.Rejected?
    ensures Fields(E.HEADER_KINDS, E.HeaderOf(m)) + Fields(E.PayloadKinds(E.TagOf(m)), E.PayloadOf(m)) == EntryTable(m)
  {
  }

  lemma ExecutionTable(m: E.Message)
    requires m.Cancelled? || m.Replaced? || m.TradeReport?
    ensures Fields(E.HEADER_KINDS, E.HeaderOf(m)) + Fields(E.PayloadKinds(E.TagOf(m)), E.PayloadOf(m)) == EntryTable(m)
  {
  }

  /** A market-data frame: type, a zero byte, payload size, sequence number, timestamp; then the payload. */
  function FeedTable(m: FeedModel.FeedMessage): seq<Field> {
    match m
    case AddOrder(n, t, eid, id, price, quantity, side) =>
      [Field(U8, 1), Field(U8, 0), Field(U16, 29), Field(U64, n), Field(U64, t), Field(U64, eid), Field(U32, id),
       Field(I64, price), Field(U64, quantity), Field(U8, SideByte(side))]
    case DeleteOrder(n, t, eid, id) =>
      [Field(U8, 2), Field(U8, 0), Field(U16, 12), Field(U64, n), Field(U64, t), Field(U64, eid), Field(U32, id)]
    case ModifyOrder(n, t, eid, id, price, quantity) =>
      [Field(U8, 3), Field(U8, 0), Field(U16, 28), Field(U64, n), Field(U64, t), Field(U64, eid), Field(U32, id),
       Field(I64, price), Field(U64, quantity)]
    case Trade(n, t, id, price, quantity, side) =>
      [Field(U8, 4), Field(U8, 0), Field(U16, 21), Field(U64, n), Field(U64, t), Field(U32, id), Field(I64, price),
       Field(U64, quantity), Field(U8, SideByte(side))]
    case ClearBook(n, t, id) =>
      [Field(U8, 5), Field(U8, 0), Field(U16, 4), Field(U64, n), Field(U64, t), Field(U32, id)]
  }

  lemma FeedLayout(m: FeedModel.FeedMessage)
    requires M.InRange(m)
    ensures Laid(M.Encode(m), FeedTable(m))
  {
    hide Laid, EncodeFields, WidthOf;
    M.Sizes(M.TagOf(m));
    FrameLaid(M.HEADER_KINDS, M.HeaderOf(m), M.PayloadKinds(M.TagOf(m)), M.PayloadOf(m));
    assert Fields(M.HEADER_KINDS, M.HeaderOf(m)) + Fields(M.PayloadKinds(M.TagOf(m)), M.PayloadOf(m)) == FeedTable(m);
  }

  // ---------- datagrams and snapshot files ----------

  function AllFrames(messages: seq<FeedModel.FeedMessage>): seq<Field> {
    if messages == [] then [] else FeedTable(messages[0]) + AllFrames(messages[1..])
  }

  lemma {:induction false} FramesLaid(messages: seq<FeedModel.FeedMessage>)
    requires P.AllInRange(messages)
    ensures Laid(P.EncodeAll(messages), AllFrames(messages))
    decreases |messages|
  {
    hide Laid, FeedTable, M.Encode, M.InRange;
    if messages == [] {
      NothingLaid();
    } else {
      FeedLayout(messages[0]);
      FramesLaid(messages[1..]);
      LaidConcat(M.Encode(messages[0]), FeedTable(messages[0]), P.EncodeAll(messages[1..]), AllFrames(messages[1..]));
    }
  }

  lemma NothingLaid()
    ensures Laid([], [])
  {
  }

  /** A datagram is its header, with the count and the length cut to their widths, and then its frames. */
  lemma DatagramLayout(n: nat, messages: seq<FeedModel.FeedMessage>)
    requires InKind(U64, n) && P.AllInRange(messages)
    ensures Laid(P.Pack(n, messages),
                 [Field(U32, 0x4D44_4831), Field(U16, 1), Field(U16, |messages| % 0x1_0000), Field(U64, n),
                  Field(U32, |P.EncodeAll(messages)| % 0x1_0000_0000)] + AllFrames(messages))
  {
    hide Laid, EncodeFields, WidthOf, P.EncodeAll, P.AllInRange;
    var header := P.PacketHeader(n, |messages|, |P.EncodeAll(messages)|);
    RecordLaid(P.PACKET_KINDS, header);
    FramesLaid(messages);
    LaidConcat(EncodeFields(P.PACKET_KINDS, header), Fields(P.PACKET_KINDS, header), P.EncodeAll(messages),
               AllFrames(messages));
    assert Fields(P.PACKET_KINDS, header)
        == [Field(U32, 0x4D44_4831), Field(U16, 1), Field(U16, |messages| % 0x1_0000), Field(U64, n),
            Field(U32, |P.EncodeAll(messages)| % 0x1_0000_0000)];
  }

  lemma SnapshotTable(n: nat, count: nat)
    requires InKind(U64, n) && InKind(U64, count)
    ensures Fields(S.SNAPSHOT_KINDS, S.SnapshotHeader(n, count))
              == [Field(U32, 0x4D44_4832), Field(U16, 1), Field(U16, 0), Field(U64, n), Field(U64, count)]
  {
  }

  /** A snapshot file is its header, the feed's sequence number and the number of orders, and then a frame per order. */
  lemma SnapshotLayout(n: nat, ids: seq<InstrumentId>, books: Books)
    requires var messages := S.AllMessages(ids, n, books);
             InKind(U64, n) && InKind(U64, |messages|) && P.AllInRange(messages)
    ensures var messages := S.AllMessages(ids, n, books);
            Laid(S.WriteFile(n, ids, books),
                 [Field(U32, 0x4D44_4832), Field(U16, 1), Field(U16, 0), Field(U64, n), Field(U64, |messages|)]
                 + AllFrames(messages))
  {
    hide Laid, EncodeFields, WidthOf, P.EncodeAll, P.AllInRange, S.AllMessages, S.SnapshotHeader, Fields;
    var messages := S.AllMessages(ids, n, books);
    var header := S.SnapshotHeader(n, |messages|);
    SnapshotTable(n, |messages|);
    RecordLaid(S.SNAPSHOT_KINDS, header);
    FramesLaid(messages);
    LaidConcat(EncodeFields(S.SNAPSHOT_KINDS, header), Fields(S.SNAPSHOT_KINDS, header), P.EncodeAll(messages),
               AllFrames(messages));
  }
}
