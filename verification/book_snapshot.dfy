/** The book snapshot file: every resting order of every book as an AddOrder frame, read back into fresh books. */
module BookSnapshots {
  import opened ExchangeTypes
  import opened ByteCodec
  import opened FeedModel
  import opened SideIndexes
  import opened TraderLevels
  import opened TraderBooks
  import opened TraderFeeds
  import opened MarketDataCodec
  import opened Packets

  const SNAPSHOT_MAGIC: nat := 0x4D44_4832
  const SNAPSHOT_VERSION: nat := 1
  const SNAPSHOT_HEADER_SIZE: nat := 24

  const SNAPSHOT_KINDS := [U32, U16, U16, U64, U64]

  /** One resting order as it is listed: its side, its price, its entry. */
  datatype Line = Line(side: Side, price: Price, entry: Entry)

  // ---------- listing a book ----------

  function QueueLines(side: Side, p: Price, q: seq<Entry>): seq<Line> {
    if q == [] then [] else [Line(side, p, q[0])] + QueueLines(side, p, q[1..])
  }

  ghost function SideLines(side: Side, levels: map<Price, PriceLevel>): seq<Line>
    decreases |levels|
  {
    if levels == map[] then []
    else
      assert levels.Keys != {} by { SomePrice(levels); }
      var p := Extreme(side, levels.Keys);
      QueueLines(side, p, levels[p].orders) + SideLines(side, levels - {p})
  }

  ghost function BookLines(b: BookState): seq<Line> {
    SideLines(Buy, b.bids) + SideLines(Sell, b.asks)
  }

  function MessageOf(id: InstrumentId, n: nat, line: Line): FeedMessage {
    AddOrder(n, 0, line.entry.orderId, id, line.price, line.entry.quantity, line.side)
  }

  function MessagesOf(id: InstrumentId, n: nat, lines: seq<Line>): (messages: seq<FeedMessage>)
    ensures |messages| == |lines|
  {
    seq(|lines|, i requires 0 <= i < |lines| => MessageOf(id, n, lines[i]))
  }

  /** The entries of a snapshot: book by book, bids before asks. */
  ghost function AllMessages(ids: seq<InstrumentId>, n: nat, books: Books): seq<FeedMessage> {
    if ids == [] then []
    else MessagesOf(ids[0], n, BookLines(BookIn(books, ids[0]))) + AllMessages(ids[1..], n, books)
  }

  // ---------- rebuilding ----------

  /** add_order on a book; None is any of its errors. */
  function AddLine(b: BookState, line: Line): Option<BookState> {
    if line.price <= 0 || line.entry.quantity == 0 || line.entry.orderId in b.index then None
    else Some(Inserted(b, line.side, line.entry.orderId, line.price, line.entry.quantity))
  }

  function AddLines(b: BookState, lines: seq<Line>): Option<BookState>
    decreases |lines|
  {
    if lines == [] then Some(b)
    else
      var one := AddLine(b, lines[0]);
      if one.None? then None else AddLines(one.value, lines[1..])
  }

  lemma {:induction false} AddLinesConcat(b: BookState, a: seq<Line>, c: seq<Line>)
    ensures AddLines(b, a + c) == if AddLines(b, a).None? then None else AddLines(AddLines(b, a).value, c)
    decreases |a|
  {
    hide AddLine;
    if a == [] {
      assert a + c == c;
    } else {
      assert (a + c)[1..] == a[1..] + c;
      if AddLine(b, a[0]).Some? {
        AddLinesConcat(AddLine(b, a[0]).value, a[1..], c);
      }
    }
  }

  /** Book b' is b with queue `q` joined to the back of one level. */
  ghost predicate Joined(b: BookState, b': BookState, side: Side, p: Price, q: seq<Entry>) {
    && (forall side', p' :: b'.QueueAt(side', p') == b.QueueAt(side', p') + if side' == side && p' == p then q else [])
    && (forall x :: x in b'.index <==> x in b.index || Queued(q, x))
  }

  lemma {:induction false} AddQueue(b: BookState, side: Side, p: Price, q: seq<Entry>)
    requires Linked(b) && p > 0 && Distinct(q)
    requires forall e :: e in q ==> e.quantity > 0 && e.orderId !in b.index
    ensures var r := AddLines(b, QueueLines(side, p, q)); r.Some? && Linked(r.value) && Joined(b, r.value, side, p, q)
    decreases |q|
  {
    hide Linked, Inserted, BookState.QueueAt, Joined;
    if q != [] {
      var e := q[0];
      assert e in q;
      var one := Inserted(b, side, e.orderId, p, e.quantity);
      InsertLinked(b, side, e.orderId, p, e.quantity);
      InsertIndex(b, side, e.orderId, p, e.quantity);
      AddQueue(one, side, p, q[1..]);
      assert QueueLines(side, p, q)[1..] == QueueLines(side, p, q[1..]);
      JoinOneMore(b, AddLines(b, QueueLines(side, p, q)).value, side, p, q);
    } else {
      JoinNothing(b, side, p);
    }
  }

  lemma JoinNothing(b: BookState, side: Side, p: Price)
    ensures Joined(b, b, side, p, [])
  {
    forall side', p' ensures b.QueueAt(side', p') == b.QueueAt(side', p') + [] {
    }
  }

  lemma JoinOneMore(b: BookState, b': BookState, side: Side, p: Price, q: seq<Entry>)
    requires q != [] && Joined(Inserted(b, side, q[0].orderId, p, q[0].quantity), b', side, p, q[1..])
    ensures Joined(b, b', side, p, q)
  {
    hide Inserted, BookState.QueueAt, Queued;
    var e := q[0];
    var one := Inserted(b, side, e.orderId, p, e.quantity);
    InsertIndex(b, side, e.orderId, p, e.quantity);
    forall side', p'
      ensures b'.QueueAt(side', p') == b.QueueAt(side', p') + if side' == side && p' == p then q else []
    {
      InsertQueues(b, side, e.orderId, p, e.quantity, side', p');
      assert [q[0]] + q[1..] == q;
      assert b.QueueAt(side', p') + [e] + q[1..] == b.QueueAt(side', p') + ([e] + q[1..]);
      assert b.QueueAt(side', p') + [] == b.QueueAt(side', p');
    }
    forall x ensures x in b'.index <==> x in b.index || Queued(q, x) {
      QueuedHead(q, x);
    }
  }

  lemma QueuedHead(q: seq<Entry>, x: ExchangeOrderId)
    requires q != []
    ensures Queued(q, x) <==> q[0].orderId == x || Queued(q[1..], x)
  {
    if Queued(q, x) && q[0].orderId != x {
      var i :| 0 <= i < |q| && q[i].orderId == x;
      assert q[1..][i - 1].orderId == x;
    }
    if Queued(q[1..], x) {
      var i :| 0 <= i < |q[1..]| && q[1..][i].orderId == x;
      assert q[i + 1].orderId == x;
    }
  }

  ghost predicate SomewhereIn(levels: map<Price, PriceLevel>, x: ExchangeOrderId) {
    exists p :: p in levels && Queued(levels[p].orders, x)
  }

  /** No order stands at two prices. */
  ghost predicate NoneTwice(levels: map<Price, PriceLevel>) {
    forall p, p', x ::
      p in levels && p' in levels && Queued(levels[p].orders, x) && Queued(levels[p'].orders, x) ==> p == p'
  }

  /** Book b' is b with every level of one side joined to it. */
  ghost predicate JoinedSide(b: BookState, b': BookState, side: Side, levels: map<Price, PriceLevel>) {
    && (forall side', p' ::
          b'.QueueAt(side', p')
            == b.QueueAt(side', p') + if side' == side && p' in levels then levels[p'].orders else [])
    && (forall x :: x in b'.index <==> x in b.index || SomewhereIn(levels, x))
  }

  lemma {:induction false} AddSide(b: BookState, side: Side, levels: map<Price, PriceLevel>)
    requires Linked(b) && NoneTwice(levels)
    requires forall p :: p in levels ==> LevelOk(p, levels[p])
    requires forall x :: x in b.index ==> !SomewhereIn(levels, x)
    ensures var r := AddLines(b, SideLines(side, levels));
            r.Some? && Linked(r.value) && JoinedSide(b, r.value, side, levels)
    decreases |levels|
  {
    hide Linked, Distinct, Total, BookState.QueueAt, Queued, Extreme;
    if levels != map[] {
      SomePrice(levels);
      var p := Extreme(side, levels.Keys);
      var q, rest := levels[p].orders, levels - {p};
      LevelFits(b, levels, p);
      AddQueue(b, side, p, q);
      var one := AddLines(b, QueueLines(side, p, q)).value;
      RestApart(levels, p);
      AddSide(one, side, rest);
      AddLinesConcat(b, QueueLines(side, p, q), SideLines(side, rest));
      var b' := AddLines(b, SideLines(side, levels)).value;
      forall side', p'
        ensures b'.QueueAt(side', p')
                  == b.QueueAt(side', p') + if side' == side && p' in levels then levels[p'].orders else []
      {
        assert b.QueueAt(side', p') + [] == b.QueueAt(side', p');
      }
    } else {
      forall side', p' ensures b.QueueAt(side', p') == b.QueueAt(side', p') + [] {
      }
    }
  }

  /** Taking one level away from a side where no order stands twice. */
  lemma RestApart(levels: map<Price, PriceLevel>, p: Price)
    requires p in levels && NoneTwice(levels)
    ensures NoneTwice(levels - {p})
    ensures forall x :: SomewhereIn(levels - {p}, x) ==> !Queued(levels[p].orders, x)
    ensures forall x :: SomewhereIn(levels, x) <==> Queued(levels[p].orders, x) || SomewhereIn(levels - {p}, x)
  {
    hide Queued;
    var rest := levels - {p};
    forall x | SomewhereIn(rest, x) ensures !Queued(levels[p].orders, x) && SomewhereIn(levels, x) {
      var p' :| p' in rest && Queued(rest[p'].orders, x);
      assert Queued(levels[p'].orders, x);
    }
    forall x | SomewhereIn(levels, x) ensures Queued(levels[p].orders, x) || SomewhereIn(rest, x) {
      var p' :| p' in levels && Queued(levels[p'].orders, x);
      assert p' == p || Queued(rest[p'].orders, x);
    }
  }

  lemma LevelFits(b: BookState, levels: map<Price, PriceLevel>, p: Price)
    requires p in levels && LevelOk(p, levels[p])
    requires forall x :: x in b.index ==> !SomewhereIn(levels, x)
    ensures p > 0 && Distinct(levels[p].orders)
    ensures forall e :: e in levels[p].orders ==> e.quantity > 0 && e.orderId !in b.index
  {
    forall e | e in levels[p].orders ensures e.orderId !in b.index {
      var i :| 0 <= i < |levels[p].orders| && levels[p].orders[i] == e;
      assert Queued(levels[p].orders, e.orderId);
      assert SomewhereIn(levels, e.orderId);
    }
  }

  lemma StandsOnce(b: BookState, side: Side, p: Price, x: ExchangeOrderId)
    requires Linked(b) && Queued(b.QueueAt(side, p), x)
    ensures IndexedAt(b, x, side, p)
  {
    var q := b.QueueAt(side, p);
    var i :| 0 <= i < |q| && q[i].orderId == x;
    assert q[i] in q;
  }

  lemma SideNoneTwice(b: BookState, side: Side)
    requires Linked(b)
    ensures NoneTwice(b.Levels(side))
    ensures forall x :: SomewhereIn(b.Levels(side), x) ==> x in b.index && b.index[x].side == side
  {
    hide Linked, Queued;
    var levels := b.Levels(side);
    forall p, x | p in levels && Queued(levels[p].orders, x) ensures IndexedAt(b, x, side, p) {
      StandsOnce(b, side, p, x);
    }
  }

  lemma SidesApart(b: BookState)
    requires Linked(b)
    ensures forall x :: SomewhereIn(b.bids, x) ==> !SomewhereIn(b.asks, x)
  {
    hide Linked, SomewhereIn;
    SideNoneTwice(b, Buy);
    SideNoneTwice(b, Sell);
  }

  /** The same queue at every price on both sides. */
  ghost predicate SameQueues(b: BookState, b': BookState) {
    forall side, p :: b'.QueueAt(side, p) == b.QueueAt(side, p)
  }

  /** Listing a book and adding the lines to an empty one rebuilds every queue, in order. */
  lemma RebuildBook(b: BookState)
    requires Linked(b)
    ensures var r := AddLines(NO_DEPTH, BookLines(b)); r.Some? && Linked(r.value) && SameQueues(b, r.value)
  {
    hide Linked, LevelOk, SomewhereIn, SideLines, NoneTwice;
    EmptyLinked();
    LinkedLevels(b);
    SideNoneTwice(b, Buy);
    SideNoneTwice(b, Sell);
    AddSide(NO_DEPTH, Buy, b.bids);
    var half := AddLines(NO_DEPTH, SideLines(Buy, b.bids)).value;
    SidesApart(b);
    AddSide(half, Sell, b.asks);
    AddLinesConcat(NO_DEPTH, SideLines(Buy, b.bids), SideLines(Sell, b.asks));
    var b' := AddLines(NO_DEPTH, BookLines(b)).value;
    forall side, p ensures b'.QueueAt(side, p) == b.QueueAt(side, p) {
      assert half.QueueAt(side, p) == NO_DEPTH.QueueAt(side, p) + (if side.Buy? && p in b.bids then b.bids[p].orders else []);
    }
  }

  lemma EmptyLinked()
    ensures Linked(NO_DEPTH)
  {
  }

  lemma LinkedLevels(b: BookState)
    requires Linked(b)
    ensures forall side, p :: p in b.Levels(side) ==> LevelOk(p, b.Levels(side)[p])
  {
  }

  /** Books with the same queues hold the same orders. */
  lemma SameQueuesSameContents(b: BookState, b': BookState)
    requires Linked(b) && Linked(b') && SameQueues(b, b')
    ensures Contents(b) == Contents(b')
  {
    hide Linked, Contents;
    ContentsKeys(b);
    ContentsKeys(b');
    forall x | x in b.index ensures x in Contents(b') && Contents(b')[x] == Contents(b)[x] {
      var e := EntryFor(b, x);
      Holds(b, b.index[x].side, b.index[x].price, e);
      Holds(b', b.index[x].side, b.index[x].price, e);
    }
    forall x | x in b'.index ensures x in Contents(b) {
      var e := EntryFor(b', x);
      Holds(b, b'.index[x].side, b'.index[x].price, e);
    }
  }

  // ---------- entries as messages ----------

  function LineOf(m: FeedMessage): Line
    requires m.AddOrder?
  {
    Line(m.side, m.price, Entry(m.orderId, m.quantity))
  }

  /** One entry applied to the books; None unless it is an AddOrder that its book accepts. */
  function AddMessage(books: Books, m: FeedMessage): Option<Books> {
    if !m.AddOrder? then None
    else
      var b := AddLine(BookIn(books, m.instrumentId), LineOf(m));
      if b.None? then None else Some(books[m.instrumentId := b.value])
  }

  function AddMessages(books: Books, messages: seq<FeedMessage>): Option<Books>
    decreases |messages|
  {
    if messages == [] then Some(books)
    else
      var one := AddMessage(books, messages[0]);
      if one.None? then None else AddMessages(one.value, messages[1..])
  }

  lemma {:induction false} AddMessagesConcat(books: Books, a: seq<FeedMessage>, c: seq<FeedMessage>)
    ensures AddMessages(books, a + c)
              == if AddMessages(books, a).None? then None else AddMessages(AddMessages(books, a).value, c)
    decreases |a|
  {
    hide AddMessage;
    if a == [] {
      assert a + c == c;
    } else {
      assert (a + c)[1..] == a[1..] + c;
      if AddMessage(books, a[0]).Some? {
        AddMessagesConcat(AddMessage(books, a[0]).value, a[1..], c);
      }
    }
  }

  /** One book's entries change that book alone, as adding its lines does. */
  lemma {:induction false} OneBooksMessages(books: Books, id: InstrumentId, n: nat, lines: seq<Line>)
    requires AddLines(BookIn(books, id), lines).Some?
    ensures var r := AddMessages(books, MessagesOf(id, n, lines));
            && r.Some?
            && BookIn(r.value, id) == AddLines(BookIn(books, id), lines).value
            && forall x :: x != id ==> BookIn(r.value, x) == BookIn(books, x)
    decreases |lines|
  {
    hide AddLine;
    var messages := MessagesOf(id, n, lines);
    if lines != [] {
      assert messages[0] == MessageOf(id, n, lines[0]) && LineOf(messages[0]) == lines[0];
      assert messages[1..] == MessagesOf(id, n, lines[1..]);
      var one := AddMessage(books, messages[0]).value;
      OneBooksMessages(one, id, n, lines[1..]);
    }
  }

  /** Every book listed comes back with the same queues, and no other book is touched. */
  lemma {:induction false} RebuildAll(ids: seq<InstrumentId>, n: nat, books: Books, start: Books)
    requires forall i, j :: 0 <= i < j < |ids| ==> ids[i] != ids[j]
    requires forall id :: id in ids ==> Linked(BookIn(books, id)) && BookIn(start, id) == NO_DEPTH
    ensures var r := AddMessages(start, AllMessages(ids, n, books));
            && r.Some?
            && (forall id :: id in ids ==> Rebuilt(BookIn(books, id), BookIn(r.value, id)))
            && (forall id :: id !in ids ==> BookIn(r.value, id) == BookIn(start, id))
    decreases |ids|
  {
    hide Linked, SameQueues, BookLines, AddLines, MessagesOf, BookIn;
    if ids != [] {
      var id, lines := ids[0], BookLines(BookIn(books, ids[0]));
      RebuildBook(BookIn(books, id));
      OneBooksMessages(start, id, n, lines);
      var one := AddMessages(start, MessagesOf(id, n, lines)).value;
      assert forall i :: 1 <= i < |ids| ==> ids[i] == ids[1..][i - 1];
      RebuildAll(ids[1..], n, books, one);
      AddMessagesConcat(start, MessagesOf(id, n, lines), AllMessages(ids[1..], n, books));
    }
  }

  ghost predicate Rebuilt(b: BookState, b': BookState) {
    Linked(b) && Linked(b') && SameQueues(b, b')
  }

  // ---------- the file ----------

  function SnapshotHeader(n: nat, count: nat): (values: seq<int>)
    requires InKind(U64, n) && InKind(U64, count)
    ensures InKinds(SNAPSHOT_KINDS, values)
  {
    [SNAPSHOT_MAGIC, SNAPSHOT_VERSION, 0, n, count]
  }

  ghost function WriteFile(n: nat, ids: seq<InstrumentId>, books: Books): Bytes
    requires InKind(U64, n) && InKind(U64, |AllMessages(ids, n, books)|) && AllInRange(AllMessages(ids, n, books))
  {
    var messages := AllMessages(ids, n, books);
    EncodeFields(SNAPSHOT_KINDS, SnapshotHeader(n, |messages|)) + EncodeAll(messages)
  }

  datatype Snapshot = Snapshot(sequence: nat, books: Books)

  const ADD_ORDER_TAG := 1

  /** The frame at the front: an AddOrder, whole and well formed. */
  function ReadEntry(s: Bytes): (r: Option<(FeedMessage, Bytes)>)
    ensures r.Some? ==> |r.value.1| < |s|
  {
    if |s| < HEADER_SIZE then None
    else
      var h := DecodeHeader(s[..HEADER_SIZE]);
      if h.BadHeader? || h.header.tag != ADD_ORDER_TAG || |s| < HEADER_SIZE + h.header.payloadSize then None
      else
        var size := HEADER_SIZE + h.header.payloadSize;
        var decoded := Decode(s[..size]);
        if decoded.Bad? then None else Some((decoded.message, s[size..]))
  }

  function ReadEntries(books: Books, s: Bytes, count: nat): Option<Books>
    decreases count
  {
    if count == 0 then Some(books)
    else
      var entry := ReadEntry(s);
      if entry.None? then None
      else
        var one := AddMessage(books, entry.value.0);
        if one.None? then None else ReadEntries(one.value, entry.value.1, count - 1)
  }

  lemma SnapshotHeaderSize()
    ensures WidthOf(SNAPSHOT_KINDS) == SNAPSHOT_HEADER_SIZE
  {
  }

  function ReadFile(s: Bytes): Option<Snapshot> {
    if |s| < SNAPSHOT_HEADER_SIZE then None
    else
      SnapshotHeaderSize();
      var h := DecodeFields(SNAPSHOT_KINDS, s[..SNAPSHOT_HEADER_SIZE]);
      RecordReverse(SNAPSHOT_KINDS, s[..SNAPSHOT_HEADER_SIZE]);
      assert InKind(U64, h[3]) && InKind(U64, h[4]);
      if h[0] != SNAPSHOT_MAGIC || h[1] != SNAPSHOT_VERSION || h[2] != 0 then None
      else
        var books := ReadEntries(map[], s[SNAPSHOT_HEADER_SIZE..], h[4]);
        if books.None? then None else Some(Snapshot(h[3], books.value))
  }

  lemma ReadWrittenEntry(m: FeedMessage, rest: Bytes)
    requires InRange(m) && m.AddOrder?
    ensures ReadEntry(Encode(m) + rest) == Some((m, rest))
  {
    hide Decode, DecodeHeader, InRange;
    FrameAtFront(m, rest);
    HeaderRoundTrip(m, []);
    var s := Encode(m) + rest;
    assert Encode(m) + [] == Encode(m);
    HeaderPrefix(Encode(m));
    assert s[..HEADER_SIZE] == Encode(m)[..HEADER_SIZE];
  }

  lemma HeaderPrefix(s: Bytes)
    requires |s| >= HEADER_SIZE
    ensures DecodeHeader(s[..HEADER_SIZE]) == DecodeHeader(s)
  {
    hide DecodeFields;
    assert s[..HEADER_SIZE][..HEADER_SIZE] == s[..HEADER_SIZE];
  }

  lemma {:induction false} ReadWrittenEntries(books: Books, messages: seq<FeedMessage>)
    requires AllInRange(messages) && forall m :: m in messages ==> m.AddOrder?
    ensures ReadEntries(books, EncodeAll(messages), |messages|) == AddMessages(books, messages)
    decreases |messages|
  {
    hide Encode, InRange, ReadEntry, AddMessage;
    if messages != [] {
      assert messages[0] in messages;
      ReadWrittenEntry(messages[0], EncodeAll(messages[1..]));
      if AddMessage(books, messages[0]).Some? {
        ReadWrittenEntries(AddMessage(books, messages[0]).value, messages[1..]);
      }
    }
  }

  lemma {:induction false} AllAreAdds(ids: seq<InstrumentId>, n: nat, books: Books)
    ensures forall m :: m in AllMessages(ids, n, books) ==> m.AddOrder?
    decreases |ids|
  {
    if ids != [] {
      AllAreAdds(ids[1..], n, books);
    }
  }

  /** A snapshot read back after writing gives the same sequence number and, for every instrument, the same price
      levels with the same orders in the same queue order. */
  lemma ReadAfterWrite(n: nat, ids: seq<InstrumentId>, books: Books)
    requires InKind(U64, n) && InKind(U64, |AllMessages(ids, n, books)|) && AllInRange(AllMessages(ids, n, books))
    requires forall i, j :: 0 <= i < j < |ids| ==> ids[i] != ids[j]
    requires forall id :: id in books ==> id in ids && Linked(books[id])
    ensures var r := ReadFile(WriteFile(n, ids, books));
            && r.Some? && r.value.sequence == n
            && forall id :: Rebuilt(BookIn(books, id), BookIn(r.value.books, id))
  {
    hide DecodeFields, EncodeFields, WidthOf, AllMessages, ReadEntries, EncodeAll, Linked, SameQueues, InRange;
    SnapshotHeaderSize();
    EmptyLinked();
    EmptySame();
    var messages := AllMessages(ids, n, books);
    var s, h := WriteFile(n, ids, books), SnapshotHeader(n, |messages|);
    assert s[..SNAPSHOT_HEADER_SIZE] == EncodeFields(SNAPSHOT_KINDS, h);
    assert s[SNAPSHOT_HEADER_SIZE..] == EncodeAll(messages);
    RecordRoundTrip(SNAPSHOT_KINDS, h);
    AllAreAdds(ids, n, books);
    ReadWrittenEntries(map[], messages);
    RebuildAll(ids, n, books, map[]);
  }

  lemma EmptySame()
    ensures SameQueues(NO_DEPTH, NO_DEPTH)
  {
  }

  // ---------- which files are accepted ----------

  predicate AllAdds(messages: seq<FeedMessage>) {
    AllInRange(messages) && forall m :: m in messages ==> m.AddOrder?
  }

  /** An entry that is accepted is the encoding of its message. */
  lemma EntryReverse(s: Bytes)
    requires ReadEntry(s).Some?
    ensures var (m, rest) := ReadEntry(s).value;
            m.AddOrder? && InRange(m) && s == Encode(m) + rest
  {
    hide DecodeFields, InRange, Encode;
    var size := HEADER_SIZE + DecodeHeader(s[..HEADER_SIZE]).header.payloadSize;
    var frame := s[..size];
    assert frame[..HEADER_SIZE] == s[..HEADER_SIZE];
    HeaderPrefix(frame);
    assert FrameLength(frame) == Some(size);
    assert frame[..size] == frame;
    WholeFrame(frame, size);
    AddByTag(frame);
    assert s == s[..size] + s[size..];
  }

  lemma AddByTag(s: Bytes)
    requires Decode(s).Good? && DecodeHeader(s).header.tag == ADD_ORDER_TAG
    ensures Decode(s).message.AddOrder?
  {
    hide DecodeFields, WidthOf;
  }

  lemma {:induction false} EntriesReverse(books: Books, s: Bytes, count: nat)
    returns (messages: seq<FeedMessage>, rest: Bytes)
    requires ReadEntries(books, s, count).Some?
    ensures |messages| == count && AllAdds(messages) && s == EncodeAll(messages) + rest
    ensures AddMessages(books, messages) == ReadEntries(books, s, count)
    decreases count
  {
    hide ReadEntry, AddMessage, Encode, InRange;
    if count == 0 {
      messages, rest := [], s;
      assert [] + s == s;
    } else {
      var (m, s') := ReadEntry(s).value;
      EntryReverse(s);
      var more: seq<FeedMessage>;
      more, rest := EntriesReverse(AddMessage(books, m).value, s', count - 1);
      messages := [m] + more;
      assert messages[1..] == more;
      assert s == Encode(m) + (EncodeAll(more) + rest) == EncodeAll(messages) + rest;
    }
  }

  lemma {:induction false} EntriesThen(books: Books, messages: seq<FeedMessage>, rest: Bytes)
    requires AllAdds(messages)
    ensures ReadEntries(books, EncodeAll(messages) + rest, |messages|) == AddMessages(books, messages)
    decreases |messages|
  {
    hide Encode, InRange, ReadEntry, AddMessage;
    if messages != [] {
      assert messages[0] in messages;
      var tail := EncodeAll(messages[1..]) + rest;
      assert EncodeAll(messages) + rest == Encode(messages[0]) + tail;
      ReadWrittenEntry(messages[0], tail);
      if AddMessage(books, messages[0]).Some? {
        EntriesThen(AddMessage(books, messages[0]).value, messages[1..], rest);
      }
    }
  }

  /** The file is a header for these orders, their frames, and whatever comes after. */
  predicate IsFile(s: Bytes, n: nat, messages: seq<FeedMessage>, rest: Bytes) {
    && InKind(U64, n) && InKind(U64, |messages|) && AllAdds(messages)
    && s == EncodeFields(SNAPSHOT_KINDS, [SNAPSHOT_MAGIC, SNAPSHOT_VERSION, 0, n, |messages|])
            + (EncodeAll(messages) + rest)
  }

  lemma FileReads(s: Bytes, n: nat, messages: seq<FeedMessage>, rest: Bytes)
    requires IsFile(s, n, messages, rest)
    ensures ReadFile(s) == (if AddMessages(map[], messages).None? then None
                            else Some(Snapshot(n, AddMessages(map[], messages).value)))
  {
    hide DecodeFields, EncodeFields, WidthOf, EncodeAll, AllInRange, ReadEntries, AddMessages;
    SnapshotHeaderSize();
    var h := SnapshotHeader(n, |messages|);
    RecordRoundTrip(SNAPSHOT_KINDS, h);
    assert s[..SNAPSHOT_HEADER_SIZE] == EncodeFields(SNAPSHOT_KINDS, h);
    assert s[SNAPSHOT_HEADER_SIZE..] == EncodeAll(messages) + rest;
    EntriesThen(map[], messages, rest);
  }

  /** A file is accepted, as this snapshot, exactly when it is a header with the right magic, version and zero word and
      then as many AddOrder frames as that says, which fresh books all take. */
  lemma FileAcceptedExactly(s: Bytes, snapshot: Snapshot)
    ensures (exists messages, rest :: IsFile(s, snapshot.sequence, messages, rest)
                                      && AddMessages(map[], messages) == Some(snapshot.books))
            <==> ReadFile(s) == Some(snapshot)
  {
    hide IsFile, AddMessages, ReadFile;
    if ReadFile(s) == Some(snapshot) {
      var messages, rest := FileReverse(s, snapshot);
    }
    forall messages, rest | IsFile(s, snapshot.sequence, messages, rest)
                            && AddMessages(map[], messages) == Some(snapshot.books)
      ensures ReadFile(s) == Some(snapshot)
    {
      FileReads(s, snapshot.sequence, messages, rest);
    }
  }

  lemma FileReverse(s: Bytes, snapshot: Snapshot) returns (messages: seq<FeedMessage>, rest: Bytes)
    requires ReadFile(s) == Some(snapshot)
    ensures IsFile(s, snapshot.sequence, messages, rest) && AddMessages(map[], messages) == Some(snapshot.books)
  {
    hide DecodeFields, EncodeFields, WidthOf, EncodeAll, AllInRange, ReadEntries, AddMessages;
    SnapshotHeaderSize();
    var front := s[..SNAPSHOT_HEADER_SIZE];
    var h := DecodeFields(SNAPSHOT_KINDS, front);
    RecordReverse(SNAPSHOT_KINDS, front);
    assert InKind(U64, h[3]) && InKind(U64, h[4]);
    messages, rest := EntriesReverse(map[], s[SNAPSHOT_HEADER_SIZE..], h[4]);
    assert h == [SNAPSHOT_MAGIC, SNAPSHOT_VERSION, 0, snapshot.sequence, |messages|];
    assert s == front + s[SNAPSHOT_HEADER_SIZE..];
  }

  // ---------- the loops ----------

  ghost predicate LinesFit(id: InstrumentId, n: nat, lines: seq<Line>) {
    AllInRange(MessagesOf(id, n, lines))
  }

  ghost function EncodeLines(id: InstrumentId, n: nat, lines: seq<Line>): Bytes
    requires LinesFit(id, n, lines)
  {
    EncodeAll(MessagesOf(id, n, lines))
  }

  lemma {:induction false} LinesSplit(id: InstrumentId, n: nat, a: seq<Line>, b: seq<Line>)
    requires LinesFit(id, n, a + b)
    ensures LinesFit(id, n, a) && LinesFit(id, n, b)
    ensures EncodeLines(id, n, a + b) == EncodeLines(id, n, a) + EncodeLines(id, n, b)
    decreases |a|
  {
    hide Encode, InRange;
    var whole := MessagesOf(id, n, a + b);
    assert forall i :: 0 <= i < |a| ==> MessagesOf(id, n, a)[i] == whole[i];
    assert forall i :: 0 <= i < |b| ==> MessagesOf(id, n, b)[i] == whole[|a| + i];
    if a == [] {
      assert a + b == b;
    } else {
      assert (a + b)[1..] == a[1..] + b;
      assert whole[1..] == MessagesOf(id, n, a[1..] + b) && MessagesOf(id, n, a)[1..] == MessagesOf(id, n, a[1..]);
      LinesSplit(id, n, a[1..], b);
    }
  }

  lemma OneLine(id: InstrumentId, n: nat, line: Line)
    requires LinesFit(id, n, [line])
    ensures InRange(MessageOf(id, n, line)) && EncodeLines(id, n, [line]) == Encode(MessageOf(id, n, line))
  {
    hide Encode, InRange;
    var one := MessagesOf(id, n, [line]);
    assert one[0] == MessageOf(id, n, line) && InRange(one[0]);
    assert one[1..] == [] && EncodeAll(one[1..]) == [];
  }

  method AppendQueue(id: InstrumentId, side: Side, n: nat, p: Price, q: seq<Entry>, buf: Bytes) returns (buf': Bytes)
    requires LinesFit(id, n, QueueLines(side, p, q))
    ensures buf' == buf + EncodeLines(id, n, QueueLines(side, p, q))
  {
    hide LinesFit, EncodeLines, Encode, InRange;
    buf' := buf;
    assert q[0..] == q;
    for j := 0 to |q|
      invariant LinesFit(id, n, QueueLines(side, p, q[j..]))
      invariant buf' + EncodeLines(id, n, QueueLines(side, p, q[j..])) == buf + EncodeLines(id, n, QueueLines(side, p, q))
    {
      var line := Line(side, p, q[j]);
      assert q[j..][0] == q[j] && q[j..][1..] == q[j + 1..];
      LinesSplit(id, n, [line], QueueLines(side, p, q[j + 1..]));
      OneLine(id, n, line);
      buf' := buf' + Encode(MessageOf(id, n, line));
    }
    assert q[|q|..] == [];
    NoLines(id, n);
  }

  lemma NoLines(id: InstrumentId, n: nat)
    ensures LinesFit(id, n, []) && EncodeLines(id, n, []) == []
  {
  }

  /** append_side: one frame per order, level by level. */
  method AppendSide(book: OrderBook, id: InstrumentId, side: Side, n: nat, buf: Bytes) returns (buf': Bytes)
    requires book.Valid() && LinesFit(id, n, SideLines(side, book.State().Levels(side)))
    ensures buf' == buf + EncodeLines(id, n, SideLines(side, book.State().Levels(side)))
  {
    hide Linked, LinesFit, EncodeLines, SideLines, Listing, QueueLines;
    ListingLines(side, book.State().Levels(side));
    var listing := book.All(side);
    buf' := buf;
    assert listing[0..] == listing;
    for i := 0 to |listing|
      invariant LinesFit(id, n, ListedLines(side, listing[i..]))
      invariant buf' + EncodeLines(id, n, ListedLines(side, listing[i..]))
                  == buf + EncodeLines(id, n, ListedLines(side, listing))
    {
      var p, q: seq<Entry> := listing[i].0, listing[i].1;
      assert listing[i..][0] == listing[i] && listing[i..][1..] == listing[i + 1..];
      LinesSplit(id, n, QueueLines(side, p, q), ListedLines(side, listing[i + 1..]));
      buf' := AppendQueue(id, side, n, p, q, buf');
    }
    assert listing[|listing|..] == [];
    NoLines(id, n);
  }

  ghost function ListedLines(side: Side, listing: seq<(Price, seq<Entry>)>): seq<Line> {
    if listing == [] then [] else QueueLines(side, listing[0].0, listing[0].1) + ListedLines(side, listing[1..])
  }

  lemma {:induction false} ListingLines(side: Side, levels: map<Price, PriceLevel>)
    ensures SideLines(side, levels) == ListedLines(side, Listing(side, levels))
    decreases |levels|
  {
    hide Extreme;
    if levels != map[] {
      SomePrice(levels);
      var p := Extreme(side, levels.Keys);
      ListingLines(side, levels - {p});
      assert Listing(side, levels)[1..] == Listing(side, levels - {p});
    }
  }

  /** read_snapshot's loop over the entries. */
  method ReadBooks(s: Bytes, count: nat) returns (r: Option<Books>)
    ensures r == ReadEntries(map[], s, count)
  {
    hide ReadEntry, AddMessage;
    var books: Books := map[];
    var rest := s;
    for i := 0 to count
      invariant ReadEntries(books, rest, count - i) == ReadEntries(map[], s, count)
    {
      var entry := ReadEntry(rest);
      if entry.None? {
        return None;
      }
      var one := AddMessage(books, entry.value.0);
      if one.None? {
        return None;
      }
      books, rest := one.value, entry.value.1;
    }
    r := Some(books);
  }
}
