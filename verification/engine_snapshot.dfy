/** The canonical dump of every resting order, by which two independently built engines are compared. */
module EngineSnapshots {
  import opened ExchangeTypes
  import opened MatchingModel
  import opened MatchingInvariants

  datatype InstrumentBook = InstrumentBook(
    instrumentId: InstrumentId, bids: seq<RestingOrder>, asks: seq<RestingOrder>)

  /** A full order again: what the book holds, plus the two fields only the directory keeps. None is the
      exception thrown when the order's own key is not in the directory. */
  function Compose(directory: map<LiveKey, OrderRef>, o: BookOrder, id: InstrumentId): Option<RestingOrder> {
    if o.Key() !in directory then None
    else
      var ref := directory[o.Key()];
      Some(RestingOrder(o.exchangeOrderId, o.clientOrderId, o.accountId, o.price, ref.originalQuantity,
                        o.remainingQuantity, ref.orderSequence, id, o.side, o.timeInForce))
  }

  function ComposeAll(directory: map<LiveKey, OrderRef>, s: seq<BookOrder>, id: InstrumentId)
    : (r: Option<seq<RestingOrder>>)
    ensures r.Some? ==> |r.value| == |s|
  {
    if s == [] then Some([])
    else
      var init, last := ComposeAll(directory, s[..|s| - 1], id), Compose(directory, s[|s| - 1], id);
      if init.None? || last.None? then None else Some(init.value + [last.value])
  }

  predicate Occupied(st: EngineState, id: InstrumentId) {
    id in st.books && st.books[id] != EMPTY_BOOK
  }

  ghost predicate Dumps(st: EngineState, entry: InstrumentBook) {
    && Occupied(st, entry.instrumentId)
    && Some(entry.bids) == ComposeAll(st.directory, st.books[entry.instrumentId].bids, entry.instrumentId)
    && Some(entry.asks) == ComposeAll(st.directory, st.books[entry.instrumentId].asks, entry.instrumentId)
  }

  ghost predicate Lists(snap: seq<InstrumentBook>, id: InstrumentId) {
    exists i :: 0 <= i < |snap| && snap[i].instrumentId == id
  }

  ghost predicate Ascending(snap: seq<InstrumentBook>) {
    forall i, j :: 0 <= i < j < |snap| ==> snap[i].instrumentId < snap[j].instrumentId
  }

  /** Every occupied instrument once, in ascending order, with its orders in priority order. */
  ghost predicate IsSnapshot(st: EngineState, snap: seq<InstrumentBook>) {
    && Ascending(snap)
    && (forall i :: 0 <= i < |snap| ==> Dumps(st, snap[i]))
    && (forall id :: Occupied(st, id) ==> Lists(snap, id))
  }

  lemma {:induction false} ComposeAllReads(directory: map<LiveKey, OrderRef>, s: seq<BookOrder>, id: InstrumentId)
    ensures ComposeAll(directory, s, id).Some? <==> forall o :: o in s ==> o.Key() in directory
    ensures ComposeAll(directory, s, id).Some? ==>
              forall i :: 0 <= i < |s| ==> Some(ComposeAll(directory, s, id).value[i]) == Compose(directory, s[i], id)
  {
    if s != [] {
      ComposeAllReads(directory, s[..|s| - 1], id);
      assert s == s[..|s| - 1] + [s[|s| - 1]];
    }
  }

  /** Nothing a snapshot shows is lost: equal dumps come from equal books. */
  lemma {:induction false} ComposeAllInjective(d: map<LiveKey, OrderRef>, d': map<LiveKey, OrderRef>,
                                               s: seq<BookOrder>, s': seq<BookOrder>, id: InstrumentId)
    requires ComposeAll(d, s, id) == ComposeAll(d', s', id) != None
    ensures s == s'
  {
    ComposeAllReads(d, s, id);
    ComposeAllReads(d', s', id);
    forall i | 0 <= i < |s| ensures s[i] == s'[i] {
      assert Compose(d, s[i], id) == Compose(d', s'[i], id);
    }
  }

  lemma {:induction false} SameIds(a: seq<InstrumentBook>, b: seq<InstrumentBook>, k: nat)
    requires Ascending(a) && Ascending(b) && k <= |a| && k <= |b|
    requires forall id :: Lists(a, id) <==> Lists(b, id)
    ensures forall i :: 0 <= i < k ==> a[i].instrumentId == b[i].instrumentId
  {
    if k > 0 {
      SameIds(a, b, k - 1);
      assert Lists(a, a[k - 1].instrumentId) && Lists(b, b[k - 1].instrumentId);
      var i :| 0 <= i < |b| && b[i].instrumentId == a[k - 1].instrumentId;
      var j :| 0 <= j < |a| && a[j].instrumentId == b[k - 1].instrumentId;
    }
  }

  lemma SameLength(a: seq<InstrumentBook>, b: seq<InstrumentBook>)
    requires Ascending(a) && Ascending(b)
    requires forall id :: Lists(a, id) <==> Lists(b, id)
    ensures |a| <= |b|
  {
    SameIds(a, b, if |a| <= |b| then |a| else |b|);
    if a != [] {
      var i := |a| - 1;
      assert Lists(a, a[i].instrumentId);
      var j :| 0 <= j < |b| && b[j].instrumentId == a[i].instrumentId;
      assert j < |a| ==> a[j].instrumentId == a[i].instrumentId;
    }
  }

  /** Equal resting orders, equal snapshots, whatever empty books the two engines also have. */
  lemma SnapshotUnique(st: EngineState, st': EngineState, a: seq<InstrumentBook>, b: seq<InstrumentBook>)
    requires IsSnapshot(st, a) && IsSnapshot(st', b) && st.directory == st'.directory
    requires forall id :: Occupied(st, id) <==> Occupied(st', id)
    requires forall id :: Occupied(st, id) ==> st.books[id] == st'.books[id]
    ensures a == b
  {
    forall id ensures Lists(a, id) <==> Lists(b, id) {
    }
    SameLength(a, b);
    SameLength(b, a);
    SameIds(a, b, |a|);
    forall i | 0 <= i < |a| ensures a[i] == b[i] {
      assert Dumps(st, a[i]) && Dumps(st', b[i]);
    }
  }

  /** Equal snapshots, equal resting orders in equal priority order. */
  lemma SnapshotDeterminesBooks(st: EngineState, st': EngineState, snap: seq<InstrumentBook>, id: InstrumentId)
    requires IsSnapshot(st, snap) && IsSnapshot(st', snap)
    ensures Occupied(st, id) <==> Occupied(st', id)
    ensures Occupied(st, id) ==> st.books[id] == st'.books[id]
  {
    if Occupied(st, id) || Occupied(st', id) {
      assert Lists(snap, id);
      var i :| 0 <= i < |snap| && snap[i].instrumentId == id;
      assert Dumps(st, snap[i]) && Dumps(st', snap[i]);
      ComposeAllInjective(st.directory, st'.directory, st.books[id].bids, st'.books[id].bids, id);
      ComposeAllInjective(st.directory, st'.directory, st.books[id].asks, st'.books[id].asks, id);
    }
  }

  /** Some instrument's book holds an order whose key the directory does not know. */
  ghost predicate Uncomposable(st: EngineState) {
    exists id, o :: Rests(st, id, o) && o.Key() !in st.directory
  }

  lemma ComposesOrNot(st: EngineState, id: InstrumentId, side: Side)
    requires id in st.books && ComposeAll(st.directory, st.books[id].Orders(side), id).None?
    ensures Uncomposable(st)
  {
    ComposeAllReads(st.directory, st.books[id].Orders(side), id);
    var o :| o in st.books[id].Orders(side) && o.Key() !in st.directory;
    assert Rests(st, id, o);
  }

  lemma SnapshotComposes(st: EngineState, snap: seq<InstrumentBook>)
    requires IsSnapshot(st, snap)
    ensures !Uncomposable(st)
  {
    forall id, o | Rests(st, id, o) ensures o.Key() in st.directory {
      assert Occupied(st, id);
      assert Lists(snap, id);
      var i :| 0 <= i < |snap| && snap[i].instrumentId == id;
      assert Dumps(st, snap[i]);
      ComposeAllReads(st.directory, st.books[id].bids, id);
      ComposeAllReads(st.directory, st.books[id].asks, id);
    }
  }

  /** A snapshot in the making: `ids` are done. */
  ghost predicate DumpsFirst(st: EngineState, ids: seq<InstrumentId>, snap: seq<InstrumentBook>) {
    && Ascending(snap)
    && (forall i :: 0 <= i < |snap| ==> Dumps(st, snap[i]) && snap[i].instrumentId in ids)
    && (forall id :: id in ids && Occupied(st, id) ==> Lists(snap, id))
  }

  lemma DumpNext(st: EngineState, ids: seq<InstrumentId>, snap: seq<InstrumentBook>, entry: InstrumentBook)
    requires DumpsFirst(st, ids, snap) && forall x :: x in ids ==> x < entry.instrumentId
    requires entry.instrumentId in st.books
    requires Some(entry.bids) == ComposeAll(st.directory, st.books[entry.instrumentId].bids, entry.instrumentId)
    requires Some(entry.asks) == ComposeAll(st.directory, st.books[entry.instrumentId].asks, entry.instrumentId)
    ensures DumpsFirst(st, ids + [entry.instrumentId],
                       if entry.bids == [] && entry.asks == [] then snap else snap + [entry])
  {
    hide ComposeAll;
    var snap' := if entry.bids == [] && entry.asks == [] then snap else snap + [entry];
    forall id | id in ids + [entry.instrumentId] && Occupied(st, id) ensures Lists(snap', id) {
      if id == entry.instrumentId {
        assert snap'[|snap|].instrumentId == id;
      } else {
        assert Lists(snap, id);
        var i :| 0 <= i < |snap| && snap[i].instrumentId == id;
        assert snap'[i].instrumentId == id;
      }
    }
  }
}
