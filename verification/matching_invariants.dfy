/** What every command keeps, and what one matching pass does, for the model in MatchingModel. */
module MatchingInvariants {
  import opened ExchangeTypes
  import opened MatchingModel

  // ---------- well-formed books ----------

  ghost predicate SideOk(side: Side, s: seq<BookOrder>) {
    && (forall o :: o in s ==> o.side == side && o.price > 0 && o.remainingQuantity > 0 && o.timeInForce == GTC)
    && (forall i, j :: 0 <= i < j < |s| ==> !Better(side, s[j].price, s[i].price))
    && (forall i, j :: 0 <= i < j < |s| ==> s[i].exchangeOrderId != s[j].exchangeOrderId)
  }

  ghost predicate Rests(st: EngineState, id: InstrumentId, o: BookOrder) {
    id in st.books && (o in st.books[id].bids || o in st.books[id].asks)
  }

  /** Books are in priority order, hold only live GTC orders, and no exchange id rests twice anywhere. */
  ghost predicate BooksOk(st: EngineState) {
    && (forall id :: id in st.books ==> SideOk(Buy, st.books[id].bids) && SideOk(Sell, st.books[id].asks))
    && (forall id, o :: Rests(st, id, o) ==> o.exchangeOrderId < st.nextExchangeOrderId)
    && (forall id, o, id', o' :: Rests(st, id, o) && Rests(st, id', o') && o.exchangeOrderId == o'.exchangeOrderId
          ==> id == id' && o == o')
  }

  /** Order o rests where `ref` says, and answers to key k. */
  ghost predicate IsEntryOf(st: EngineState, k: LiveKey, ref: OrderRef, o: BookOrder) {
    Rests(st, ref.instrumentId, o) && o.exchangeOrderId == ref.exchangeOrderId && o.Key() == k
  }

  ghost predicate EntrySound(st: EngineState, k: LiveKey, ref: OrderRef) {
    exists o :: IsEntryOf(st, k, ref, o)
  }

  /** Every directory entry locates a resting order that answers to the entry's own key. */
  ghost predicate DirectorySound(st: EngineState) {
    forall k :: k in st.directory ==> EntrySound(st, k, st.directory[k])
  }

  /** No book could trade with itself: the best bid is below the best ask. */
  ghost predicate Uncrossed(st: EngineState) {
    forall id :: id in st.books && st.books[id].bids != [] && st.books[id].asks != []
      ==> st.books[id].bids[0].price < st.books[id].asks[0].price
  }

  ghost predicate WellFormed(st: EngineState) {
    BooksOk(st) && DirectorySound(st) && Uncrossed(st)
  }

  /** Every resting order is reachable under its own key, and that key locates this very order. */
  ghost predicate DirectoryComplete(st: EngineState) {
    forall id, o :: Rests(st, id, o) ==>
      && o.Key() in st.directory
      && st.directory[o.Key()].exchangeOrderId == o.exchangeOrderId
      && st.directory[o.Key()].instrumentId == id
  }

  // ---------- sequence facts ----------

  lemma RankSplits(side: Side, s: seq<BookOrder>, p: Price)
    requires forall i, j :: 0 <= i < j < |s| ==> !Better(side, s[j].price, s[i].price)
    ensures forall i :: 0 <= i < Rank(side, s, p) ==> !Better(side, p, s[i].price)
    ensures forall i :: Rank(side, s, p) <= i < |s| ==> Better(side, p, s[i].price)
  {
    if s != [] && !Better(side, p, s[0].price) {
      RankSplits(side, s[1..], p);
    }
  }

  lemma InsertKeepsSide(side: Side, s: seq<BookOrder>, o: BookOrder)
    requires SideOk(side, s)
    requires o.side == side && o.price > 0 && o.remainingQuantity > 0 && o.timeInForce == GTC
    requires !HasId(s, o.exchangeOrderId)
    ensures SideOk(side, Insert(s, o))
    ensures forall x :: x in Insert(s, o) <==> x in s || x == o
    ensures s == [] ==> Insert(s, o)[0] == o
    ensures s != [] ==> Insert(s, o)[0] == (if Better(side, o.price, s[0].price) then o else s[0])
  {
    hide HasId, Rank, Insert;
    RankSplits(side, s, o.price);
    InsertReads(side, s, o);
    NotAmong(s, o.exchangeOrderId);
    RankZero(side, s, o.price);
    var k, s' := Rank(side, s, o.price), Insert(s, o);
    PutInMembers(s, s', o, k);
    forall i, j | 0 <= i < j < |s'|
      ensures !Better(side, s'[j].price, s'[i].price) && s'[i].exchangeOrderId != s'[j].exchangeOrderId
    {
      OrderedAt(side, s, s', o, k, i, j);
    }
  }

  /** s' is s with o put in at place k. */
  ghost predicate PutInAt(s: seq<BookOrder>, s': seq<BookOrder>, o: BookOrder, k: nat) {
    && k <= |s| && |s'| == |s| + 1
    && (forall i :: 0 <= i < k ==> s'[i] == s[i])
    && s'[k] == o
    && (forall i :: k < i < |s'| ==> s'[i] == s[i - 1])
  }

  /** What the newcomer's arrival leaves where. */
  lemma InsertReads(side: Side, s: seq<BookOrder>, o: BookOrder)
    requires o.side == side
    ensures PutInAt(s, Insert(s, o), o, Rank(side, s, o.price))
  {
    hide Rank;
  }

  lemma PutInMembers(s: seq<BookOrder>, s': seq<BookOrder>, o: BookOrder, k: nat)
    requires PutInAt(s, s', o, k)
    ensures forall x :: x in s' <==> x in s || x == o
  {
    assert s'[k] == o;
    forall x | x in s ensures x in s' {
      var i :| 0 <= i < |s| && s[i] == x;
      if i < k {
        assert s'[i] == x;
      } else {
        assert s'[i + 1] == x;
      }
    }
  }

  /** Only an order of a better price comes in ahead of everything. */
  lemma RankZero(side: Side, s: seq<BookOrder>, p: Price)
    ensures s == [] ==> Rank(side, s, p) == 0
    ensures s != [] ==> (Rank(side, s, p) == 0 <==> Better(side, p, s[0].price))
  {
  }

  lemma OrderedAt(side: Side, s: seq<BookOrder>, s': seq<BookOrder>, o: BookOrder, k: nat, i: nat, j: nat)
    requires PutInAt(s, s', o, k) && i < j < |s'|
    requires forall a, b :: 0 <= a < b < |s| ==> !Better(side, s[b].price, s[a].price)
    requires forall a, b :: 0 <= a < b < |s| ==> s[a].exchangeOrderId != s[b].exchangeOrderId
    requires forall a :: 0 <= a < k ==> !Better(side, o.price, s[a].price)
    requires forall a :: k <= a < |s| ==> Better(side, o.price, s[a].price)
    requires forall a :: 0 <= a < |s| ==> s[a].exchangeOrderId != o.exchangeOrderId
    ensures !Better(side, s'[j].price, s'[i].price) && s'[i].exchangeOrderId != s'[j].exchangeOrderId
  {
  }

  lemma NotAmong(s: seq<BookOrder>, id: ExchangeOrderId)
    requires !HasId(s, id)
    ensures forall i :: 0 <= i < |s| ==> s[i].exchangeOrderId != id
  {
  }

  lemma RemoveKeepsSide(side: Side, s: seq<BookOrder>, i: nat)
    requires SideOk(side, s) && i < |s|
    ensures SideOk(side, WithoutAt(s, i))
    ensures forall x :: x in WithoutAt(s, i) <==> x in s && x != s[i]
  {
    var s' := WithoutAt(s, i);
    forall x | x in s && x != s[i] ensures x in s' {
      var j :| 0 <= j < |s| && s[j] == x;
      assert s'[if j < i then j else j - 1] == x;
    }
  }

  lemma EditKeepsSide(side: Side, s: seq<BookOrder>, i: nat, o: BookOrder)
    requires SideOk(side, s) && i < |s|
    requires o.exchangeOrderId == s[i].exchangeOrderId && o.price == s[i].price && o.side == side
    requires o.remainingQuantity > 0 && o.timeInForce == GTC
    ensures SideOk(side, s[i := o])
    ensures forall x :: x in s[i := o] <==> (x in s && x != s[i]) || x == o
  {
    var s' := s[i := o];
    assert s'[i] == o;
    forall x | x in s && x != s[i] ensures x in s' {
      var j :| 0 <= j < |s| && s[j] == x;
      assert s'[j] == x;
    }
  }

  // ---------- the three ways a book changes ----------

  ghost predicate OneSideChanged(st: EngineState, st': EngineState, id: InstrumentId, side: Side, s: seq<BookOrder>) {
    && id in st.books
    && st'.books == st.books[id := st.books[id].With(side, s)]
  }

  lemma InsertKeepsBooks(st: EngineState, st': EngineState, id: InstrumentId, o: BookOrder)
    requires BooksOk(st) && id in st.books
    requires OneSideChanged(st, st', id, o.side, Insert(st.books[id].Orders(o.side), o))
    requires o.price > 0 && o.remainingQuantity > 0 && o.timeInForce == GTC
    requires forall id', x :: Rests(st, id', x) ==> x.exchangeOrderId != o.exchangeOrderId
    requires st.nextExchangeOrderId <= st'.nextExchangeOrderId && o.exchangeOrderId < st'.nextExchangeOrderId
    ensures BooksOk(st')
    ensures forall id', x :: Rests(st', id', x) <==> Rests(st, id', x) || (id' == id && x == o)
  {
    var s := st.books[id].Orders(o.side);
    forall i | 0 <= i < |s| ensures s[i].exchangeOrderId != o.exchangeOrderId {
      assert Rests(st, id, s[i]);
    }
    InsertKeepsSide(o.side, s, o);
    forall id', x | Rests(st', id', x) ensures Rests(st, id', x) || (id' == id && x == o) {}
  }

  lemma RemoveKeepsBooks(st: EngineState, st': EngineState, id: InstrumentId, side: Side, i: nat)
    requires BooksOk(st) && id in st.books && i < |st.books[id].Orders(side)|
    requires OneSideChanged(st, st', id, side, WithoutAt(st.books[id].Orders(side), i))
    requires st.nextExchangeOrderId <= st'.nextExchangeOrderId
    ensures BooksOk(st')
    ensures forall id', x :: Rests(st', id', x) <==> Rests(st, id', x) && !(id' == id && x == st.books[id].Orders(side)[i])
  {
    var s := st.books[id].Orders(side);
    RemoveKeepsSide(side, s, i);
    assert s[i] in s;
    forall id', x | Rests(st', id', x) ensures Rests(st, id', x) {}
  }

  lemma EditKeepsBooks(st: EngineState, st': EngineState, id: InstrumentId, side: Side, i: nat, o: BookOrder)
    requires BooksOk(st) && id in st.books && i < |st.books[id].Orders(side)|
    requires OneSideChanged(st, st', id, side, st.books[id].Orders(side)[i := o])
    requires var x := st.books[id].Orders(side)[i];
             o.exchangeOrderId == x.exchangeOrderId && o.price == x.price && o.side == side
    requires o.remainingQuantity > 0 && o.timeInForce == GTC
    requires st.nextExchangeOrderId <= st'.nextExchangeOrderId
    ensures BooksOk(st')
    ensures forall id', x :: Rests(st', id', x) <==>
              (Rests(st, id', x) && !(id' == id && x == st.books[id].Orders(side)[i])) || (id' == id && x == o)
  {
    var s := st.books[id].Orders(side);
    EditKeepsSide(side, s, i, o);
    assert s[i] in s;
    assert Rests(st, id, s[i]);
    forall id', x
      ensures Rests(st', id', x) <==> (Rests(st, id', x) && !(id' == id && x == s[i])) || (id' == id && x == o)
    {
      if id' == id {
        var others := st.books[id].Orders(side.Opposite());
        assert Rests(st, id, x) <==> x in s || x in others;
        assert Rests(st', id, x) <==> x in s[i := o] || x in others;
        assert x in others ==> x.side == side.Opposite();
      } else {
        assert Rests(st', id', x) <==> Rests(st, id', x);
      }
    }
  }
}
