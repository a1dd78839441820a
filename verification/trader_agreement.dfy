/** The subscriber's displayed depth is the exchange's: same prices, same totals, same counts, best first. Only the
    order within a level may differ. */
module TraderAgreement {
  import opened ExchangeTypes
  import opened MatchingModel
  import opened MatchingInvariants
  import opened MatchingTheorems
  import opened FeedModel
  import opened FeedTheorems
  import opened SideIndexes
  import opened TraderLevels
  import opened TraderBooks

  /** The exchange's queue at one price. */
  function OrdersAt(s: seq<BookOrder>, p: Price): seq<Entry> {
    if s == [] then []
    else (if s[0].price == p then [Entry(s[0].exchangeOrderId, s[0].remainingQuantity)] else []) + OrdersAt(s[1..], p)
  }

  lemma {:induction false} OrdersAtReads(s: seq<BookOrder>, p: Price)
    ensures forall e :: e in OrdersAt(s, p) <==>
              exists o :: o in s && o.price == p && e == Entry(o.exchangeOrderId, o.remainingQuantity)
  {
    if s != [] {
      OrdersAtReads(s[1..], p);
      assert s == [s[0]] + s[1..];
    }
  }

  lemma {:induction false} OrdersAtDistinct(s: seq<BookOrder>, p: Price)
    requires forall i, j :: 0 <= i < j < |s| ==> s[i].exchangeOrderId != s[j].exchangeOrderId
    ensures Distinct(OrdersAt(s, p))
  {
    if s != [] {
      OrdersAtDistinct(s[1..], p);
      OrdersAtReads(s[1..], p);
      var rest := OrdersAt(s[1..], p);
      forall i | 0 <= i < |rest| ensures rest[i].orderId != s[0].exchangeOrderId {
        assert rest[i] in rest;
      }
    }
  }

  /** Two queues of distinct orders with the same members have the same total and the same length. */
  lemma {:induction false} SameMembers(a: seq<Entry>, b: seq<Entry>)
    requires Distinct(a) && Distinct(b)
    requires forall e :: e in a <==> e in b
    ensures Total(a) == Total(b) && |a| == |b|
  {
    if a == [] {
      assert forall i :: 0 <= i < |b| ==> b[i] in b;
    } else {
      assert a[0] in b;
      var i :| 0 <= i < |b| && b[i] == a[0];
      var b' := b[..i] + b[i + 1..];
      TotalWithout(b, i);
      forall e ensures e in a[1..] <==> e in b' {
        if e in a[1..] {
          var m :| 0 <= m < |a[1..]| && a[1..][m] == e;
          assert a[m + 1] == e;
          assert e in b;
          var k :| 0 <= k < |b| && b[k] == e;
          assert k != i;
          assert b'[if k < i then k else k - 1] == e;
        }
        if e in b' {
          assert e in b && e != a[0];
        }
      }
      SameMembers(a[1..], b');
    }
  }

  /** The subscriber's book for instrument `id` holds what the exchange's does. */
  ghost predicate InStep(st: EngineState, id: InstrumentId, b: BookState) {
    && BooksOk(st) && id in st.books && Linked(b)
    && (forall o :: Rests(st, id, o) ==>
          o.exchangeOrderId in Contents(b) && Contents(b)[o.exchangeOrderId] == QuoteOf(o))
    && (forall x :: x in Contents(b) ==> OrderRests(st, id, x))
  }

  /** Following the feed puts the subscriber's book in step. */
  lemma FollowingPutsInStep(st: EngineState, depths: Depths, id: InstrumentId, b: BookState)
    requires BooksOk(st) && id in st.books && Mirrors(st, depths)
    requires Linked(b) && Contents(b) == DepthOf(depths, id)
    ensures InStep(st, id, b)
  {
    hide Rests, BooksOk, Linked, Contents;
    forall o | Rests(st, id, o)
      ensures o.exchangeOrderId in Contents(b) && Contents(b)[o.exchangeOrderId] == QuoteOf(o)
    {
      assert Known(depths, id, o);
    }
  }

  lemma SideRests(st: EngineState, id: InstrumentId, side: Side, o: BookOrder)
    requires BooksOk(st) && id in st.books
    ensures o in st.books[id].Orders(side) <==> Rests(st, id, o) && o.side == side
  {
  }

  /** Level by level, the same orders with the same quantities rest on both books. */
  lemma SameOrdersAt(st: EngineState, id: InstrumentId, b: BookState, side: Side, p: Price, e: Entry)
    requires InStep(st, id, b)
    ensures e in b.QueueAt(side, p) <==> e in OrdersAt(st.books[id].Orders(side), p)
  {
    hide Linked, Contents, BooksOk, Rests, BookState.QueueAt;
    var s := st.books[id].Orders(side);
    OrdersAtReads(s, p);
    if e in b.QueueAt(side, p) {
      Holds(b, side, p, e);
      assert OrderRests(st, id, e.orderId);
      var o :| Rests(st, id, o) && o.exchangeOrderId == e.orderId;
      SideRests(st, id, side, o);
    }
    if e in OrdersAt(s, p) {
      var o :| o in s && o.price == p && e == Entry(o.exchangeOrderId, o.remainingQuantity);
      SideRests(st, id, side, o);
      ContentsKeys(b);
      assert o.exchangeOrderId in Contents(b).Keys;
      var e' := EntryFor(b, o.exchangeOrderId);
      Holds(b, b.index[o.exchangeOrderId].side, b.index[o.exchangeOrderId].price, e');
    }
  }

  lemma SideDistinct(st: EngineState, id: InstrumentId, side: Side)
    requires BooksOk(st) && id in st.books
    ensures SideOk(side, st.books[id].Orders(side))
  {
  }

  lemma LevelsAgree(st: EngineState, id: InstrumentId, b: BookState, side: Side, p: Price)
    requires InStep(st, id, b)
    ensures var mine, theirs := b.QueueAt(side, p), OrdersAt(st.books[id].Orders(side), p);
            && (forall e :: e in mine <==> e in theirs)
            && Total(mine) == Total(theirs) && |mine| == |theirs|
  {
    hide Linked, Contents, BooksOk, Rests, BookState.QueueAt, OrdersAt;
    SideDistinct(st, id, side);
    OrdersAtDistinct(st.books[id].Orders(side), p);
    QueueDistinct(b, side, p);
    forall e ensures e in b.QueueAt(side, p) <==> e in OrdersAt(st.books[id].Orders(side), p) {
      SameOrdersAt(st, id, b, side, p, e);
    }
    SameMembers(b.QueueAt(side, p), OrdersAt(st.books[id].Orders(side), p));
  }

  // ---------- displayed depth ----------

  /** The exchange's own depth, read off its priority order. */
  function ExchangeLadder(s: seq<BookOrder>): seq<LevelView>
    decreases |s|
  {
    if s == [] then []
    else [ViewOf(s[0].price, OrdersAt(s, s[0].price))] + ExchangeLadder(Below(s, s[0].price))
  }

  /** What follows the run of orders at price p that s starts with. */
  function Below(s: seq<BookOrder>, p: Price): (t: seq<BookOrder>)
    ensures |t| <= |s| && (s != [] && s[0].price == p ==> |t| < |s|)
  {
    if s == [] || s[0].price != p then s else Below(s[1..], p)
  }

  ghost predicate Sorted(side: Side, s: seq<BookOrder>) {
    forall i, j :: 0 <= i < j < |s| ==> !Better(side, s[j].price, s[i].price)
  }

  lemma {:induction false} BelowReads(side: Side, s: seq<BookOrder>, p: Price)
    requires Sorted(side, s) && (s != [] ==> !Better(side, s[0].price, p))
    ensures Sorted(side, Below(s, p))
    ensures forall o :: o in Below(s, p) <==> o in s && o.price != p
    ensures forall q :: q != p ==> OrdersAt(Below(s, p), q) == OrdersAt(s, q)
  {
    if s != [] && s[0].price == p {
      BelowReads(side, s[1..], p);
      assert s == [s[0]] + s[1..];
    } else if s != [] {
      forall o | o in s ensures o.price != p {
        var i :| 0 <= i < |s| && s[i] == o;
      }
    }
  }

  /** The levels and the priority order show the same at every price. */
  ghost predicate Agrees(levels: map<Price, PriceLevel>, s: seq<BookOrder>) {
    && (forall p :: p in levels <==> PriceIn(s, p))
    && (forall p :: p in levels ==>
          LevelView(p, levels[p].aggregate, |levels[p].orders|) == ViewOf(p, OrdersAt(s, p)))
  }

  ghost predicate PriceIn(s: seq<BookOrder>, p: Price) {
    exists o :: o in s && o.price == p
  }

  lemma {:induction false} LaddersAgree(side: Side, levels: map<Price, PriceLevel>, s: seq<BookOrder>)
    requires Sorted(side, s) && Agrees(levels, s)
    ensures Ladder(side, levels) == ExchangeLadder(s)
    decreases |s|
  {
    if s == [] {
      forall p ensures p !in levels {
        assert !PriceIn(s, p);
      }
      assert levels == map[];
    } else {
      var p := s[0].price;
      assert s[0] in s;
      assert PriceIn(s, p);
      SomePrice(levels);
      forall q | q in levels.Keys ensures q == p || Better(side, p, q) {
        assert PriceIn(s, q);
        var o :| o in s && o.price == q;
        var i :| 0 <= i < |s| && s[i] == o;
      }
      assert Extreme(side, levels.Keys) == p;
      BelowReads(side, s, p);
      BelowAgrees(side, levels, s);
      LaddersAgree(side, levels - {p}, Below(s, p));
    }
  }

  lemma BelowAgrees(side: Side, levels: map<Price, PriceLevel>, s: seq<BookOrder>)
    requires Sorted(side, s) && Agrees(levels, s) && s != []
    ensures Agrees(levels - {s[0].price}, Below(s, s[0].price))
  {
    hide Below, OrdersAt;
    var p := s[0].price;
    BelowReads(side, s, p);
    var t := Below(s, p);
    forall q ensures q in levels - {p} <==> PriceIn(t, q) {
      if q in levels - {p} {
        assert PriceIn(s, q);
        var o :| o in s && o.price == q;
        assert o in t;
      }
      if PriceIn(t, q) {
        var o :| o in t && o.price == q;
        assert o in s;
        assert PriceIn(s, q);
      }
    }
  }

  /** The depth a subscriber displays is, line for line, the exchange's. */
  lemma DisplayedDepthIsExact(st: EngineState, id: InstrumentId, b: BookState, side: Side)
    requires InStep(st, id, b)
    ensures Ladder(side, b.Levels(side)) == ExchangeLadder(st.books[id].Orders(side))
  {
    hide Contents, BooksOk, OrdersAt, EntriesIndexed, IndexStands;
    var s, levels := st.books[id].Orders(side), b.Levels(side);
    SideDistinct(st, id, side);
    forall p
      ensures p in levels <==> PriceIn(s, p)
      ensures p in levels ==> LevelView(p, levels[p].aggregate, |levels[p].orders|) == ViewOf(p, OrdersAt(s, p))
    {
      LevelsAgree(st, id, b, side, p);
      OrdersAtReads(s, p);
      if p in levels {
        LevelTotals(b, side, p);
        assert LevelOk(p, levels[p]);
        assert levels[p].orders[0] in b.QueueAt(side, p);
      }
      if PriceIn(s, p) {
        var o :| o in s && o.price == p;
        assert Entry(o.exchangeOrderId, o.remainingQuantity) in OrdersAt(s, p);
      }
    }
    LaddersAgree(side, levels, s);
  }
}
