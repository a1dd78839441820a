/** When the trader's queues stand in the exchange's own order: they do until the exchange reduces, in place, an order
    that has another behind it at its price. Exactly then the trader's copy goes to the back and the two part. */
module TraderOrder {
  import opened ExchangeTypes
  import opened MatchingModel
  import opened MatchingInvariants
  import opened MatchingTheorems
  import opened CommandTheorems
  import opened FeedModel
  import opened FeedTheorems
  import opened TraderLevels
  import opened TraderFeeds
  import opened TraderAgreement

  // ---------- the exchange's queue at a price ----------

  function EntryOf(o: BookOrder): Entry {
    Entry(o.exchangeOrderId, o.remainingQuantity)
  }

  lemma {:induction false} OrdersAtConcat(a: seq<BookOrder>, b: seq<BookOrder>, p: Price)
    ensures OrdersAt(a + b, p) == OrdersAt(a, p) + OrdersAt(b, p)
  {
    if a == [] {
      assert a + b == b;
    } else {
      var first := if a[0].price == p then [EntryOf(a[0])] else [];
      assert (a + b)[0] == a[0] && (a + b)[1..] == a[1..] + b;
      OrdersAtConcat(a[1..], b, p);
      assert first + (OrdersAt(a[1..], p) + OrdersAt(b, p)) == first + OrdersAt(a[1..], p) + OrdersAt(b, p);
    }
  }

  lemma OrdersAtOne(o: BookOrder, p: Price)
    ensures OrdersAt([o], p) == if p == o.price then [EntryOf(o)] else []
  {
    assert [o][1..] == [];
  }

  lemma {:induction false} OrdersAtNone(s: seq<BookOrder>, p: Price)
    ensures OrdersAt(s, p) == [] <==> forall i :: 0 <= i < |s| ==> s[i].price != p
  {
    if s != [] {
      OrdersAtNone(s[1..], p);
      assert forall i :: 1 <= i < |s| ==> s[i] == s[1..][i - 1];
    }
  }

  /** Three stretches, the middle one a single order. */
  lemma OrdersAtAround(a: seq<BookOrder>, o: BookOrder, b: seq<BookOrder>, p: Price)
    ensures OrdersAt(a + [o] + b, p)
              == OrdersAt(a, p) + (if p == o.price then [EntryOf(o)] else []) + OrdersAt(b, p)
  {
    OrdersAtConcat(a + [o], b, p);
    OrdersAtConcat(a, [o], p);
    OrdersAtOne(o, p);
  }

  /** How many orders of its own price the i-th order has ahead of it. */
  function Ahead(s: seq<BookOrder>, i: nat): nat
    requires i < |s|
  {
    |OrdersAt(s[..i], s[i].price)|
  }

  /** No order of its own price is behind the i-th. */
  predicate LastAtPrice(s: seq<BookOrder>, i: nat)
    requires i < |s|
  {
    forall j :: i < j < |s| ==> s[j].price != s[i].price
  }

  lemma AheadReads(s: seq<BookOrder>, i: nat)
    requires i < |s|
    ensures var q := OrdersAt(s, s[i].price); Ahead(s, i) < |q| && q[Ahead(s, i)] == EntryOf(s[i])
    ensures LastAtPrice(s, i) <==> Ahead(s, i) + 1 == |OrdersAt(s, s[i].price)|
  {
    hide OrdersAt;
    assert s == s[..i] + [s[i]] + s[i + 1..];
    OrdersAtAround(s[..i], s[i], s[i + 1..], s[i].price);
    OrdersAtNone(s[i + 1..], s[i].price);
    assert forall j :: i < j < |s| ==> s[j] == s[i + 1..][j - i - 1];
  }

  lemma OrdersAtInsert(side: Side, s: seq<BookOrder>, o: BookOrder, p: Price)
    requires SideOk(side, s) && o.side == side
    ensures OrdersAt(Insert(s, o), p) == OrdersAt(s, p) + if p == o.price then [EntryOf(o)] else []
  {
    hide OrdersAt, Rank;
    var k := Rank(side, s, o.price);
    RankSplits(side, s, o.price);
    OrdersAtAround(s[..k], o, s[k..], p);
    assert s == s[..k] + s[k..];
    OrdersAtConcat(s[..k], s[k..], p);
    assert forall i :: 0 <= i < |s[k..]| ==> s[k..][i] == s[k + i];
    OrdersAtNone(s[k..], o.price);
  }

  lemma OrdersAtWithout(s: seq<BookOrder>, i: nat, p: Price)
    requires i < |s|
    ensures OrdersAt(WithoutAt(s, i), p)
              == if p == s[i].price then WithoutEntry(OrdersAt(s, p), Ahead(s, i)) else OrdersAt(s, p)
  {
    hide OrdersAt;
    assert s == s[..i] + [s[i]] + s[i + 1..];
    OrdersAtAround(s[..i], s[i], s[i + 1..], p);
    OrdersAtConcat(s[..i], s[i + 1..], p);
  }

  lemma OrdersAtEdit(s: seq<BookOrder>, i: nat, o: BookOrder, p: Price)
    requires i < |s| && o.price == s[i].price
    ensures Ahead(s, i) < |OrdersAt(s, s[i].price)|
    ensures OrdersAt(s[i := o], p)
              == if p == s[i].price then OrdersAt(s, p)[Ahead(s, i) := EntryOf(o)] else OrdersAt(s, p)
  {
    hide OrdersAt;
    AheadReads(s, i);
    assert s == s[..i] + [s[i]] + s[i + 1..];
    assert s[i := o] == s[..i] + [o] + s[i + 1..];
    OrdersAtAround(s[..i], s[i], s[i + 1..], p);
    OrdersAtAround(s[..i], o, s[i + 1..], p);
  }

  // ---------- what a modify does to the trader's queue ----------

  /** Modified at its own price, an order keeps its place if and only if it was the last of its queue. */
  lemma ModifyKeepsPlaceOnlyAtTheBack(b: BookState, id: ExchangeOrderId, n: nat, t: nat, quantity: Quantity)
    requires Linked(b) && id in b.index && b.index[id].price > 0 && quantity > 0
    ensures var side, p, i := b.index[id].side, b.index[id].price, Place(b, id);
            var q := b.QueueAt(side, p);
            var q' := Heard(b, ModifyOrder(n, t, id, 0, p, quantity)).QueueAt(side, p);
            && i < |q| && q' == WithoutEntry(q, i) + [Entry(id, quantity)]
            && (q' == q[i := Entry(id, quantity)] <==> i + 1 == |q|)
  {
    hide Linked, Inserted, Erased, StandsAt, BookState.QueueAt;
    var side, p, i := b.index[id].side, b.index[id].price, Place(b, id);
    var q := b.QueueAt(side, p);
    StandingQueue(b, id, i);
    EraseQueues(b, id, i, side, p);
    InsertQueues(Withdrawn(b, id), side, id, p, quantity, side, p);
    BackOnlyIf(q, i, Entry(id, quantity));
  }

  lemma BackOnlyIf(q: seq<Entry>, i: nat, e: Entry)
    requires i < |q| && forall j :: 0 <= j < |q| && j != i ==> q[j].orderId != e.orderId
    ensures WithoutEntry(q, i) + [e] == q[i := e] <==> i + 1 == |q|
  {
    var moved := WithoutEntry(q, i) + [e];
    if i + 1 < |q| {
      assert moved[i] == q[i + 1];
      assert q[i := e][i] == e;
    } else {
      assert moved == q[i := e];
    }
  }

  /** Nothing stands anywhere else for it. */
  lemma ModifySparesOtherQueues(b: BookState, id: ExchangeOrderId, n: nat, t: nat, quantity: Quantity, side: Side,
                                p: Price)
    requires Linked(b) && id in b.index && b.index[id].price > 0 && quantity > 0
    requires Location(side, p) != b.index[id]
    ensures Heard(b, ModifyOrder(n, t, id, 0, b.index[id].price, quantity)).QueueAt(side, p) == b.QueueAt(side, p)
  {
    hide Linked, Inserted, Erased, StandsAt, BookState.QueueAt;
    EraseQueues(b, id, Place(b, id), side, p);
    InsertQueues(Withdrawn(b, id), b.index[id].side, id, b.index[id].price, quantity, side, p);
  }

  // ---------- in order ----------

  ghost predicate QueuesAgree(book: BookView, b: BookState) {
    forall side, p :: b.QueueAt(side, p) == OrdersAt(book.Orders(side), p)
  }

  /** At every instrument, side and price the trader's queue is the exchange's, order for order. */
  ghost predicate InOrder(st: EngineState, books: Books) {
    BooksLinked(books) && forall id :: id in st.books ==> QueuesAgree(st.books[id], BookIn(books, id))
  }

  /** Only the book of one instrument changed, on either end. */
  ghost predicate OnlyAt(st: EngineState, st': EngineState, books: Books, books': Books, id: InstrumentId) {
    && id in st.books && st'.books.Keys == st.books.Keys
    && forall x :: x != id ==> BookIn(books', x) == BookIn(books, x) && (x in st.books ==> st'.books[x] == st.books[x])
  }

  /** Then the one instrument decides. */
  lemma OneBookDecides(st: EngineState, st': EngineState, books: Books, books': Books, id: InstrumentId)
    requires InOrder(st, books) && OnlyAt(st, st', books, books', id) && BooksLinked(books')
    ensures InOrder(st', books') <==> QueuesAgree(st'.books[id], BookIn(books', id))
  {
    hide QueuesAgree, BooksLinked;
  }

  /** An order of the exchange is found by the trader at the place it has among the orders of its price. */
  lemma FoundInPlace(book: BookView, b: BookState, side: Side, i: nat)
    requires Linked(b) && QueuesAgree(book, b)
    requires SideOk(side, book.Orders(side)) && i < |book.Orders(side)|
    ensures var o := book.Orders(side)[i];
            && o.exchangeOrderId in b.index && b.index[o.exchangeOrderId] == Location(side, o.price)
            && Place(b, o.exchangeOrderId) == Ahead(book.Orders(side), i)
            && o.price > 0
  {
    hide OrdersAt, Ahead, StandsAt, LevelsOk, IndexStands;
    var s := book.Orders(side);
    var o := s[i];
    AheadReads(s, i);
    var q := b.QueueAt(side, o.price);
    assert q[Ahead(s, i)] == EntryOf(o);
    assert IndexedAt(b, EntryOf(o).orderId, side, o.price);
    StandingQueue(b, o.exchangeOrderId, Place(b, o.exchangeOrderId));
  }

  /** An id that rests nowhere in the book is unknown to the trader. */
  lemma NotFound(book: BookView, b: BookState, x: ExchangeOrderId)
    requires Linked(b) && QueuesAgree(book, b)
    requires forall side, o :: o in book.Orders(side) ==> o.exchangeOrderId != x
    ensures x !in b.index
  {
    hide OrdersAt, LevelsOk;
    if x in b.index {
      OtherIds(book.Orders(b.index[x].side), b.index[x].price, x);
    }
  }

  lemma OtherIds(s: seq<BookOrder>, p: Price, x: ExchangeOrderId)
    requires forall o :: o in s ==> o.exchangeOrderId != x
    ensures !Queued(OrdersAt(s, p), x)
  {
    hide OrdersAt;
    OrdersAtReads(s, p);
    forall i | 0 <= i < |OrdersAt(s, p)| ensures OrdersAt(s, p)[i].orderId != x {
      assert OrdersAt(s, p)[i] in OrdersAt(s, p);
    }
  }

  // ---------- the three changes ----------

  lemma AddAgrees(book: BookView, b: BookState, o: BookOrder, message: FeedMessage)
    requires Linked(b) && QueuesAgree(book, b) && SideOk(o.side, book.Orders(o.side))
    requires forall side, x :: x in book.Orders(side) ==> x.exchangeOrderId != o.exchangeOrderId
    requires o.price > 0 && o.remainingQuantity > 0
    requires message.AddOrder? && message.orderId == o.exchangeOrderId && message.price == o.price
    requires message.quantity == o.remainingQuantity && message.side == o.side
    ensures QueuesAgree(book.With(o.side, Insert(book.Orders(o.side), o)), Heard(b, message))
  {
    hide OrdersAt, Insert, Linked, Inserted, BookState.QueueAt, SideOk;
    NotFound(book, b, o.exchangeOrderId);
    var book', b' := book.With(o.side, Insert(book.Orders(o.side), o)), Heard(b, message);
    forall side, p ensures b'.QueueAt(side, p) == OrdersAt(book'.Orders(side), p) {
      InsertQueues(b, o.side, o.exchangeOrderId, o.price, o.remainingQuantity, side, p);
      OrdersAtInsert(o.side, book.Orders(o.side), o, p);
    }
  }

  lemma RemoveAgrees(book: BookView, b: BookState, side: Side, i: nat, message: FeedMessage)
    requires Linked(b) && QueuesAgree(book, b) && SideOk(side, book.Orders(side)) && i < |book.Orders(side)|
    requires message.DeleteOrder? && message.orderId == book.Orders(side)[i].exchangeOrderId
    ensures QueuesAgree(book.With(side, WithoutAt(book.Orders(side), i)), Heard(b, message))
  {
    hide OrdersAt, Linked, Erased, StandsAt, BookState.QueueAt, SideOk, Ahead, WithoutAt, WithoutEntry;
    FoundInPlace(book, b, side, i);
    var book', b' := book.With(side, WithoutAt(book.Orders(side), i)), Heard(b, message);
    forall side', p ensures b'.QueueAt(side', p) == OrdersAt(book'.Orders(side'), p) {
      EraseQueues(b, message.orderId, Place(b, message.orderId), side', p);
      OrdersAtWithout(book.Orders(side), i, p);
    }
  }

  /** The one change that can part them, and exactly when. */
  lemma EditAgrees(book: BookView, b: BookState, side: Side, i: nat, o: BookOrder, message: FeedMessage)
    requires Linked(b) && QueuesAgree(book, b) && SideOk(side, book.Orders(side)) && i < |book.Orders(side)|
    requires var x := book.Orders(side)[i]; o.exchangeOrderId == x.exchangeOrderId && o.price == x.price
    requires o.remainingQuantity > 0
    requires message.ModifyOrder? && message.orderId == o.exchangeOrderId && message.newPrice == o.price
    requires message.newQuantity == o.remainingQuantity
    ensures QueuesAgree(book.With(side, book.Orders(side)[i := o]), Heard(b, message))
            <==> LastAtPrice(book.Orders(side), i)
  {
    hide OrdersAt, Linked, BookState.QueueAt, SideOk, Ahead, LastAtPrice, WithoutEntry, Inserted, Erased, StandsAt;
    var s, x := book.Orders(side), message.orderId;
    var book', b' := book.With(side, s[i := o]), Heard(b, message);
    FoundInPlace(book, b, side, i);
    AheadReads(s, i);
    OrdersAtEdit(s, i, o, o.price);
    ModifyKeepsPlaceOnlyAtTheBack(b, x, message.sequence, message.timestamp, o.remainingQuantity);
    assert b' == Heard(b, ModifyOrder(message.sequence, message.timestamp, x, 0, o.price, o.remainingQuantity));
    assert b'.QueueAt(side, o.price) == OrdersAt(book'.Orders(side), o.price) <==> LastAtPrice(s, i);
    forall side', p | !(side' == side && p == o.price)
      ensures b'.QueueAt(side', p) == OrdersAt(book'.Orders(side'), p)
    {
      ModifySparesOtherQueues(b, x, message.sequence, message.timestamp, o.remainingQuantity, side', p);
      OrdersAtEdit(s, i, o, p);
    }
  }

  // ---------- events ----------

  /** The books once the events have been published and heard. */
  ghost function HeardOf(books: Books, events: seq<Event>, n: nat, clock: nat -> nat): (books': Books)
    requires BooksLinked(books)
    ensures BooksLinked(books')
  {
    HeardAll(books, Feed(events, n, clock))
  }

  lemma HeardOfThen(books: Books, a: seq<Event>, b: seq<Event>, n: nat, clock: nat -> nat)
    requires BooksLinked(books)
    ensures HeardOf(books, a + b, n, clock)
              == HeardOf(HeardOf(books, a, n, clock), b, n + |Feed(a, n, clock)|, clock)
  {
    hide BooksLinked, Feed, HeardAll;
    FeedConcat(a, b, n, clock);
    HeardConcat(books, Feed(a, n, clock), Feed(b, n + |Feed(a, n, clock)|, clock));
  }

  /** An event with no public counterpart reaches no book. */
  lemma HeardPrivate(books: Books, ev: Event, rest: seq<Event>, n: nat, clock: nat -> nat)
    requires BooksLinked(books) && Translate(ev, n, clock(n)).None?
    ensures HeardOf(books, [ev] + rest, n, clock) == HeardOf(books, rest, n, clock)
  {
    hide BooksLinked, Translate, HeardAll;
    assert ([ev] + rest)[1..] == rest;
  }

  lemma HeardNothing(books: Books, n: nat, clock: nat -> nat)
    requires BooksLinked(books)
    ensures HeardOf(books, [], n, clock) == books
  {
    hide BooksLinked;
  }

  lemma HeardPublic(books: Books, ev: Event, n: nat, clock: nat -> nat)
    requires BooksLinked(books) && Translate(ev, n, clock(n)).Some?
    ensures HeardOf(books, [ev], n, clock) == HeardBy(books, Translate(ev, n, clock(n)).value)
  {
    hide BooksLinked, Translate, Feed, HeardAll, HeardBy;
    FeedOne(ev, n, clock);
    HeardOne(books, Translate(ev, n, clock(n)).value);
  }

  /** A message for one instrument leaves the other books alone. */
  lemma HeardOnlyAt(st: EngineState, st': EngineState, books: Books, id: InstrumentId, book: BookView,
                    message: FeedMessage)
    requires BooksLinked(books) && id in st.books && st'.books == st.books[id := book]
    requires message.instrumentId == id && !message.Trade?
    ensures BooksLinked(HeardBy(books, message)) && OnlyAt(st, st', books, HeardBy(books, message), id)
    ensures BookIn(HeardBy(books, message), id) == Heard(BookIn(books, id), message)
  {
    hide Linked, Heard;
    HeardKeeps(books, message);
  }

  // ---------- matching ----------

  /** The pass ends by reducing an order that has another behind it at its price. */
  predicate PassReorders(contra: seq<BookOrder>, side: Side, limit: Price, quantity: Quantity) {
    && contra != [] && quantity > 0 && Crosses(side, limit, contra[0].price)
    && (if contra[0].remainingQuantity <= quantity
        then PassReorders(contra[1..], side, limit, quantity - contra[0].remainingQuantity)
        else !LastAtPrice(contra, 0))
  }

  lemma FillHeard(st: EngineState, books: Books, incoming: RestingOrder, c: nat, n: nat, clock: nat -> nat)
    requires BooksLinked(books) && incoming.instrumentId in st.books && CanFill(st, incoming)
    ensures var front, id := Contra(st, incoming)[0], incoming.instrumentId;
            var left := front.remainingQuantity - Min(incoming.remainingQuantity, front.remainingQuantity);
            HeardOf(books, FillOnce(st, incoming, c).events, n, clock)
              == HeardBy(books, if left == 0 then DeleteOrder(n + 1, clock(n + 1), front.exchangeOrderId, id)
                                else ModifyOrder(n + 1, clock(n + 1), front.exchangeOrderId, id, front.price, left))
  {
    hide BooksLinked, FillOnce, Feed;
    var messages := Feed(FillOnce(st, incoming, c).events, n, clock);
    FillFeed(st, incoming, c, n, clock);
    HeardConcat(books, [messages[0]], [messages[1]]);
    HeardOne(books, messages[0]);
    HeardOne(books, messages[1]);
  }

  /** What a fill does to the one book it touches. */
  lemma FillTouches(st: EngineState, incoming: RestingOrder, c: nat)
    requires incoming.instrumentId in st.books && CanFill(st, incoming)
    ensures var contra, id, side := Contra(st, incoming), incoming.instrumentId, incoming.side.Opposite();
            var one := FillOnce(st, incoming, c);
            && one.state.books == st.books[id := st.books[id].With(side,
                 if contra[0].remainingQuantity <= incoming.remainingQuantity then WithoutAt(contra, 0)
                 else contra[0 := contra[0].(remainingQuantity :=
                        contra[0].remainingQuantity - incoming.remainingQuantity)])]
            && one.incoming == incoming.(remainingQuantity :=
                 incoming.remainingQuantity - Min(incoming.remainingQuantity, contra[0].remainingQuantity))
  {
    var contra := Contra(st, incoming);
    assert WithoutAt(contra, 0) == contra[1..];
  }

  lemma ContraOrdered(st: EngineState, incoming: RestingOrder)
    requires BooksOk(st) && incoming.instrumentId in st.books
    ensures SideOk(incoming.side.Opposite(), Contra(st, incoming))
  {
  }

  lemma FillInOrder(st: EngineState, books: Books, incoming: RestingOrder, c: nat, n: nat, clock: nat -> nat)
    requires BooksOk(st) && incoming.instrumentId in st.books && CanFill(st, incoming) && InOrder(st, books)
    ensures var contra, one := Contra(st, incoming), FillOnce(st, incoming, c);
            InOrder(one.state, HeardOf(books, one.events, n, clock))
            <==> (contra[0].remainingQuantity <= incoming.remainingQuantity || LastAtPrice(contra, 0))
  {
    hide BooksOk, BooksLinked, FillOnce, HeardOf, HeardBy, Heard, QueuesAgree, OnlyAt, LastAtPrice, SideOk, Linked,
         BookState.QueueAt, WithoutAt;
    var id, side, contra := incoming.instrumentId, incoming.side.Opposite(), Contra(st, incoming);
    var st' := FillOnce(st, incoming, c).state;
    ContraOrdered(st, incoming);
    FillHeard(st, books, incoming, c, n, clock);
    FillTouches(st, incoming, c);
    LinkedIn(books, id);
    if contra[0].remainingQuantity <= incoming.remainingQuantity {
      var message := DeleteOrder(n + 1, clock(n + 1), contra[0].exchangeOrderId, id);
      RemoveAgrees(st.books[id], BookIn(books, id), side, 0, message);
      HeardOnlyAt(st, st', books, id, st'.books[id], message);
      OneBookDecides(st, st', books, HeardBy(books, message), id);
    } else {
      var left := contra[0].remainingQuantity - incoming.remainingQuantity;
      var message := ModifyOrder(n + 1, clock(n + 1), contra[0].exchangeOrderId, id, contra[0].price, left);
      EditAgrees(st.books[id], BookIn(books, id), side, 0, contra[0].(remainingQuantity := left), message);
      HeardOnlyAt(st, st', books, id, st'.books[id], message);
      OneBookDecides(st, st', books, HeardBy(books, message), id);
    }
  }

  lemma LinkedIn(books: Books, id: InstrumentId)
    requires BooksLinked(books)
    ensures Linked(BookIn(books, id))
  {
    hide Linked;
  }

  /** A whole pass keeps the order unless its last trade reduces an order with another behind it. */
  lemma {:induction false} MatchInOrder(st: EngineState, books: Books, incoming: RestingOrder, c: nat, n: nat,
                                        clock: nat -> nat)
    requires BooksOk(st) && incoming.instrumentId in st.books && InOrder(st, books)
    ensures var m := MatchLoop(st, incoming, c);
            var reorders := PassReorders(Contra(st, incoming), incoming.side, incoming.price, incoming.remainingQuantity);
            && (InOrder(m.state, HeardOf(books, m.events, n, clock)) <==> !reorders)
            && (reorders ==> m.incoming.remainingQuantity == 0)
    decreases |Contra(st, incoming)|, incoming.remainingQuantity
  {
    hide BooksOk, InOrder, BooksLinked, HeardOf, FillOnce, LastAtPrice;
    InOrderLinked(st, books);
    if CanFill(st, incoming) {
      var one, contra := FillOnce(st, incoming, c), Contra(st, incoming);
      FillInOrder(st, books, incoming, c, n, clock);
      FillTouches(st, incoming, c);
      FillOnceRests(st, incoming, c);
      var rest := MatchLoop(one.state, one.incoming, c);
      HeardOfThen(books, one.events, rest.events, n, clock);
      var heard, n' := HeardOf(books, one.events, n, clock), n + |Feed(one.events, n, clock)|;
      if contra[0].remainingQuantity <= incoming.remainingQuantity {
        assert Contra(one.state, one.incoming) == contra[1..];
        MatchInOrder(one.state, heard, one.incoming, c, n', clock);
      } else {
        HeardNothing(heard, n', clock);
      }
    } else {
      HeardNothing(books, n, clock);
    }
  }

  lemma InOrderLinked(st: EngineState, books: Books)
    requires InOrder(st, books)
    ensures BooksLinked(books)
  {
  }

  lemma RestInOrder(st: EngineState, books: Books, order: RestingOrder, n: nat, clock: nat -> nat)
    requires BooksOk(st) && FreshlyIssued(st, order) && InOrder(st, books)
    ensures InOrder(RestRemainder(st, order).state, HeardOf(books, RestRemainder(st, order).events, n, clock))
  {
    hide BooksOk, BooksLinked, HeardOf, HeardBy, Heard, QueuesAgree, OnlyAt, SideOk, Linked, Insert;
    if WillRest(order) {
      var id, o, r := order.instrumentId, order.ToBookOrder(), RestRemainder(st, order);
      var message := AddOrder(n, clock(n), o.exchangeOrderId, id, o.price, o.remainingQuantity, o.side);
      HeardPublic(books, r.events[0], n, clock);
      SideDistinct(st, id, o.side);
      LinkedIn(books, id);
      NoneResting(st, id, o.exchangeOrderId);
      AddAgrees(st.books[id], BookIn(books, id), o, message);
      HeardOnlyAt(st, r.state, books, id, r.state.books[id], message);
      OneBookDecides(st, r.state, books, HeardBy(books, message), id);
    } else {
      HeardNothing(books, n, clock);
    }
  }

  lemma NoneResting(st: EngineState, id: InstrumentId, x: ExchangeOrderId)
    requires id in st.books && forall id', o :: Rests(st, id', o) ==> o.exchangeOrderId != x
    ensures forall side, o :: o in st.books[id].Orders(side) ==> o.exchangeOrderId != x
  {
    forall side, o | o in st.books[id].Orders(side) ensures o.exchangeOrderId != x {
      assert Rests(st, id, o);
    }
  }

  lemma MatchAndRestInOrder(st: EngineState, books: Books, order: RestingOrder, c: nat, n: nat, clock: nat -> nat)
    requires WellFormed(st) && FreshlyIssued(st, order) && InOrder(st, books)
    ensures order.instrumentId in st.books
    ensures var r := MatchAndRest(st, order, c);
            InOrder(r.state, HeardOf(books, r.events, n, clock))
            <==> !PassReorders(Contra(st, order), order.side, order.price, order.remainingQuantity)
  {
    hide BooksOk, DirectorySound, Uncrossed, InOrder, BooksLinked, HeardOf, MatchLoop, PassReorders, Feed, Rests;
    MatchIssued(st, order, c);
    InOrderLinked(st, books);
    MatchInOrder(st, books, order, c, n, clock);
    MatchKeeps(st, order, c);
    MatchKeepsFresh(st, order, c);
    var m := MatchLoop(st, order, c);
    var r := RestRemainder(m.state, m.incoming);
    var heard, n' := HeardOf(books, m.events, n, clock), n + |Feed(m.events, n, clock)|;
    HeardOfThen(books, m.events, r.events, n, clock);
    if InOrder(m.state, heard) {
      RestInOrder(m.state, heard, m.incoming, n', clock);
    } else {
      HeardNothing(heard, n', clock);
    }
  }

  // ---------- commands ----------

  /** The order stands with another of its price behind it. */
  predicate HasBehind(st: EngineState, id: InstrumentId, x: ExchangeOrderId)
    requires id in st.books && st.books[id].Holds(x)
  {
    var s := st.books[id].Orders(st.books[id].SideHolding(x));
    !LastAtPrice(s, IndexOf(s, x))
  }

  /** The command makes the exchange reduce, in place, an order with another behind it at its price. */
  predicate Reorders(st: EngineState, cmd: Command)
    requires Locates(st)
  {
    match cmd
    case NewOrder(_, _, _, id, side, price, quantity, _, _) =>
      NewOrderVerdict(st, cmd) == NoReason
      && PassReorders(st.books[id].Orders(side.Opposite()), side, price, quantity)
    case CancelOrder(_, _, _, _) => false
    case ReplaceOrder(_, _, _, _, id, price, quantity) =>
      && ReplaceVerdict(st, cmd) == NoReason
      && var prior := ReplacedOrder(st, cmd);
      if PreservesPriority(st, cmd) then HasBehind(st, id, prior.exchangeOrderId)
      else PassReorders(st.books[id].Orders(prior.side.Opposite()), prior.side, price, quantity)
  }

  lemma SameBooksInOrder(st: EngineState, st': EngineState, books: Books)
    requires st'.books == st.books
    ensures InOrder(st, books) <==> InOrder(st', books)
  {
    hide BooksLinked, QueuesAgree;
  }

  lemma RejectInOrder(st: EngineState, books: Books, cmd: Command, reason: RejectReason, n: nat, clock: nat -> nat)
    requires InOrder(st, books)
    ensures BooksLinked(books)
    ensures var r := RejectCommand(st, cmd, reason); InOrder(r.state, HeardOf(books, r.events, n, clock))
  {
    hide InOrder, BooksLinked, HeardOf;
    InOrderLinked(st, books);
    var r := RejectCommand(st, cmd, reason);
    assert r.events == [r.events[0]] + [];
    HeardPrivate(books, r.events[0], [], n, clock);
    HeardNothing(books, n, clock);
    SameBooksInOrder(st, r.state, books);
  }

  lemma NewOrderInOrder(st: EngineState, books: Books, cmd: Command, n: nat, clock: nat -> nat)
    requires WellFormed(st) && Locates(st) && cmd.NewOrder? && InOrder(st, books)
    ensures BooksLinked(books)
    ensures var r := Process(st, cmd); InOrder(r.state, HeardOf(books, r.events, n, clock)) <==> !Reorders(st, cmd)
  {
    hide WellFormed, NewOrderVerdict, RejectCommand, MatchAndRest, FreshlyIssued, InOrder, BooksLinked, HeardOf,
         PassReorders;
    InOrderLinked(st, books);
    if NewOrderVerdict(st, cmd) == NoReason {
      AcceptedKnown(st, cmd);
      NewOrderStart(st, cmd);
      var start, order := AfterAcceptance(st), AcceptedOrder(st, cmd);
      SameBooksInOrder(st, start, books);
      MatchAndRestInOrder(start, books, order, cmd.commandSequence, n, clock);
      var r, m := ProcessNewOrder(st, cmd), MatchAndRest(start, order, cmd.commandSequence);
      assert r.events == [r.events[0]] + m.events;
      HeardPrivate(books, r.events[0], m.events, n, clock);
    } else {
      RejectInOrder(st, books, cmd, NewOrderVerdict(st, cmd), n, clock);
    }
  }

  lemma AcceptedKnown(st: EngineState, cmd: Command)
    requires cmd.NewOrder? && NewOrderVerdict(st, cmd) == NoReason
    ensures cmd.instrumentId in st.books
  {
  }

  /** An order taken out of its book wherever it stands. */
  lemma WithdrawInOrder(st: EngineState, st': EngineState, books: Books, id: InstrumentId, x: ExchangeOrderId, ev: Event,
                        n: nat, clock: nat -> nat)
    requires BooksOk(st) && InOrder(st, books) && id in st.books && st.books[id].Holds(x)
    requires st'.books == st.books[id := st.books[id].Without(x)]
    requires ev.BookOrderRemoved? && ev.instrumentId == id && ev.exchangeOrderId == x
    ensures BooksLinked(books) && InOrder(st', HeardOf(books, [ev], n, clock))
  {
    hide BooksOk, BooksLinked, HeardOf, HeardBy, Heard, QueuesAgree, OnlyAt, SideOk, Linked, HasId, WithoutAt, IndexOf;
    var side := st.books[id].SideHolding(x);
    var s := st.books[id].Orders(side);
    var message := DeleteOrder(n, clock(n), x, id);
    InOrderLinked(st, books);
    HeardPublic(books, ev, n, clock);
    SideDistinct(st, id, side);
    LinkedIn(books, id);
    RemoveAgrees(st.books[id], BookIn(books, id), side, IndexOf(s, x), message);
    HeardOnlyAt(st, st', books, id, st.books[id].Without(x), message);
    OneBookDecides(st, st', books, HeardBy(books, message), id);
  }

  lemma CancelInOrder(st: EngineState, books: Books, cmd: Command, n: nat, clock: nat -> nat)
    requires WellFormed(st) && Locates(st) && cmd.CancelOrder? && InOrder(st, books)
    ensures BooksLinked(books)
    ensures var r := Process(st, cmd); InOrder(r.state, HeardOf(books, r.events, n, clock))
  {
    hide InOrder, BooksLinked, HeardOf, CancelVerdict, RejectCommand, BooksOk, DirectorySound, Uncrossed;
    InOrderLinked(st, books);
    if CancelVerdict(st, cmd) == NoReason {
      CancelLocates(st, cmd);
      var r, x := ProcessCancel(st, cmd), st.directory[LiveKey(cmd.accountId, cmd.clientOrderId)].exchangeOrderId;
      assert r.events == [r.events[0]] + [r.events[1]];
      HeardPrivate(books, r.events[0], [r.events[1]], n, clock);
      WithdrawInOrder(st, r.state, books, cmd.instrumentId, x, r.events[1], n, clock);
    } else {
      RejectInOrder(st, books, cmd, CancelVerdict(st, cmd), n, clock);
    }
  }

  lemma InPlaceInOrder(st: EngineState, books: Books, cmd: Command, n: nat, clock: nat -> nat)
    requires WellFormed(st) && Locates(st) && cmd.ReplaceOrder? && InOrder(st, books)
    requires ReplaceVerdict(st, cmd) == NoReason && PreservesPriority(st, cmd)
    ensures BooksLinked(books)
    ensures var r := ReplaceInPlace(st, cmd);
            InOrder(r.state, HeardOf(books, r.events, n, clock))
            <==> !HasBehind(st, cmd.instrumentId, ReplacedOrder(st, cmd).exchangeOrderId)
  {
    hide BooksLinked, HeardOf, HeardBy, Heard, QueuesAgree, OnlyAt, SideOk, Linked, BooksOk, DirectorySound, Uncrossed,
         LastAtPrice, HasId, IndexOf;
    var id, prior, r := cmd.instrumentId, ReplacedOrder(st, cmd), ReplaceInPlace(st, cmd);
    var x := prior.exchangeOrderId;
    ReplacedIs(st, cmd);
    ReplacePositive(st, cmd);
    var side := st.books[id].SideHolding(x);
    var s := st.books[id].Orders(side);
    var edited := prior.(remainingQuantity := cmd.newQuantity, clientOrderId := cmd.newClientOrderId);
    var message := ModifyOrder(n, clock(n), x, id, prior.price, cmd.newQuantity);
    InOrderLinked(st, books);
    assert r.events == [r.events[0]] + [r.events[1]];
    HeardPrivate(books, r.events[0], [r.events[1]], n, clock);
    HeardPublic(books, r.events[1], n, clock);
    SideDistinct(st, id, side);
    LinkedIn(books, id);
    EditAgrees(st.books[id], BookIn(books, id), side, IndexOf(s, x), edited, message);
    HeardOnlyAt(st, r.state, books, id, st.books[id].Replacing(x, edited), message);
    OneBookDecides(st, r.state, books, HeardBy(books, message), id);
  }

  lemma ReplacePositive(st: EngineState, cmd: Command)
    requires cmd.ReplaceOrder? && ReplaceVerdict(st, cmd) == NoReason
    ensures cmd.newQuantity > 0
  {
  }

  lemma ReentryInOrder(st: EngineState, books: Books, cmd: Command, n: nat, clock: nat -> nat)
    requires WellFormed(st) && Locates(st) && cmd.ReplaceOrder? && InOrder(st, books)
    requires ReplaceVerdict(st, cmd) == NoReason
    ensures BooksLinked(books)
    ensures var r, prior := ReplaceByReentry(st, cmd), ReplacedOrder(st, cmd);
            && cmd.instrumentId in st.books
            && (InOrder(r.state, HeardOf(books, r.events, n, clock))
                <==> !PassReorders(st.books[cmd.instrumentId].Orders(prior.side.Opposite()), prior.side, cmd.newPrice,
                                   cmd.newQuantity))
  {
    hide InOrder, BooksLinked, HeardOf, BooksOk, DirectorySound, Uncrossed, MatchAndRest, FreshlyIssued, ReplacedOrder,
         PassReorders, Feed;
    var start, order, r := AfterWithdrawal(st, cmd), ReplacementOrder(st, cmd), ReplaceByReentry(st, cmd);
    var m := MatchAndRest(start, order, cmd.commandSequence);
    ReplacedIs(st, cmd);
    ReentryStart(st, cmd);
    WithdrawalSparesContra(st, cmd);
    InOrderLinked(st, books);
    WithdrawInOrder(st, start, books, cmd.instrumentId, ReplacedOrder(st, cmd).exchangeOrderId, r.events[1], n, clock);
    var heard, n' := HeardOf(books, [r.events[1]], n, clock), n + |Feed([r.events[1]], n, clock)|;
    MatchAndRestInOrder(start, heard, order, cmd.commandSequence, n', clock);
    HeardOfThen(books, [r.events[1]], m.events, n, clock);
    assert r.events == [r.events[0]] + ([r.events[1]] + m.events);
    HeardPrivate(books, r.events[0], [r.events[1]] + m.events, n, clock);
  }

  /** After any command the queues still agree, order for order, if and only if the command does not reduce an order
      with another behind it. */
  lemma OrderKeptExactly(st: EngineState, books: Books, cmd: Command, n: nat, clock: nat -> nat)
    requires WellFormed(st) && InOrder(st, books)
    ensures Locates(st) && BooksLinked(books)
    ensures var r := Process(st, cmd); InOrder(r.state, HeardOf(books, r.events, n, clock)) <==> !Reorders(st, cmd)
  {
    hide WellFormed, InOrder, BooksLinked, HeardOf, ReplaceVerdict, RejectCommand, ProcessNewOrder, ProcessCancel,
         ReplaceInPlace, ReplaceByReentry, PreservesPriority, HasBehind, PassReorders;
    ProcessKeeps(st, cmd);
    InOrderLinked(st, books);
    match cmd
    case NewOrder(_, _, _, _, _, _, _, _, _) => NewOrderInOrder(st, books, cmd, n, clock);
    case CancelOrder(_, _, _, _) => CancelInOrder(st, books, cmd, n, clock);
    case ReplaceOrder(_, _, _, _, _, _, _) =>
      if ReplaceVerdict(st, cmd) != NoReason {
        RejectInOrder(st, books, cmd, ReplaceVerdict(st, cmd), n, clock);
      } else if PreservesPriority(st, cmd) {
        InPlaceInOrder(st, books, cmd, n, clock);
      } else {
        ReentryInOrder(st, books, cmd, n, clock);
      }
  }

  // ---------- runs ----------

  /** No command of the run reduces an order with another behind it when its turn comes. */
  ghost predicate NeverReorders(st: EngineState, cmds: seq<Command>)
    requires WellFormed(st)
    decreases |cmds|
  {
    cmds == [] || (ProcessKeeps(st, cmds[0]);
                   !Reorders(st, cmds[0]) && NeverReorders(Process(st, cmds[0]).state, cmds[1..]))
  }

  /** Over such a run the trader's queues are the exchange's, order for order. */
  lemma {:induction false} OrderKeptOverRuns(st: EngineState, books: Books, cmds: seq<Command>, n: nat,
                                             clock: nat -> nat)
    requires WellFormed(st) && InOrder(st, books) && NeverReorders(st, cmds)
    ensures BooksLinked(books)
    ensures InOrder(Run(st, cmds).state, HeardOf(books, Run(st, cmds).events, n, clock))
    decreases |cmds|
  {
    hide InOrder, BooksLinked, HeardOf, WellFormed, Process, Feed, Reorders;
    InOrderLinked(st, books);
    if cmds == [] {
      HeardNothing(books, n, clock);
    } else {
      ProcessKeeps(st, cmds[0]);
      OrderKeptExactly(st, books, cmds[0], n, clock);
      var one := Process(st, cmds[0]);
      var heard := HeardOf(books, one.events, n, clock);
      OrderKeptOverRuns(one.state, heard, cmds[1..], n + |Feed(one.events, n, clock)|, clock);
      HeardOfThen(books, one.events, Run(one.state, cmds[1..]).events, n, clock);
    }
  }

  // ---------- the smallest run that parts them ----------

  const FIRST_OFFER := NewOrder(1, 1, 1, 7, Sell, 10, 5, Limit, GTC)
  const SECOND_OFFER := NewOrder(2, 1, 2, 7, Sell, 10, 5, Limit, GTC)
  const SMALL_BID := NewOrder(3, 2, 1, 7, Buy, 10, 1, Limit, GTC)

  const ONE_BOOK := EngineState(map[7 := EMPTY_BOOK], map[], 1, 1, 1)

  const ONE_ASK := EngineState(
    map[7 := BookView([], [BookOrder(1, 1, 1, 10, 5, Sell, GTC)])],
    map[LiveKey(1, 1) := OrderRef(5, 1, 1, 7)], 2, 3, 2)

  const TWO_ASKS := EngineState(
    map[7 := BookView([], [BookOrder(1, 1, 1, 10, 5, Sell, GTC), BookOrder(2, 2, 1, 10, 5, Sell, GTC)])],
    map[LiveKey(1, 1) := OrderRef(5, 1, 1, 7), LiveKey(1, 2) := OrderRef(5, 2, 2, 7)], 3, 5, 3)

  lemma FirstOfferRests()
    requires Locates(ONE_BOOK)
    ensures Process(ONE_BOOK, FIRST_OFFER).state == ONE_ASK && !Reorders(ONE_BOOK, FIRST_OFFER)
  {
    var order := AcceptedOrder(ONE_BOOK, FIRST_OFFER);
    assert Insert([], order.ToBookOrder()) == [order.ToBookOrder()];
    assert !CanFill(AfterAcceptance(ONE_BOOK), order);
  }

  lemma SecondOfferRests()
    requires Locates(ONE_ASK)
    ensures Process(ONE_ASK, SECOND_OFFER).state == TWO_ASKS && !Reorders(ONE_ASK, SECOND_OFFER)
  {
    var order := AcceptedOrder(ONE_ASK, SECOND_OFFER);
    var s := ONE_ASK.books[7].asks;
    assert s[1..] == [] && Rank(Sell, s[1..], 10) == 0;
    assert Rank(Sell, s, 10) == 1;
    assert Insert(s, order.ToBookOrder()) == TWO_ASKS.books[7].asks;
    assert !CanFill(AfterAcceptance(ONE_ASK), order);
    assert NewOrderVerdict(ONE_ASK, SECOND_OFFER) == NoReason;
    var r := Process(ONE_ASK, SECOND_OFFER).state;
    assert r.books == TWO_ASKS.books;
    assert r.directory == TWO_ASKS.directory;
  }

  lemma SmallBidReorders()
    requires Locates(TWO_ASKS)
    ensures Reorders(TWO_ASKS, SMALL_BID)
  {
    var s := TWO_ASKS.books[7].asks;
    assert s[1].price == s[0].price;
    assert !LastAtPrice(s, 0);
  }

  lemma OpeningInOrder()
    ensures WellFormed(ONE_BOOK) && RegisterAll(INITIAL_STATE, [7]) == ONE_BOOK
    ensures InOrder(ONE_BOOK, map[])
  {
    hide Linked;
    EmptyStateWellFormed(ONE_BOOK);
    NothingHeld();
    assert [7][1..] == [];
  }

  /** The last command of a run decides whether the order it found is still there. */
  lemma OneMoreDecides(st: EngineState, books: Books, cmds: seq<Command>, cmd: Command, clock: nat -> nat)
    requires WellFormed(st) && BooksLinked(books)
    requires InOrder(Run(st, cmds).state, HeardOf(books, Run(st, cmds).events, 1, clock))
    ensures Locates(Run(st, cmds).state)
    ensures InOrder(Run(st, cmds + [cmd]).state, HeardOf(books, Run(st, cmds + [cmd]).events, 1, clock))
            <==> !Reorders(Run(st, cmds).state, cmd)
  {
    hide WellFormed, InOrder, BooksLinked, HeardOf, Process, Feed, Reorders, Run;
    RunOneMore(st, cmds, cmd);
    var r := Run(st, cmds);
    var heard, n := HeardOf(books, r.events, 1, clock), 1 + |Feed(r.events, 1, clock)|;
    OrderKeptExactly(r.state, heard, cmd, n, clock);
    HeardOfThen(books, r.events, Process(r.state, cmd).events, 1, clock);
  }

  /** From opening: two offers at one price and a bid for part of the first, and the trader has them the wrong way
      round. Before the bid it had them right. */
  lemma QueueOrderMayDiffer(clock: nat -> nat)
    ensures WellFormed(RegisterAll(INITIAL_STATE, [7])) && BooksLinked(map[])
    ensures var r := Run(RegisterAll(INITIAL_STATE, [7]), [FIRST_OFFER, SECOND_OFFER]);
            r.state == TWO_ASKS && InOrder(r.state, HeardOf(map[], r.events, 1, clock))
    ensures var r := Run(RegisterAll(INITIAL_STATE, [7]), [FIRST_OFFER, SECOND_OFFER, SMALL_BID]);
            !InOrder(r.state, HeardOf(map[], r.events, 1, clock))
  {
    hide WellFormed, InOrder, BooksLinked, HeardOf, Process, Reorders, Locates, RegisterAll, Run;
    OpeningInOrder();
    InOrderLinked(ONE_BOOK, map[]);
    RunNothing(ONE_BOOK);
    HeardNothing(map[], 1, clock);
    OneMoreDecides(ONE_BOOK, map[], [], FIRST_OFFER, clock);
    RunOneMore(ONE_BOOK, [], FIRST_OFFER);
    FirstOfferRests();
    assert [] + [FIRST_OFFER] == [FIRST_OFFER];
    OneMoreDecides(ONE_BOOK, map[], [FIRST_OFFER], SECOND_OFFER, clock);
    RunOneMore(ONE_BOOK, [FIRST_OFFER], SECOND_OFFER);
    SecondOfferRests();
    assert [FIRST_OFFER] + [SECOND_OFFER] == [FIRST_OFFER, SECOND_OFFER];
    OneMoreDecides(ONE_BOOK, map[], [FIRST_OFFER, SECOND_OFFER], SMALL_BID, clock);
    SmallBidReorders();
    assert [FIRST_OFFER, SECOND_OFFER] + [SMALL_BID] == [FIRST_OFFER, SECOND_OFFER, SMALL_BID];
  }

  lemma RunNothing(st: EngineState)
    requires WellFormed(st)
    ensures Run(st, []) == StepResult(st, [])
  {
  }
}
