/** A trader's books, one per instrument and made when first named, following the public feed. */
module TraderFeeds {
  import opened ExchangeTypes
  import opened MatchingModel
  import opened FeedModel
  import opened FeedTheorems
  import opened SideIndexes
  import opened TraderLevels
  import opened TraderBooks

  type Books = map<InstrumentId, BookState>

  /** An instrument not seen yet has an empty book. */
  function BookIn(books: Books, id: InstrumentId): BookState {
    if id in books then books[id] else NO_DEPTH
  }

  ghost predicate BooksLinked(books: Books) {
    forall id :: Linked(BookIn(books, id))
  }

  /** One message reaches the book it names; a trade print reaches none. */
  ghost function HeardBy(books: Books, message: FeedMessage): Books
    requires BooksLinked(books)
  {
    if message.Trade? then books
    else books[message.instrumentId := Heard(BookIn(books, message.instrumentId), message)]
  }

  lemma HeardKeeps(books: Books, message: FeedMessage)
    requires BooksLinked(books)
    ensures BooksLinked(HeardBy(books, message))
  {
    hide Linked, Heard;
    var id := message.instrumentId;
    HeardContents(BookIn(books, id), message);
    forall x ensures Linked(BookIn(HeardBy(books, message), x)) {
      assert x != id ==> BookIn(HeardBy(books, message), x) == BookIn(books, x);
    }
  }

  /** The books once the whole feed has been heard. */
  ghost function HeardAll(books: Books, messages: seq<FeedMessage>): (books': Books)
    requires BooksLinked(books)
    ensures BooksLinked(books')
    decreases |messages|
  {
    if messages == [] then books
    else
      HeardKeeps(books, messages[0]);
      HeardAll(HeardBy(books, messages[0]), messages[1..])
  }

  lemma {:induction false} HeardConcat(books: Books, a: seq<FeedMessage>, b: seq<FeedMessage>)
    requires BooksLinked(books)
    ensures HeardAll(books, a + b) == HeardAll(HeardAll(books, a), b)
    decreases |a|
  {
    hide BooksLinked, HeardBy;
    if a == [] {
      assert a + b == b;
    } else {
      assert (a + b)[1..] == a[1..] + b;
      HeardKeeps(books, a[0]);
      HeardConcat(HeardBy(books, a[0]), a[1..], b);
    }
  }

  lemma HeardOne(books: Books, message: FeedMessage)
    requires BooksLinked(books)
    ensures HeardAll(books, [message]) == HeardBy(books, message)
  {
    hide BooksLinked, HeardBy;
    HeardKeeps(books, message);
    assert [message][1..] == [];
  }

  /** The books hold, by order id, what `depths` says. */
  ghost predicate Hold(books: Books, depths: Depths) {
    BooksLinked(books) && forall id :: Contents(BookIn(books, id)) == DepthOf(depths, id)
  }

  /** Queues and all, the books hold what the depth model makes of the same feed. */
  lemma {:induction false} HeardAllHolds(books: Books, depths: Depths, messages: seq<FeedMessage>)
    requires Hold(books, depths)
    ensures Hold(HeardAll(books, messages), Followed(depths, messages).0)
    decreases |messages|
  {
    hide Hold, HeardBy, AppliedTo;
    if messages != [] {
      var id := messages[0].instrumentId;
      HeardHolds(books, depths, messages[0]);
      HeardAllHolds(HeardBy(books, messages[0]), depths[id := AppliedTo(DepthOf(depths, id), messages[0]).depth],
                    messages[1..]);
    }
  }

  lemma HeardHolds(books: Books, depths: Depths, message: FeedMessage)
    requires Hold(books, depths)
    ensures BooksLinked(books)
    ensures var id := message.instrumentId;
            Hold(HeardBy(books, message), depths[id := AppliedTo(DepthOf(depths, id), message).depth])
  {
    hide Linked, Contents, Heard;
    HeardKeeps(books, message);
    var id := message.instrumentId;
    HeardContents(BookIn(books, id), message);
    var books', depths' := HeardBy(books, message), depths[id := AppliedTo(DepthOf(depths, id), message).depth];
    forall x ensures Contents(BookIn(books', x)) == DepthOf(depths', x) {
      assert Contents(BookIn(books, x)) == DepthOf(depths, x);
      if x != id {
        assert BookIn(books', x) == BookIn(books, x) && DepthOf(depths', x) == DepthOf(depths, x);
      } else if message.Trade? {
        assert AppliedTo(DepthOf(depths, id), message).depth == DepthOf(depths, id);
      }
    }
  }

  /** A trader's books before anything is heard. */
  ghost function NoBooks(): (books: Books)
    ensures BooksLinked(books) && Hold(books, map[])
  {
    NothingHeld();
    map[]
  }

  lemma NothingHeld()
    ensures BooksLinked(map[]) && Hold(map[], map[])
  {
    hide Linked, Contents;
    NothingLinked();
  }

  // ---------- the books as objects ----------

  class BookManager {
    var books: map<InstrumentId, OrderBook>

    /** Every book is in order, and no two instruments share one. */
    ghost predicate Valid()
      reads this, books.Values
    {
      && (forall id :: id in books ==> books[id].Valid())
      && (forall id, id' :: id in books && id' in books && books[id] == books[id'] ==> id == id')
    }

    ghost function Views(): Books
      reads this, books.Values
    {
      map id | id in books :: books[id].State()
    }

    constructor ()
      ensures Valid() && Views() == map[]
    {
      books := map[];
    }

    lemma ViewsLinked()
      requires Valid()
      ensures BooksLinked(Views())
    {
      hide Linked;
      NothingLinked();
      forall id ensures Linked(BookIn(Views(), id)) {
        assert id in books ==> books[id].Valid();
      }
    }

    /** The instrument's book, made now if it has none. */
    method BookFor(id: InstrumentId) returns (book: OrderBook)
      requires Valid()
      modifies this
      ensures Valid() && id in books && books[id] == book && fresh(books.Values - old(books.Values))
      ensures Views() == old(Views())[id := BookIn(old(Views()), id)]
    {
      hide Linked;
      if id !in books {
        OpenBook(id);
      }
      book := books[id];
    }

    method OpenBook(id: InstrumentId)
      requires Valid() && id !in books
      modifies this
      ensures Valid() && books.Keys == old(books).Keys + {id} && fresh(books.Values - old(books.Values))
      ensures Views() == old(Views())[id := NO_DEPTH]
    {
      hide Linked, OrderBook.Valid, OrderBook.State;
      var book := new OrderBook();
      ghost var before := books;
      books := books[id := book];
      assert forall x :: x in before ==> books[x] == before[x] && books[x] != book;
      assert forall x :: x in before ==> books[x].State() == old(before[x].State());
    }

    /** The message goes to a book already there. */
    method Tell(id: InstrumentId, message: FeedMessage) returns (refused: bool)
      requires Valid() && id in books
      modifies books[id]
      ensures Valid() && Linked(old(books[id].State()))
      ensures Views() == old(Views())[id := Heard(old(books[id].State()), message)]
      ensures refused <==> AppliedTo(old(Contents(books[id].State())), message).error.Some?
    {
      hide Linked, Contents, Heard, AppliedTo;
      var error := books[id].ApplyMessage(message);
      refused := error.Some?;
      assert forall x :: x in books && x != id ==> books[x] != books[id];
    }

    /** One message of the feed; true if its book refused it. */
    method ApplyEvent(message: FeedMessage) returns (refused: bool)
      requires Valid()
      modifies this, books.Values
      ensures Valid() && fresh(books.Values - old(books.Values))
      ensures BooksLinked(old(Views())) && Views() == HeardBy(old(Views()), message)
      ensures refused <==> AppliedTo(old(Contents(BookIn(Views(), message.instrumentId))), message).error.Some?
    {
      hide Linked, Contents, Heard, AppliedTo, Valid, OrderBook.Valid, OrderBook.State;
      ViewsLinked();
      ghost var before := Views();
      var id := message.instrumentId;
      if message.Trade? {
        TradeIsSilent(Contents(BookIn(before, id)), message);
        return false;
      }
      var book := BookFor(id);
      assert book.State() == Views()[id] == BookIn(before, id);
      refused := Tell(id, message);
    }

    /** The replay loop over a feed that is in sequence; counts the messages refused. */
    method ApplyAll(messages: seq<FeedMessage>) returns (refused: nat)
      requires Valid()
      modifies this, books.Values
      ensures Valid() && BooksLinked(old(Views()))
      ensures Views() == HeardAll(old(Views()), messages)
      ensures forall depths :: Hold(old(Views()), depths) ==> refused == Followed(depths, messages).1
    {
      hide HeardBy, Heard, AppliedTo, Hold, Linked;
      ViewsLinked();
      ghost var start := Views();
      refused := 0;
      var i := 0;
      while i < |messages|
        invariant i <= |messages| && Valid() && fresh(books.Values - old(books.Values))
        invariant BooksLinked(Views()) && HeardAll(start, messages) == HeardAll(Views(), messages[i..])
        invariant forall depths :: Hold(start, depths) ==> Refusals(depths, messages, i, refused, Views())
      {
        ghost var now, before := Views(), refused;
        assert messages[i..][0] == messages[i] && messages[i..][1..] == messages[i + 1..];
        HeardKeeps(now, messages[i]);
        var no := ApplyEvent(messages[i]);
        refused := refused + if no then 1 else 0;
        forall depths | Hold(start, depths) ensures Refusals(depths, messages, i + 1, refused, Views()) {
          assert Refusals(depths, messages, i, before, now);
          OneMoreHeard(depths, messages, i, before, now);
        }
        i := i + 1;
      }
      forall depths | Hold(start, depths) ensures refused == Followed(depths, messages).1 {
        assert Refusals(depths, messages, i, refused, Views());
        assert messages[..i] == messages;
      }
    }
  }

  lemma TradeIsSilent(depth: Depth, message: FeedMessage)
    requires message.Trade?
    ensures AppliedTo(depth, message).error.None?
  {
  }

  /** After i messages: as many refused as the depth model refuses, and the same orders held. */
  ghost predicate Refusals(depths: Depths, messages: seq<FeedMessage>, i: nat, refused: nat, books: Books) {
    && i <= |messages|
    && refused == Followed(depths, messages[..i]).1
    && Hold(books, Followed(depths, messages[..i]).0)
  }

  lemma OneMoreHeard(depths: Depths, messages: seq<FeedMessage>, i: nat, refused: nat, books: Books)
    requires i < |messages| && Refusals(depths, messages, i, refused, books)
    ensures BooksLinked(books)
    ensures var error := AppliedTo(Contents(BookIn(books, messages[i].instrumentId)), messages[i]).error;
            Refusals(depths, messages, i + 1, refused + if error.Some? then 1 else 0, HeardBy(books, messages[i]))
  {
    hide Followed, AppliedTo, HeardBy, Linked, Contents;
    var done := Followed(depths, messages[..i]).0;
    HeardHolds(books, done, messages[i]);
    assert messages[..i + 1] == messages[..i] + [messages[i]];
    FollowedConcat(depths, messages[..i], [messages[i]]);
    OneMessage(done, messages[i]);
  }
}
