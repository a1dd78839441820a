/** What each command does, said of the books, the directory and the events themselves: which commands are answered
    with what, what an accepted order takes and leaves resting, and which replaces keep their place in the queue. */
module AdmissionTheorems {
  import opened ExchangeTypes
  import opened MatchingModel
  import opened MatchingInvariants
  import opened MatchingTheorems
  import opened CommandTheorems

  // ---------- the words of these theorems ----------

  /** One rejection, under this client id and for this reason; nothing else is said and nothing else changes. */
  predicate Refused(st: EngineState, r: StepResult, cmd: Command, clientOrderId: ClientOrderId, reason: RejectReason) {
    && r.state == st.(nextEventSequence := st.nextEventSequence + 1)
    && r.events == [OrderRejected(st.nextEventSequence, cmd.commandSequence, cmd.accountId, clientOrderId,
                                  cmd.instrumentId, reason)]
  }

  /** The key names a live order of this instrument. */
  predicate Live(st: EngineState, key: LiveKey, id: InstrumentId) {
    key in st.directory && st.directory[key].instrumentId == id
  }

  /** How much the other side of the book would trade with an order of this side and limit. */
  function Reach(st: EngineState, id: InstrumentId, side: Side, limit: Price): nat
    requires id in st.books
  {
    CrossableTotal(st.books[id].Orders(side.Opposite()), side, limit)
  }

  /** s' is s with o in it: behind every order at its price or better, ahead of every worse one. */
  ghost predicate JoinedBehind(s: seq<BookOrder>, s': seq<BookOrder>, o: BookOrder) {
    exists k: nat :: PutInAt(s, s', o, k) && BehindFirst(s, o, k)
  }

  predicate BehindFirst(s: seq<BookOrder>, o: BookOrder, k: nat) {
    && k <= |s|
    && (forall i :: 0 <= i < k ==> !Better(o.side, o.price, s[i].price))
    && (forall i :: k <= i < |s| ==> Better(o.side, o.price, s[i].price))
  }

  /** s' is s without o, everything else in its order. */
  ghost predicate LeftOut(s: seq<BookOrder>, s': seq<BookOrder>, o: BookOrder) {
    exists k: nat :: PutInAt(s', s, o, k)
  }

  /** s' is s with o' standing where o stood. */
  predicate StandsIn(s: seq<BookOrder>, s': seq<BookOrder>, o: BookOrder, o': BookOrder) {
    && |s'| == |s|
    && (forall i :: 0 <= i < |s| && s[i] == o ==> s'[i] == o')
    && (forall i :: 0 <= i < |s| && s[i] != o ==> s'[i] == s[i])
  }

  predicate OtherBooksStay(st: EngineState, st': EngineState, id: InstrumentId) {
    st'.books.Keys == st.books.Keys && forall x :: x in st.books && x != id ==> st'.books[x] == st.books[x]
  }

  /** No entry but the one under `key` is new or changed. */
  predicate EntriesStay(st: EngineState, st': EngineState, key: LiveKey) {
    forall k :: k in st'.directory && k != key ==> k in st.directory && st'.directory[k] == st.directory[k]
  }

  /** An order that carries the exchange id and the priority next in line. */
  function Issued(st: EngineState, key: LiveKey, id: InstrumentId, side: Side, price: Price, quantity: Quantity,
                  tif: TimeInForce): RestingOrder
  {
    RestingOrder(st.nextExchangeOrderId, key.clientOrderId, key.accountId, price, quantity, quantity, st.nextPriority,
                 id, side, tif)
  }

  /** What an order leaves after taking all it wants or all it can reach. */
  function Left(contra: seq<BookOrder>, order: RestingOrder): nat {
    order.remainingQuantity - Min(order.remainingQuantity, CrossableTotal(contra, order.side, order.price))
  }

  /** Its trades take the contra side greedily, from the front, each at the resting order's price. */
  ghost predicate Takes(contra: seq<BookOrder>, contra': seq<BookOrder>, events: seq<Event>, order: RestingOrder,
                        c: nat)
  {
    exists k: nat :: GreedyOutcome(contra, contra', TradesOf(events), k, order, Left(contra, order), c)
  }

  /** What is left of a GTC order joins its own side, gets its entry and is announced last; any other order leaves
      nothing of itself anywhere. */
  ghost predicate Settles(own: seq<BookOrder>, own': seq<BookOrder>, st': EngineState, events: seq<Event>,
                          order: RestingOrder, left: nat)
  {
    if order.timeInForce == GTC && left > 0 then
      && JoinedBehind(own, own', order.(remainingQuantity := left).ToBookOrder())
      && order.Key() in st'.directory
      && st'.directory[order.Key()]
           == OrderRef(order.originalQuantity, order.orderSequence, order.exchangeOrderId, order.instrumentId)
      && Announced(st', events, order, left)
    else
      own' == own
  }

  predicate Announced(st': EngineState, events: seq<Event>, order: RestingOrder, left: nat) {
    && events != [] && st'.nextEventSequence > 0
    && events[|events| - 1] == BookOrderAdded(st'.nextEventSequence - 1, order.instrumentId, order.exchangeOrderId,
                                              order.side, order.price, left)
  }

  /** `order` went into the book of its instrument, whose sides were `own` and `contra`. */
  ghost predicate Entered(own: seq<BookOrder>, contra: seq<BookOrder>, st': EngineState, events: seq<Event>,
                          order: RestingOrder, c: nat)
  {
    && order.instrumentId in st'.books
    && (var book' := st'.books[order.instrumentId];
        && Takes(contra, book'.Orders(order.side.Opposite()), events, order, c)
        && Settles(own, book'.Orders(order.side), st', events, order, Left(contra, order)))
  }

  // ---------- one order entering one book ----------

  lemma {:induction false} MatchSparesOtherBooks(st: EngineState, incoming: RestingOrder, c: nat)
    requires incoming.instrumentId in st.books
    ensures OtherBooksStay(st, MatchLoop(st, incoming, c).state, incoming.instrumentId)
    decreases |Contra(st, incoming)|, incoming.remainingQuantity
  {
    if CanFill(st, incoming) {
      var one := FillOnce(st, incoming, c);
      MatchSparesOtherBooks(one.state, one.incoming, c);
    }
  }

  /** A pass takes greedily and leaves what it should of the incoming order. */
  lemma MatchTakes(st: EngineState, order: RestingOrder, c: nat)
    requires BooksOk(st) && order.instrumentId in st.books
    ensures var m := MatchLoop(st, order, c);
            && Takes(Contra(st, order), Contra(m.state, order), m.events, order, c)
            && m.incoming.remainingQuantity == Left(Contra(st, order), order)
  {
    hide MatchLoop, TradesOf, IsFill, BooksOk, GreedyOutcome;
    var k := MatchIsGreedy(st, order, c);
    var m := MatchLoop(st, order, c);
    GreedyLeaves(Contra(st, order), Contra(m.state, order), TradesOf(m.events), k, order, m.incoming.remainingQuantity,
                 c);
  }

  lemma GreedyLeaves(s: seq<BookOrder>, s': seq<BookOrder>, t: seq<Event>, k: nat, order: RestingOrder, left: nat,
                     c: nat)
    requires GreedyOutcome(s, s', t, k, order, left, c)
    ensures left == Left(s, order)
  {
  }

  lemma InsertJoins(own: seq<BookOrder>, o: BookOrder)
    requires SideOk(o.side, own)
    ensures JoinedBehind(own, Insert(own, o), o)
  {
    hide Insert, Rank;
    InsertReads(o.side, own, o);
    RankSplits(o.side, own, o.price);
    assert BehindFirst(own, o, Rank(o.side, own, o.price));
  }

  lemma RemainderSettles(st: EngineState, order: RestingOrder)
    requires BooksOk(st) && order.instrumentId in st.books
    ensures var r := RestRemainder(st, order); var own := st.books[order.instrumentId].Orders(order.side);
            && order.instrumentId in r.state.books
            && Settles(own, r.state.books[order.instrumentId].Orders(order.side), r.state, r.events, order,
                       order.remainingQuantity)
  {
    hide Insert, JoinedBehind, SideOk, Rests;
    if WillRest(order) {
      OwnSideOk(st, order);
      InsertJoins(st.books[order.instrumentId].Orders(order.side), order.ToBookOrder());
      assert order.(remainingQuantity := order.remainingQuantity) == order;
    }
  }

  lemma OwnSideOk(st: EngineState, order: RestingOrder)
    requires BooksOk(st) && order.instrumentId in st.books
    ensures SideOk(order.side, st.books[order.instrumentId].Orders(order.side))
  {
  }

  lemma RemainderSpares(st: EngineState, order: RestingOrder)
    requires order.instrumentId in st.books
    ensures var r := RestRemainder(st, order);
            && order.instrumentId in r.state.books
            && Contra(r.state, order) == Contra(st, order)
            && OtherBooksStay(st, r.state, order.instrumentId)
            && EntriesStay(st, r.state, order.Key())
            && (!WillRest(order) ==> r.state == st)
            && TradesOf(r.events) == []
            && r.state.nextExchangeOrderId == st.nextExchangeOrderId && r.state.nextPriority == st.nextPriority
  {
    hide Insert;
    NoTrades();
    var events := RestRemainder(st, order).events;
    assert events != [] ==> events[1..] == [];
  }

  /** An order entering a well-formed book takes what it can and settles. */
  lemma PassEnters(st: EngineState, order: RestingOrder, c: nat)
    requires WellFormed(st) && order.instrumentId in st.books
    ensures var r := MatchAndRest(st, order, c); var book := st.books[order.instrumentId];
            && Entered(book.Orders(order.side), Contra(st, order), r.state, r.events, order, c)
            && OtherBooksStay(st, r.state, order.instrumentId)
            && EntriesStay(st, r.state, order.Key())
            && (order.timeInForce != GTC || Left(Contra(st, order), order) == 0 ==>
                  r.state.directory.Keys <= st.directory.Keys)
            && r.state.nextExchangeOrderId == st.nextExchangeOrderId && r.state.nextPriority == st.nextPriority
  {
    hide MatchLoop, RestRemainder, TradesOf, TotalQuantity, CrossableTotal, GreedyOutcome, JoinedBehind, WellFormed,
         BooksOk, CanFill;
    PassKeepsBooks(st, order, c);
    MatchTakes(st, order, c);
    MatchFrame(st, order, c);
    MatchSparesOtherBooks(st, order, c);
    var m := MatchLoop(st, order, c);
    RemainderSettles(m.state, m.incoming);
    RemainderSpares(m.state, m.incoming);
    var r := RestRemainder(m.state, m.incoming);
    TradesOfConcat(m.events, r.events);
    assert TradesOf(m.events) + [] == TradesOf(m.events);
    forall k | k in m.state.directory ensures k in st.directory && m.state.directory[k] == st.directory[k] {
      MatchKeepsEntries(st, order, c, k);
    }
  }

  lemma PassKeepsBooks(st: EngineState, order: RestingOrder, c: nat)
    requires WellFormed(st) && order.instrumentId in st.books
    ensures BooksOk(st) && BooksOk(MatchLoop(st, order, c).state)
  {
    hide MatchLoop;
    MatchKeeps(st, order, c);
  }

  /** What was said before the pass holds no trade and is not the last word. */
  lemma EnteredAfter(first: seq<Event>, own: seq<BookOrder>, contra: seq<BookOrder>, st': EngineState,
                     events: seq<Event>, order: RestingOrder, c: nat)
    requires TradesOf(first) == [] && Entered(own, contra, st', events, order, c)
    ensures Entered(own, contra, st', first + events, order, c)
  {
    hide GreedyOutcome, JoinedBehind, TradesOf, CrossableTotal;
    TradesOfConcat(first, events);
    assert TradesOf(first + events) == TradesOf(events);
  }

  // ---------- new orders ----------

  predicate Acceptable(st: EngineState, cmd: Command)
    requires cmd.NewOrder?
  {
    && cmd.instrumentId in st.books
    && cmd.price > 0
    && cmd.quantity > 0
    && LiveKey(cmd.accountId, cmd.clientOrderId) !in st.directory
    && (cmd.timeInForce == FOK ==> Reach(st, cmd.instrumentId, cmd.side, cmd.price) >= cmd.quantity)
  }

  lemma NewOrderAccepted(st: EngineState, cmd: Command)
    requires BooksOk(st) && cmd.NewOrder?
    ensures var events := ProcessNewOrder(st, cmd).events;
            && (events != [] && events[0].OrderAccepted? <==> Acceptable(st, cmd))
            && (Acceptable(st, cmd) ==>
                  events[0] == OrderAccepted(st.nextEventSequence, cmd.commandSequence, cmd.accountId,
                                             cmd.clientOrderId, st.nextExchangeOrderId, cmd.instrumentId, cmd.side,
                                             cmd.price, cmd.quantity, cmd.orderType, cmd.timeInForce))
  {
    hide MatchAndRest, SideOk, CrossableTotal;
    CoverageAgrees(st, cmd);
  }

  lemma CoverageAgrees(st: EngineState, cmd: Command)
    requires BooksOk(st) && cmd.NewOrder?
    ensures cmd.instrumentId in st.books ==>
              (CrossableQuantity(st.books[cmd.instrumentId].Orders(cmd.side.Opposite()), cmd.side, cmd.price,
                                 cmd.quantity) >= cmd.quantity
               <==> Reach(st, cmd.instrumentId, cmd.side, cmd.price) >= cmd.quantity)
  {
    if cmd.instrumentId in st.books {
      CrossableQuantityExact(st.books[cmd.instrumentId].Orders(cmd.side.Opposite()), cmd.side, cmd.price, cmd.quantity);
    }
  }

  /** A refused new order changes nothing, and the reason is the first check it fails: instrument, price, quantity,
      duplicate key, liquidity. */
  lemma NewOrderRefused(st: EngineState, cmd: Command)
    requires BooksOk(st) && cmd.NewOrder? && !Acceptable(st, cmd)
    ensures var r := ProcessNewOrder(st, cmd); var cid := cmd.clientOrderId;
            if cmd.instrumentId !in st.books then Refused(st, r, cmd, cid, InvalidInstrument)
            else if cmd.price <= 0 then Refused(st, r, cmd, cid, InvalidPrice)
            else if cmd.quantity == 0 then Refused(st, r, cmd, cid, InvalidQuantity)
            else if LiveKey(cmd.accountId, cid) in st.directory then Refused(st, r, cmd, cid, DuplicateOrderId)
            else cmd.timeInForce == FOK && Refused(st, r, cmd, cid, InsufficientLiquidity)
  {
    hide SideOk, CrossableTotal;
    CoverageAgrees(st, cmd);
  }

  /** An accepted order enters its book under the next exchange id and the next priority. */
  lemma AcceptedOrderEnters(st: EngineState, cmd: Command)
    requires WellFormed(st) && cmd.NewOrder? && Acceptable(st, cmd)
    ensures var r := ProcessNewOrder(st, cmd); var book := st.books[cmd.instrumentId];
            var key := LiveKey(cmd.accountId, cmd.clientOrderId);
            var order := Issued(st, key, cmd.instrumentId, cmd.side, cmd.price, cmd.quantity, cmd.timeInForce);
            var contra := book.Orders(cmd.side.Opposite());
            && Entered(book.Orders(cmd.side), contra, r.state, r.events, order, cmd.commandSequence)
            && OtherBooksStay(st, r.state, cmd.instrumentId)
            && EntriesStay(st, r.state, key)
            && (cmd.timeInForce != GTC || Left(contra, order) == 0 ==> key !in r.state.directory)
            && r.state.nextExchangeOrderId == st.nextExchangeOrderId + 1
            && r.state.nextPriority == st.nextPriority + 1
  {
    hide MatchAndRest, Entered, WellFormed, Acceptable, CrossableQuantity, Reach, Left;
    Admitted(st, cmd);
    NewOrderStart(st, cmd);
    var start, order := AfterAcceptance(st), AcceptedOrder(st, cmd);
    PassEnters(start, order, cmd.commandSequence);
    var r := MatchAndRest(start, order, cmd.commandSequence);
    var first := ProcessNewOrder(st, cmd).events[0];
    assert TradesOf([first]) == [] by {
      assert [first][1..] == [];
    }
    var book := st.books[cmd.instrumentId];
    EnteredAfter([first], book.Orders(cmd.side), book.Orders(cmd.side.Opposite()), r.state, r.events, order,
                 cmd.commandSequence);
  }

  lemma Admitted(st: EngineState, cmd: Command)
    requires WellFormed(st) && cmd.NewOrder? && Acceptable(st, cmd)
    ensures NewOrderVerdict(st, cmd) == NoReason && cmd.instrumentId in st.books
    ensures LiveKey(cmd.accountId, cmd.clientOrderId) !in st.directory
  {
    CoverageAgrees(st, cmd);
  }

  /** What an accepted order wants, or all it can reach if that is less, leaves the other side of the book. */
  lemma AcceptedOrderTrades(st: EngineState, cmd: Command)
    requires WellFormed(st) && cmd.NewOrder? && Acceptable(st, cmd)
    ensures var r := ProcessNewOrder(st, cmd);
            && cmd.instrumentId in r.state.books
            && TotalQuantity(st.books[cmd.instrumentId].Orders(cmd.side.Opposite()))
                 - TotalQuantity(r.state.books[cmd.instrumentId].Orders(cmd.side.Opposite()))
               == Min(cmd.quantity, Reach(st, cmd.instrumentId, cmd.side, cmd.price))
  {
    hide ProcessNewOrder, TradesOf, IsFill, WellFormed, CrossableTotal;
    AcceptedOrderEnters(st, cmd);
  }

  /** An accepted order that is not GTC rests nothing: its own side stays, and its key names no order. */
  lemma AcceptedIocRestsNothing(st: EngineState, cmd: Command)
    requires WellFormed(st) && cmd.NewOrder? && Acceptable(st, cmd) && cmd.timeInForce != GTC
    ensures var r := ProcessNewOrder(st, cmd);
            && cmd.instrumentId in r.state.books
            && r.state.books[cmd.instrumentId].Orders(cmd.side) == st.books[cmd.instrumentId].Orders(cmd.side)
            && LiveKey(cmd.accountId, cmd.clientOrderId) !in r.state.directory
  {
    hide ProcessNewOrder, Takes;
    AcceptedOrderEnters(st, cmd);
  }

  /** An accepted GTC order rests exactly what it could not trade, at its own price, behind everything at that price or
      better. */
  lemma AcceptedGtcRestsTheRest(st: EngineState, cmd: Command)
    requires WellFormed(st) && cmd.NewOrder? && Acceptable(st, cmd) && cmd.timeInForce == GTC
    ensures var r := ProcessNewOrder(st, cmd); var reach := Reach(st, cmd.instrumentId, cmd.side, cmd.price);
            var key := LiveKey(cmd.accountId, cmd.clientOrderId);
            && cmd.instrumentId in r.state.books
            && (var own := st.books[cmd.instrumentId].Orders(cmd.side);
                var own' := r.state.books[cmd.instrumentId].Orders(cmd.side);
                if reach >= cmd.quantity then own' == own && key !in r.state.directory
                else
                  && JoinedBehind(own, own', BookOrder(st.nextExchangeOrderId, cmd.clientOrderId, cmd.accountId,
                                                       cmd.price, cmd.quantity - reach, cmd.side, GTC))
                  && key in r.state.directory
                  && r.state.directory[key]
                       == OrderRef(cmd.quantity, st.nextPriority, st.nextExchangeOrderId, cmd.instrumentId))
  {
    hide ProcessNewOrder, Takes, JoinedBehind, WellFormed, CrossableTotal;
    AcceptedOrderEnters(st, cmd);
  }

  // ---------- cancels ----------

  /** A cancel that names no live order of its instrument changes nothing. */
  lemma CancelRefused(st: EngineState, cmd: Command)
    requires WellFormed(st) && cmd.CancelOrder?
    requires cmd.instrumentId !in st.books || !Live(st, LiveKey(cmd.accountId, cmd.clientOrderId), cmd.instrumentId)
    ensures Locates(st)
    ensures Refused(st, ProcessCancel(st, cmd), cmd, cmd.clientOrderId,
                    if cmd.instrumentId !in st.books then InvalidInstrument else UnknownOrderId)
  {
    SoundMeansLocates(st);
  }

  /** Nothing rests under exchange id x in any book. */
  ghost predicate Gone(st: EngineState, x: ExchangeOrderId) {
    forall id, o :: Rests(st, id, o) ==> o.exchangeOrderId != x
  }

  /** Taking an order out of its book by its exchange id leaves out that order alone. */
  lemma WithoutLeavesOut(st: EngineState, id: InstrumentId, o: BookOrder)
    requires BooksOk(st) && Rests(st, id, o)
    ensures st.books[id].Holds(o.exchangeOrderId)
    ensures var book := st.books[id]; var book' := book.Without(o.exchangeOrderId);
            && LeftOut(book.Orders(o.side), book'.Orders(o.side), o)
            && book'.Orders(o.side.Opposite()) == book.Orders(o.side.Opposite())
  {
    hide BooksOk, Rests, IndexOf, HasId;
    FindResting(st, id, o);
    RestsInABook(st, id, o);
    var book := st.books[id];
    WithoutAtLeavesOut(book.Orders(o.side), IndexOf(book.Orders(o.side), o.exchangeOrderId));
  }

  lemma WithoutAtLeavesOut(s: seq<BookOrder>, i: nat)
    requires i < |s|
    ensures LeftOut(s, WithoutAt(s, i), s[i])
  {
    assert PutInAt(WithoutAt(s, i), s, s[i], i);
  }

  lemma WithdrawnIsGone(st: EngineState, st': EngineState, id: InstrumentId, o: BookOrder)
    requires BooksOk(st) && Rests(st, id, o)
    requires forall id', x :: Rests(st', id', x) <==> Rests(st, id', x) && !(id' == id && x == o)
    ensures Gone(st', o.exchangeOrderId)
  {
  }

  /** Cancelling a live order takes that order and its entry away, and nothing else. */
  lemma CancelRemoves(st: EngineState, cmd: Command, o: BookOrder)
    requires WellFormed(st) && cmd.CancelOrder?
    requires var key := LiveKey(cmd.accountId, cmd.clientOrderId);
             Live(st, key, cmd.instrumentId) && IsEntryOf(st, key, st.directory[key], o)
    ensures Locates(st)
    ensures var r := ProcessCancel(st, cmd); var id := cmd.instrumentId;
            && OtherBooksStay(st, r.state, id)
            && id in st.books
            && LeftOut(st.books[id].Orders(o.side), r.state.books[id].Orders(o.side), o)
            && r.state.books[id].Orders(o.side.Opposite()) == st.books[id].Orders(o.side.Opposite())
            && Gone(r.state, o.exchangeOrderId)
            && r.state.directory == st.directory - {LiveKey(cmd.accountId, cmd.clientOrderId)}
            && r.state.nextExchangeOrderId == st.nextExchangeOrderId && r.state.nextPriority == st.nextPriority
            && r.events == [OrderCancelled(st.nextEventSequence, cmd.commandSequence, cmd.accountId, cmd.clientOrderId,
                                           o.exchangeOrderId, id),
                            BookOrderRemoved(st.nextEventSequence + 1, id, o.exchangeOrderId, o.side, o.price)]
  {
    hide BooksOk, Uncrossed, DirectorySound, Rests, LeftOut, Gone, Locates;
    SoundMeansLocates(st);
    var key := LiveKey(cmd.accountId, cmd.clientOrderId);
    RestsInABook(st, cmd.instrumentId, o);
    FindResting(st, cmd.instrumentId, o);
    WithoutLeavesOut(st, cmd.instrumentId, o);
    var r := ProcessCancel(st, cmd);
    var gone := WithdrawalRests(st, r.state, key);
    assert gone == o;
    WithdrawnIsGone(st, r.state, cmd.instrumentId, o);
  }

  lemma RestsInABook(st: EngineState, id: InstrumentId, o: BookOrder)
    requires Rests(st, id, o)
    ensures id in st.books
  {
  }

  // ---------- replaces ----------

  /** The order the replace names. */
  ghost predicate Names(st: EngineState, cmd: Command, o: BookOrder)
    requires cmd.ReplaceOrder?
  {
    var key := LiveKey(cmd.accountId, cmd.originalClientOrderId);
    Live(st, key, cmd.instrumentId) && IsEntryOf(st, key, st.directory[key], o)
  }

  /** A refused replace changes nothing, and the reason is the first check it fails: instrument, new terms, live key. */
  lemma ReplaceRefused(st: EngineState, cmd: Command)
    requires WellFormed(st) && cmd.ReplaceOrder?
    requires cmd.instrumentId !in st.books || cmd.newPrice <= 0 || cmd.newQuantity == 0
             || !Live(st, LiveKey(cmd.accountId, cmd.originalClientOrderId), cmd.instrumentId)
    ensures Locates(st)
    ensures Refused(st, ProcessReplace(st, cmd), cmd, cmd.originalClientOrderId,
                    if cmd.instrumentId !in st.books then InvalidInstrument
                    else if cmd.newPrice <= 0 || cmd.newQuantity == 0 then InvalidReplacement
                    else UnknownOrderId)
  {
    SoundMeansLocates(st);
  }

  /** The order at stake in a replace with valid terms. */
  lemma ReplaceIsAbout(st: EngineState, cmd: Command, o: BookOrder)
    requires WellFormed(st) && cmd.ReplaceOrder? && Names(st, cmd, o) && cmd.newPrice > 0 && cmd.newQuantity > 0
    ensures Locates(st) && cmd.instrumentId in st.books
    ensures ReplaceVerdict(st, cmd) == NoReason && ReplacedOrder(st, cmd) == o
    ensures Rests(st, cmd.instrumentId, o) && st.books[cmd.instrumentId].Holds(o.exchangeOrderId)
    ensures st.books[cmd.instrumentId].SideHolding(o.exchangeOrderId) == o.side
    ensures o.Key() == LiveKey(cmd.accountId, cmd.originalClientOrderId) && o.timeInForce == GTC
  {
    hide Uncrossed, DirectorySound, Locates;
    SoundMeansLocates(st);
    FindResting(st, cmd.instrumentId, o);
    RestingIsGood(st, cmd.instrumentId, o);
  }

  lemma EditStandsIn(side: Side, s: seq<BookOrder>, i: nat, o': BookOrder)
    requires SideOk(side, s) && i < |s|
    ensures StandsIn(s, s[i := o'], s[i], o')
  {
  }

  lemma ReplacingStandsIn(st: EngineState, id: InstrumentId, o: BookOrder, o': BookOrder)
    requires BooksOk(st) && Rests(st, id, o)
    ensures st.books[id].Holds(o.exchangeOrderId)
    ensures var book := st.books[id]; var book' := book.Replacing(o.exchangeOrderId, o');
            && StandsIn(book.Orders(o.side), book'.Orders(o.side), o, o')
            && book'.Orders(o.side.Opposite()) == book.Orders(o.side.Opposite())
  {
    hide Rests, IndexOf, HasId, SideOk;
    FindResting(st, id, o);
    RestsInABook(st, id, o);
    var book := st.books[id];
    EditStandsIn(o.side, book.Orders(o.side), IndexOf(book.Orders(o.side), o.exchangeOrderId), o');
  }

  /** A replace at the order's own price for no more than is left of it edits the order where it stands: same exchange
      id, same place, everything else as it was. */
  lemma ReplaceInItsPlace(st: EngineState, cmd: Command, o: BookOrder)
    requires WellFormed(st) && cmd.ReplaceOrder? && Names(st, cmd, o) && cmd.newPrice > 0 && cmd.newQuantity > 0
    requires cmd.newPrice == o.price && cmd.newQuantity <= o.remainingQuantity
    ensures Locates(st)
    ensures var r := ProcessReplace(st, cmd); var id := cmd.instrumentId;
            var edited := BookOrder(o.exchangeOrderId, cmd.newClientOrderId, o.accountId, o.price, cmd.newQuantity,
                                    o.side, o.timeInForce);
            var key := LiveKey(cmd.accountId, cmd.originalClientOrderId);
            && OtherBooksStay(st, r.state, id)
            && id in st.books
            && StandsIn(st.books[id].Orders(o.side), r.state.books[id].Orders(o.side), o, edited)
            && r.state.books[id].Orders(o.side.Opposite()) == st.books[id].Orders(o.side.Opposite())
            && r.state.directory
                 == (st.directory - {key})[LiveKey(cmd.accountId, cmd.newClientOrderId) := st.directory[key]]
            && r.state.nextExchangeOrderId == st.nextExchangeOrderId && r.state.nextPriority == st.nextPriority
            && r.events == [OrderReplaced(st.nextEventSequence, cmd.commandSequence, cmd.accountId,
                                          cmd.originalClientOrderId, cmd.newClientOrderId, o.exchangeOrderId, id,
                                          cmd.newPrice, cmd.newQuantity),
                            BookOrderReduced(st.nextEventSequence + 1, id, o.exchangeOrderId, o.side, o.price,
                                             cmd.newQuantity)]
  {
    hide BooksOk, Uncrossed, DirectorySound, Rests, StandsIn, Locates, ReplaceVerdict, ReplacedOrder, Names;
    ReplaceIsAbout(st, cmd, o);
    ReplacingStandsIn(st, cmd.instrumentId, o,
                      o.(remainingQuantity := cmd.newQuantity, clientOrderId := cmd.newClientOrderId));
  }

  /** Any other replace gives the place up: the old order is gone from the book and the directory, and the new terms
      enter it under the next exchange id and the next priority, like a new order. */
  lemma ReplaceEntersAnew(st: EngineState, cmd: Command, o: BookOrder)
    requires WellFormed(st) && cmd.ReplaceOrder? && Names(st, cmd, o) && cmd.newPrice > 0 && cmd.newQuantity > 0
    requires cmd.newPrice != o.price || cmd.newQuantity > o.remainingQuantity
    ensures Locates(st)
    ensures var r := ProcessReplace(st, cmd); var id := cmd.instrumentId;
            var key := LiveKey(cmd.accountId, cmd.newClientOrderId);
            var order := Issued(st, key, id, o.side, cmd.newPrice, cmd.newQuantity, GTC);
            && id in st.books
            && (exists kept :: LeftOut(st.books[id].Orders(o.side), kept, o)
                  && Entered(kept, st.books[id].Orders(o.side.Opposite()), r.state, r.events, order,
                             cmd.commandSequence))
            && OtherBooksStay(st, r.state, id)
            && EntriesStay(st, r.state, key)
            && Gone(r.state, o.exchangeOrderId)
            && r.state.nextExchangeOrderId == st.nextExchangeOrderId + 1
            && r.state.nextPriority == st.nextPriority + 1
            && |r.events| >= 2
            && r.events[0] == OrderReplaced(st.nextEventSequence, cmd.commandSequence, cmd.accountId,
                                            cmd.originalClientOrderId, cmd.newClientOrderId, st.nextExchangeOrderId,
                                            id, cmd.newPrice, cmd.newQuantity)
            && r.events[1] == BookOrderRemoved(st.nextEventSequence + 1, id, o.exchangeOrderId, o.side, o.price)
  {
    hide BooksOk, Uncrossed, DirectorySound, DirectoryComplete, Rests, LeftOut, Gone, Locates, ReplaceVerdict,
         ReplacedOrder, Names, MatchAndRest, Entered, FreshlyIssued, Left;
    ReplaceIsAbout(st, cmd, o);
    ReentryStart(st, cmd);
    WithoutLeavesOut(st, cmd.instrumentId, o);
    var start, order := AfterWithdrawal(st, cmd), ReplacementOrder(st, cmd);
    PassEnters(start, order, cmd.commandSequence);
    var r := MatchAndRest(start, order, cmd.commandSequence);
    var first := ProcessReplace(st, cmd).events[..2];
    NoTradeAnnounced(first);
    EnteredAfter(first, start.books[cmd.instrumentId].Orders(o.side), Contra(start, order), r.state, r.events, order,
                 cmd.commandSequence);
    ReentryLeavesNothing(st, cmd, o);
  }

  lemma NoTradeAnnounced(first: seq<Event>)
    requires |first| == 2 && first[0].OrderReplaced? && first[1].BookOrderRemoved?
    ensures TradesOf(first) == []
  {
    assert TradesOf(first[1..]) == [] by {
      assert first[1..][1..] == [] && first[1..][0] == first[1];
    }
  }

  /** The old exchange id is not the new order's, and no pass brings it back. */
  lemma ReentryLeavesNothing(st: EngineState, cmd: Command, o: BookOrder)
    requires WellFormed(st) && cmd.ReplaceOrder? && Names(st, cmd, o) && cmd.newPrice > 0 && cmd.newQuantity > 0
    requires cmd.newPrice != o.price || cmd.newQuantity > o.remainingQuantity
    requires Locates(st)
    ensures Gone(ProcessReplace(st, cmd).state, o.exchangeOrderId)
  {
    hide Uncrossed, DirectorySound, DirectoryComplete, Rests, Locates, ReplaceVerdict, ReplacedOrder,
         MatchLoop, FreshlyIssued, SideOk, Gone;
    ReplaceIsAbout(st, cmd, o);
    ReentryStart(st, cmd);
    var start, order := AfterWithdrawal(st, cmd), ReplacementOrder(st, cmd);
    var gone := WithdrawalRests(st, start, o.Key());
    WithdrawnIsGone(st, start, cmd.instrumentId, o);
    RestingIsGood(st, cmd.instrumentId, o);
    PassLeavesGone(start, order, cmd.commandSequence, o.exchangeOrderId);
  }

  lemma PassLeavesGone(st: EngineState, order: RestingOrder, c: nat, x: ExchangeOrderId)
    requires WellFormed(st) && FreshlyIssued(st, order) && Gone(st, x) && x != order.exchangeOrderId
    ensures Gone(MatchAndRest(st, order, c).state, x)
  {
    hide MatchLoop, SideOk, DirectorySound, Uncrossed, Rests;
    MatchLeavesGone(st, order, c, x);
    MatchKeeps(st, order, c);
    MatchKeepsFresh(st, order, c);
    var m := MatchLoop(st, order, c);
    if WillRest(m.incoming) {
      RestRests(m.state, m.incoming);
    }
  }

  lemma {:induction false} MatchLeavesGone(st: EngineState, order: RestingOrder, c: nat, x: ExchangeOrderId)
    requires BooksOk(st) && order.instrumentId in st.books && Gone(st, x)
    ensures Gone(MatchLoop(st, order, c).state, x)
    decreases |Contra(st, order)|, order.remainingQuantity
  {
    hide Rests, SideOk;
    if CanFill(st, order) {
      FillOnceRests(st, order, c);
      ContraRests(st, order, Contra(st, order)[0]);
      var one := FillOnce(st, order, c);
      assert Gone(one.state, x);
      MatchLeavesGone(one.state, one.incoming, c, x);
    }
  }

  lemma ContraRests(st: EngineState, incoming: RestingOrder, o: BookOrder)
    requires incoming.instrumentId in st.books && o in Contra(st, incoming)
    ensures Rests(st, incoming.instrumentId, o)
  {
  }

  /** What such a replace takes and leaves: as much of the new quantity as it reaches trades, and only the rest of it
      rests, at the new price, under the next exchange id, behind every other order at that price or better. */
  lemma ReplaceGoesToTheBack(st: EngineState, cmd: Command, o: BookOrder)
    requires WellFormed(st) && cmd.ReplaceOrder? && Names(st, cmd, o) && cmd.newPrice > 0 && cmd.newQuantity > 0
    requires cmd.newPrice != o.price || cmd.newQuantity > o.remainingQuantity
    ensures Locates(st)
    ensures var r := ProcessReplace(st, cmd); var id := cmd.instrumentId;
            && id in st.books && id in r.state.books
            && (var own, own' := st.books[id].Orders(o.side), r.state.books[id].Orders(o.side);
                var contra := st.books[id].Orders(o.side.Opposite());
                var contra' := r.state.books[id].Orders(o.side.Opposite());
                var reach := Reach(st, id, o.side, cmd.newPrice);
                && TotalQuantity(contra) - TotalQuantity(contra') == Min(cmd.newQuantity, reach)
                && (if reach >= cmd.newQuantity then LeftOut(own, own', o)
                    else exists kept :: LeftOut(own, kept, o)
                           && JoinedBehind(kept, own', BookOrder(st.nextExchangeOrderId, cmd.newClientOrderId,
                                                                 cmd.accountId, cmd.newPrice,
                                                                 cmd.newQuantity - reach, o.side, GTC))))
  {
    hide ProcessReplace, TradesOf, IsFill, JoinedBehind, LeftOut, WellFormed, Names, Locates, CrossableTotal;
    ReplaceEntersAnew(st, cmd, o);
  }

  /** A replace with valid terms keeps the order's exchange id in the book exactly when it asks for no more than is
      left, at the price the order has. */
  lemma KeepsItsIdExactly(st: EngineState, cmd: Command, o: BookOrder)
    requires WellFormed(st) && cmd.ReplaceOrder? && Names(st, cmd, o) && cmd.newPrice > 0 && cmd.newQuantity > 0
    ensures Locates(st)
    ensures (cmd.newPrice == o.price && cmd.newQuantity <= o.remainingQuantity)
            <==> !Gone(ProcessReplace(st, cmd).state, o.exchangeOrderId)
  {
    hide ProcessReplace, BooksOk, DirectorySound, Uncrossed, Locates, LeftOut, Entered;
    if cmd.newPrice == o.price && cmd.newQuantity <= o.remainingQuantity {
      ReplaceInItsPlace(st, cmd, o);
      ReplaceIsAbout(st, cmd, o);
      var s := st.books[cmd.instrumentId].Orders(o.side);
      var i :| 0 <= i < |s| && s[i] == o;
      assert Rests(ProcessReplace(st, cmd).state, cmd.instrumentId,
                   o.(remainingQuantity := cmd.newQuantity, clientOrderId := cmd.newClientOrderId));
    } else {
      ReplaceEntersAnew(st, cmd, o);
    }
  }
}
