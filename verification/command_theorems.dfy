/** What whole commands and runs keep, and the one kind of replace that breaks the order directory. */
module CommandTheorems {
  import opened ExchangeTypes
  import opened MatchingModel
  import opened MatchingInvariants
  import opened MatchingTheorems

  // ---------- resting a remainder ----------

  /** `order` carries an exchange id this engine has issued but that rests nowhere yet. */
  ghost predicate FreshlyIssued(st: EngineState, order: RestingOrder) {
    && order.instrumentId in st.books
    && order.price > 0
    && order.exchangeOrderId < st.nextExchangeOrderId
    && forall id, o :: Rests(st, id, o) ==> o.exchangeOrderId != order.exchangeOrderId
  }

  predicate WillRest(order: RestingOrder) {
    order.timeInForce == GTC && order.remainingQuantity > 0
  }

  lemma RestRests(st: EngineState, order: RestingOrder)
    requires BooksOk(st) && FreshlyIssued(st, order) && WillRest(order)
    ensures BooksOk(RestRemainder(st, order).state)
    ensures forall id, x :: Rests(RestRemainder(st, order).state, id, x)
              <==> Rests(st, id, x) || (id == order.instrumentId && x == order.ToBookOrder())
  {
    InsertKeepsBooks(st, RestRemainder(st, order).state, order.instrumentId, order.ToBookOrder());
  }

  lemma RestKeepsSound(st: EngineState, order: RestingOrder)
    requires BooksOk(st) && DirectorySound(st) && FreshlyIssued(st, order) && WillRest(order)
    ensures DirectorySound(RestRemainder(st, order).state)
  {
    RestRests(st, order);
    var st' := RestRemainder(st, order).state;
    forall k | k in st'.directory
      ensures EntrySound(st', k, st'.directory[k])
    {
      if k == order.Key() {
        assert IsEntryOf(st', k, st'.directory[k], order.ToBookOrder());
      } else {
        var o := EntryOrder(st, k);
        assert IsEntryOf(st', k, st'.directory[k], o);
      }
    }
  }

  lemma RestKeepsUncrossed(st: EngineState, order: RestingOrder)
    requires BooksOk(st) && Uncrossed(st) && FreshlyIssued(st, order) && WillRest(order)
    requires !CanFill(st, order)
    ensures Uncrossed(RestRemainder(st, order).state)
  {
    var s := st.books[order.instrumentId].Orders(order.side);
    forall i | 0 <= i < |s| ensures s[i].exchangeOrderId != order.exchangeOrderId {
      assert Rests(st, order.instrumentId, s[i]);
    }
    InsertKeepsSide(order.side, s, order.ToBookOrder());
  }

  lemma RestKeepsComplete(st: EngineState, order: RestingOrder)
    requires BooksOk(st) && DirectoryComplete(st) && FreshlyIssued(st, order) && WillRest(order)
    requires order.Key() !in st.directory
    ensures DirectoryComplete(RestRemainder(st, order).state)
  {
    RestRests(st, order);
    var st' := RestRemainder(st, order).state;
    forall id, o | Rests(st', id, o)
      ensures o.Key() in st'.directory
      ensures st'.directory[o.Key()].exchangeOrderId == o.exchangeOrderId
      ensures st'.directory[o.Key()].instrumentId == id
    {
      if Rests(st, id, o) {
        assert o.Key() in st.directory;
      }
    }
  }

  /** Resting an order completes the directory again exactly when its key was not already taken. */
  lemma RestCompletes(st: EngineState, order: RestingOrder)
    requires BooksOk(st) && DirectorySound(st) && DirectoryComplete(st) && FreshlyIssued(st, order) && WillRest(order)
    ensures DirectoryComplete(RestRemainder(st, order).state) <==> order.Key() !in st.directory
  {
    if order.Key() in st.directory {
      var o := EntryOrder(st, order.Key());
      RestRests(st, order);
      assert Rests(RestRemainder(st, order).state, st.directory[order.Key()].instrumentId, o);
    } else {
      RestKeepsComplete(st, order);
    }
  }

  // ---------- a pass followed by resting ----------

  lemma MatchKeepsFresh(st: EngineState, order: RestingOrder, c: nat)
    requires BooksOk(st) && FreshlyIssued(st, order)
    ensures var m := MatchLoop(st, order, c); FreshlyIssued(m.state, m.incoming)
    decreases |Contra(st, order)|, order.remainingQuantity
  {
    if CanFill(st, order) {
      FillOnceRests(st, order, c);
      var one := FillOnce(st, order, c);
      var front := Contra(st, order)[0];
      assert front in Contra(st, order);
      assert Rests(st, order.instrumentId, front);
      MatchKeepsFresh(one.state, one.incoming, c);
    }
  }

  lemma MatchAndRestKeeps(st: EngineState, order: RestingOrder, c: nat)
    requires WellFormed(st) && FreshlyIssued(st, order)
    ensures WellFormed(MatchAndRest(st, order, c).state)
  {
    MatchKeeps(st, order, c);
    MatchFrame(st, order, c);
    MatchKeepsFresh(st, order, c);
    var m := MatchLoop(st, order, c);
    if WillRest(m.incoming) {
      RestRests(m.state, m.incoming);
      RestKeepsSound(m.state, m.incoming);
      RestKeepsUncrossed(m.state, m.incoming);
    }
  }

  /** The order a directory entry locates is one the incoming order would trade with. */
  predicate EntryReachable(st: EngineState, incoming: RestingOrder, k: LiveKey)
    requires Locates(st) && k in st.directory
  {
    var ref := st.directory[k];
    var o := st.books[ref.instrumentId].Find(ref.exchangeOrderId);
    && ref.instrumentId == incoming.instrumentId
    && o.side == incoming.side.Opposite()
    && Crosses(incoming.side, incoming.price, o.price)
  }

  /** When a pass leaves something of the incoming order, the entries it erased are those within reach. */
  lemma MatchErasesReachable(st: EngineState, order: RestingOrder, c: nat, k: LiveKey)
    requires WellFormed(st) && DirectoryComplete(st) && Locates(st) && order.instrumentId in st.books
    requires k in st.directory && MatchLoop(st, order, c).incoming.remainingQuantity > 0
    ensures k in MatchLoop(st, order, c).state.directory <==> !EntryReachable(st, order, k)
  {
    var m := MatchLoop(st, order, c);
    MatchRests(st, order, c);
    MatchKeeps(st, order, c);
    MatchFrame(st, order, c);
    var id := st.directory[k].instrumentId;
    var o := EntryOrder(st, k);
    assert EntryReachable(st, order, k) <==> Reachable(order, id, o);
    assert Rests(m.state, id, o) <==> !Reachable(order, id, o);
    if k in m.state.directory {
      MatchKeepsEntries(st, order, c, k);
      var o' := EntryOrder(m.state, k);
      assert Reachable(order, id, o') || Rests(st, id, o');
    }
  }

  lemma MatchKeepsEntries(st: EngineState, order: RestingOrder, c: nat, k: LiveKey)
    requires order.instrumentId in st.books
    requires k in MatchLoop(st, order, c).state.directory
    ensures k in st.directory && MatchLoop(st, order, c).state.directory[k] == st.directory[k]
    decreases |Contra(st, order)|, order.remainingQuantity
  {
    if CanFill(st, order) {
      var one := FillOnce(st, order, c);
      MatchKeepsEntries(one.state, one.incoming, c, k);
    }
  }

  lemma MatchAndRestCompletes(st: EngineState, order: RestingOrder, c: nat)
    requires WellFormed(st) && DirectoryComplete(st) && Locates(st) && FreshlyIssued(st, order)
    requires order.timeInForce == GTC || order.Key() !in st.directory
    ensures DirectoryComplete(MatchAndRest(st, order, c).state) <==>
            !(&& order.Key() in st.directory
              && CrossableTotal(Contra(st, order), order.side, order.price) < order.remainingQuantity
              && !EntryReachable(st, order, order.Key()))
  {
    hide MatchLoop, SideOk, Rests, DirectorySound, DirectoryComplete, Uncrossed, IsFill, EntryReachable, Locates;
    MatchKeeps(st, order, c);
    MatchFrame(st, order, c);
    MatchKeepsFresh(st, order, c);
    var k := MatchIsGreedy(st, order, c);
    var m := MatchLoop(st, order, c);
    if order.Key() in st.directory && m.incoming.remainingQuantity > 0 {
      MatchErasesReachable(st, order, c, order.Key());
    }
    if WillRest(m.incoming) {
      RestCompletes(m.state, m.incoming);
    }
  }

  // ---------- commands ----------

  lemma NewOrderStart(st: EngineState, cmd: Command)
    requires WellFormed(st) && cmd.NewOrder? && NewOrderVerdict(st, cmd) == NoReason
    ensures WellFormed(AfterAcceptance(st)) && FreshlyIssued(AfterAcceptance(st), AcceptedOrder(st, cmd))
    ensures DirectoryComplete(st) ==> DirectoryComplete(AfterAcceptance(st))
  {
    AcceptanceKeeps(st);
    CountersKeep(st, AfterAcceptance(st));
  }

  lemma WithdrawalRests(st: EngineState, st': EngineState, k: LiveKey) returns (o: BookOrder)
    requires WellFormed(st) && Locates(st) && k in st.directory
    requires var id, x := st.directory[k].instrumentId, st.directory[k].exchangeOrderId;
             st'.books == st.books[id := st.books[id].Without(x)]
    requires st.nextExchangeOrderId <= st'.nextExchangeOrderId
    ensures o == st.books[st.directory[k].instrumentId].Find(st.directory[k].exchangeOrderId) && o.Key() == k
    ensures o.exchangeOrderId == st.directory[k].exchangeOrderId
    ensures Rests(st, st.directory[k].instrumentId, o)
    ensures BooksOk(st')
    ensures forall id, x :: Rests(st', id, x) <==> Rests(st, id, x) && !(id == st.directory[k].instrumentId && x == o)
  {
    o := EntryOrder(st, k);
    var id := st.directory[k].instrumentId;
    var book := st.books[id];
    var side := book.SideHolding(o.exchangeOrderId);
    RemoveKeepsBooks(st, st', id, side, IndexOf(book.Orders(side), o.exchangeOrderId));
  }

  /** Taking one order and its entry away keeps the books and the directory in order. */
  lemma WithdrawalKeeps(st: EngineState, st': EngineState, k: LiveKey)
    requires WellFormed(st) && Locates(st) && k in st.directory
    requires var id, x := st.directory[k].instrumentId, st.directory[k].exchangeOrderId;
             st'.books == st.books[id := st.books[id].Without(x)]
    requires st'.directory == st.directory - {k}
    requires st.nextExchangeOrderId <= st'.nextExchangeOrderId
    ensures BooksOk(st') && DirectorySound(st')
  {
    var o := WithdrawalRests(st, st', k);
    forall k' | k' in st'.directory ensures EntrySound(st', k', st'.directory[k']) {
      var x := EntryOrder(st, k');
      assert IsEntryOf(st', k', st'.directory[k'], x);
    }
  }

  lemma WithdrawalKeepsComplete(st: EngineState, st': EngineState, k: LiveKey)
    requires WellFormed(st) && Locates(st) && k in st.directory && DirectoryComplete(st)
    requires var id, x := st.directory[k].instrumentId, st.directory[k].exchangeOrderId;
             st'.books == st.books[id := st.books[id].Without(x)]
    requires st'.directory == st.directory - {k}
    requires st.nextExchangeOrderId <= st'.nextExchangeOrderId
    ensures DirectoryComplete(st')
  {
    var o := WithdrawalRests(st, st', k);
    forall id, x | Rests(st', id, x)
      ensures x.Key() in st'.directory
      ensures st'.directory[x.Key()].exchangeOrderId == x.exchangeOrderId
      ensures st'.directory[x.Key()].instrumentId == id
    {
      assert Rests(st, id, x) && x.Key() in st.directory;
    }
  }

  lemma WithoutFront(book: BookView, x: ExchangeOrderId, side: Side)
    requires book.Holds(x) && book.Without(x).Orders(side) != []
    requires SideOk(Buy, book.bids) && SideOk(Sell, book.asks)
    ensures book.Orders(side) != []
    ensures !Better(side, book.Without(x).Orders(side)[0].price, book.Orders(side)[0].price)
  {
  }

  lemma WithdrawalKeepsUncrossed(st: EngineState, st': EngineState, id: InstrumentId, x: ExchangeOrderId)
    requires BooksOk(st) && Uncrossed(st) && id in st.books && st.books[id].Holds(x)
    requires st'.books == st.books[id := st.books[id].Without(x)]
    ensures Uncrossed(st')
  {
    var book, book' := st.books[id], st'.books[id];
    if book'.bids != [] && book'.asks != [] {
      WithoutFront(book, x, Buy);
      WithoutFront(book, x, Sell);
    }
  }

  lemma CancelKeeps(st: EngineState, cmd: Command)
    requires WellFormed(st) && Locates(st) && cmd.CancelOrder?
    ensures WellFormed(ProcessCancel(st, cmd).state)
    ensures DirectoryComplete(st) ==> DirectoryComplete(ProcessCancel(st, cmd).state)
  {
    var st' := ProcessCancel(st, cmd).state;
    if CancelVerdict(st, cmd) == NoReason {
      var key := LiveKey(cmd.accountId, cmd.clientOrderId);
      WithdrawalKeeps(st, st', key);
      WithdrawalKeepsUncrossed(st, st', cmd.instrumentId, st.directory[key].exchangeOrderId);
      if DirectoryComplete(st) {
        WithdrawalKeepsComplete(st, st', key);
      }
    } else {
      CountersKeep(st, st');
    }
  }

  lemma CountersKeep(st: EngineState, st': EngineState)
    requires WellFormed(st)
    requires st'.books == st.books && st'.directory == st.directory
    requires st.nextExchangeOrderId <= st'.nextExchangeOrderId
    ensures WellFormed(st')
    ensures DirectoryComplete(st) <==> DirectoryComplete(st')
  {
    assert forall id, o :: Rests(st', id, o) <==> Rests(st, id, o);
    assert DirectorySound(st') by {
      forall k | k in st'.directory
        ensures EntrySound(st', k, st'.directory[k])
      {
        var o := EntryOrder(st, k);
        assert IsEntryOf(st', k, st'.directory[k], o);
      }
    }
  }

  lemma NewOrderKeeps(st: EngineState, cmd: Command)
    requires WellFormed(st) && cmd.NewOrder?
    ensures WellFormed(ProcessNewOrder(st, cmd).state)
    ensures DirectoryComplete(st) ==> DirectoryComplete(ProcessNewOrder(st, cmd).state)
  {
    if NewOrderVerdict(st, cmd) == NoReason {
      NewOrderStart(st, cmd);
      var start := AfterAcceptance(st);
      MatchAndRestKeeps(start, AcceptedOrder(st, cmd), cmd.commandSequence);
      if DirectoryComplete(st) {
        SoundMeansLocates(start);
        MatchAndRestCompletes(start, AcceptedOrder(st, cmd), cmd.commandSequence);
      }
    } else {
      CountersKeep(st, ProcessNewOrder(st, cmd).state);
    }
  }

  /** The renamed, possibly smaller, order stands where the old one stood; nothing else moved. */
  lemma ReplaceInPlaceRests(st: EngineState, cmd: Command)
    requires WellFormed(st) && Locates(st) && cmd.ReplaceOrder?
    requires ReplaceVerdict(st, cmd) == NoReason && PreservesPriority(st, cmd)
    ensures var st' := ReplaceInPlace(st, cmd).state; var prior := ReplacedOrder(st, cmd);
            var edited := prior.(remainingQuantity := cmd.newQuantity, clientOrderId := cmd.newClientOrderId);
            && BooksOk(st')
            && Rests(st, cmd.instrumentId, prior)
            && prior.Key() == LiveKey(cmd.accountId, cmd.originalClientOrderId)
            && (forall id, x :: Rests(st', id, x) <==>
                  (Rests(st, id, x) && !(id == cmd.instrumentId && x == prior))
                  || (id == cmd.instrumentId && x == edited))
  {
    var o := EntryOrder(st, LiveKey(cmd.accountId, cmd.originalClientOrderId));
    var side := st.books[cmd.instrumentId].SideHolding(o.exchangeOrderId);
    var i := IndexOf(st.books[cmd.instrumentId].Orders(side), o.exchangeOrderId);
    assert o in st.books[cmd.instrumentId].Orders(side);
    EditKeepsBooks(st, ReplaceInPlace(st, cmd).state, cmd.instrumentId, side, i,
                   o.(remainingQuantity := cmd.newQuantity, clientOrderId := cmd.newClientOrderId));
  }

  lemma ReplaceInPlaceKeeps(st: EngineState, cmd: Command)
    requires WellFormed(st) && Locates(st) && cmd.ReplaceOrder?
    requires ReplaceVerdict(st, cmd) == NoReason && PreservesPriority(st, cmd)
    ensures WellFormed(ReplaceInPlace(st, cmd).state)
  {
    hide SideOk, EntrySound;
    var st' := ReplaceInPlace(st, cmd).state;
    ReplaceInPlaceRests(st, cmd);
    forall k | k in st'.directory ensures EntrySound(st', k, st'.directory[k]) {
      EntrySurvivesReplace(st, cmd, k);
    }
    ReplaceInPlaceUncrossed(st, cmd);
  }

  lemma EntrySurvivesReplace(st: EngineState, cmd: Command, k: LiveKey)
    requires WellFormed(st) && Locates(st) && cmd.ReplaceOrder?
    requires ReplaceVerdict(st, cmd) == NoReason && PreservesPriority(st, cmd)
    requires k in ReplaceInPlace(st, cmd).state.directory
    ensures var st' := ReplaceInPlace(st, cmd).state; EntrySound(st', k, st'.directory[k])
  {
    hide SideOk, Rests, Uncrossed;
    var st' := ReplaceInPlace(st, cmd).state;
    ReplaceInPlaceRests(st, cmd);
    var prior := ReplacedOrder(st, cmd);
    var edited := prior.(remainingQuantity := cmd.newQuantity, clientOrderId := cmd.newClientOrderId);
    if k == edited.Key() {
      assert IsEntryOf(st', k, st'.directory[k], edited);
    } else {
      var x := EntryOrder(st, k);
      assert IsEntryOf(st', k, st'.directory[k], x);
    }
  }

  /** An edit moves no price. */
  lemma ReplaceInPlaceUncrossed(st: EngineState, cmd: Command)
    requires WellFormed(st) && Locates(st) && cmd.ReplaceOrder?
    requires ReplaceVerdict(st, cmd) == NoReason && PreservesPriority(st, cmd)
    ensures Uncrossed(ReplaceInPlace(st, cmd).state)
  {
    hide SideOk, DirectorySound, EntrySound;
  }

  lemma ReplaceInPlaceKeepsComplete(st: EngineState, cmd: Command)
    requires WellFormed(st) && Locates(st) && DirectoryComplete(st) && cmd.ReplaceOrder?
    requires ReplaceVerdict(st, cmd) == NoReason && PreservesPriority(st, cmd)
    requires cmd.newClientOrderId == cmd.originalClientOrderId
             || LiveKey(cmd.accountId, cmd.newClientOrderId) !in st.directory
    ensures DirectoryComplete(ReplaceInPlace(st, cmd).state)
  {
    hide BooksOk, Rests, Uncrossed, DirectorySound, Locates, ReplaceInPlace, ReplacedOrder, EntryLeadsTo;
    ReplaceInPlaceRests(st, cmd);
    EditedEntry(st, cmd);
    var st' := ReplaceInPlace(st, cmd).state;
    var prior := ReplacedOrder(st, cmd);
    forall id, x | Rests(st', id, x) ensures EntryLeadsTo(st', id, x) {
      if Rests(st, id, x) && !(id == cmd.instrumentId && x == prior) {
        OtherEntryStays(st, cmd, id, x);
      }
    }
    EntriesComplete(st');
  }

  /** The directory leads from this order's key to this order. */
  ghost predicate EntryLeadsTo(st: EngineState, id: InstrumentId, o: BookOrder) {
    && o.Key() in st.directory
    && st.directory[o.Key()].exchangeOrderId == o.exchangeOrderId
    && st.directory[o.Key()].instrumentId == id
  }

  lemma EntriesComplete(st: EngineState)
    requires forall id, o :: Rests(st, id, o) ==> EntryLeadsTo(st, id, o)
    ensures DirectoryComplete(st)
  {
    hide Rests;
  }

  lemma EditedEntry(st: EngineState, cmd: Command)
    requires WellFormed(st) && Locates(st) && cmd.ReplaceOrder?
    requires ReplaceVerdict(st, cmd) == NoReason && PreservesPriority(st, cmd)
    ensures EntryLeadsTo(ReplaceInPlace(st, cmd).state, cmd.instrumentId,
                     ReplacedOrder(st, cmd).(remainingQuantity := cmd.newQuantity,
                                             clientOrderId := cmd.newClientOrderId))
  {
    hide BooksOk, Uncrossed, DirectorySound, Locates;
    ReplaceInPlaceRests(st, cmd);
  }

  lemma OtherEntryStays(st: EngineState, cmd: Command, id: InstrumentId, x: BookOrder)
    requires WellFormed(st) && Locates(st) && DirectoryComplete(st) && cmd.ReplaceOrder?
    requires ReplaceVerdict(st, cmd) == NoReason && PreservesPriority(st, cmd)
    requires cmd.newClientOrderId == cmd.originalClientOrderId
             || LiveKey(cmd.accountId, cmd.newClientOrderId) !in st.directory
    requires Rests(st, id, x) && !(id == cmd.instrumentId && x == ReplacedOrder(st, cmd))
    ensures EntryLeadsTo(ReplaceInPlace(st, cmd).state, id, x)
  {
    hide Rests, Uncrossed, DirectorySound, Locates, ReplacedOrder;
    ReplaceInPlaceRests(st, cmd);
    assert x.Key() in st.directory && x.Key() != ReplacedOrder(st, cmd).Key();
  }

  lemma ReplaceInPlaceOrphans(st: EngineState, cmd: Command)
    requires WellFormed(st) && Locates(st) && DirectoryComplete(st) && cmd.ReplaceOrder?
    requires ReplaceVerdict(st, cmd) == NoReason && PreservesPriority(st, cmd)
    requires cmd.newClientOrderId != cmd.originalClientOrderId
             && LiveKey(cmd.accountId, cmd.newClientOrderId) in st.directory
    ensures !DirectoryComplete(ReplaceInPlace(st, cmd).state)
  {
    var st' := ReplaceInPlace(st, cmd).state;
    ReplaceInPlaceRests(st, cmd);
    var key' := LiveKey(cmd.accountId, cmd.newClientOrderId);
    var other := EntryOrder(st, key');
    assert Rests(st', st.directory[key'].instrumentId, other);
  }

  lemma ReentryStart(st: EngineState, cmd: Command)
    requires WellFormed(st) && Locates(st) && cmd.ReplaceOrder? && ReplaceVerdict(st, cmd) == NoReason
    ensures WellFormed(AfterWithdrawal(st, cmd))
    ensures FreshlyIssued(AfterWithdrawal(st, cmd), ReplacementOrder(st, cmd))
    ensures DirectoryComplete(st) ==> DirectoryComplete(AfterWithdrawal(st, cmd))
    ensures ReplacementOrder(st, cmd).timeInForce == GTC
  {
    hide BooksOk, DirectorySound, Uncrossed, DirectoryComplete, Rests, FreshlyIssued;
    var key := LiveKey(cmd.accountId, cmd.originalClientOrderId);
    var start := AfterWithdrawal(st, cmd);
    var o := WithdrawalRests(st, start, key);
    WithdrawalKeeps(st, start, key);
    WithdrawalKeepsUncrossed(st, start, cmd.instrumentId, o.exchangeOrderId);
    ReentryFresh(st, cmd, o);
    if DirectoryComplete(st) {
      WithdrawalKeepsComplete(st, start, key);
    }
  }

  /** The order on its way back in has an id nothing rests under, and was resting, so it may rest again. */
  lemma ReentryFresh(st: EngineState, cmd: Command, o: BookOrder)
    requires BooksOk(st) && Locates(st) && cmd.ReplaceOrder? && ReplaceVerdict(st, cmd) == NoReason
    requires o == ReplacedOrder(st, cmd) && Rests(st, cmd.instrumentId, o)
    requires var start := AfterWithdrawal(st, cmd);
             forall id, x :: Rests(start, id, x) <==> Rests(st, id, x) && !(id == cmd.instrumentId && x == o)
    ensures FreshlyIssued(AfterWithdrawal(st, cmd), ReplacementOrder(st, cmd))
    ensures ReplacementOrder(st, cmd).timeInForce == GTC
  {
    hide Rests, SideOk, ReplacedOrder, Locates;
    RestingIsGood(st, cmd.instrumentId, o);
  }

  lemma RestingIsGood(st: EngineState, id: InstrumentId, o: BookOrder)
    requires BooksOk(st) && Rests(st, id, o)
    ensures o.timeInForce == GTC && o.exchangeOrderId < st.nextExchangeOrderId
  {
  }

  lemma ReplaceKeeps(st: EngineState, cmd: Command)
    requires WellFormed(st) && Locates(st) && cmd.ReplaceOrder?
    ensures WellFormed(ProcessReplace(st, cmd).state)
  {
    if ReplaceVerdict(st, cmd) != NoReason {
      CountersKeep(st, ProcessReplace(st, cmd).state);
    } else if PreservesPriority(st, cmd) {
      ReplaceInPlaceKeeps(st, cmd);
    } else {
      ReentryStart(st, cmd);
      MatchAndRestKeeps(AfterWithdrawal(st, cmd), ReplacementOrder(st, cmd), cmd.commandSequence);
    }
  }

  /** Every command keeps the books in order and uncrossed and every directory entry sound. */
  lemma ProcessKeeps(st: EngineState, cmd: Command)
    requires WellFormed(st)
    ensures Locates(st) && WellFormed(Process(st, cmd).state)
  {
    SoundMeansLocates(st);
    match cmd
    case NewOrder(_, _, _, _, _, _, _, _, _) => NewOrderKeeps(st, cmd);
    case CancelOrder(_, _, _, _) => CancelKeeps(st, cmd);
    case ReplaceOrder(_, _, _, _, _, _, _) => ReplaceKeeps(st, cmd);
  }

  // ---------- the directory stays complete, exactly when no replace takes a live id ----------

  /** The replace is about to file its order under another live order's id, and that order will still rest:
      the order keeps its place, or re-enters with too little to trade against to vanish, on a book pass
      that does not itself consume the other order. */
  predicate TakesLiveId(st: EngineState, cmd: Command)
    requires Locates(st)
  {
    && cmd.ReplaceOrder?
    && ReplaceVerdict(st, cmd) == NoReason
    && cmd.newClientOrderId != cmd.originalClientOrderId
    && LiveKey(cmd.accountId, cmd.newClientOrderId) in st.directory
    && (PreservesPriority(st, cmd)
        || (var order := ReplacementOrder(st, cmd);
            && CrossableTotal(Contra(st, order), order.side, order.price) < order.remainingQuantity
            && !EntryReachable(st, order, order.Key())))
  }

  /** Withdrawing the replaced order leaves its contra side, and what every other entry locates, as they were. */
  lemma WithdrawalSparesContra(st: EngineState, cmd: Command)
    requires WellFormed(st) && Locates(st) && cmd.ReplaceOrder? && ReplaceVerdict(st, cmd) == NoReason
    ensures Contra(AfterWithdrawal(st, cmd), ReplacementOrder(st, cmd)) == Contra(st, ReplacementOrder(st, cmd))
  {
    var prior := EntryOrder(st, LiveKey(cmd.accountId, cmd.originalClientOrderId));
  }

  lemma WithdrawalSparesEntry(st: EngineState, cmd: Command, k: LiveKey)
    requires WellFormed(st) && Locates(st) && cmd.ReplaceOrder? && ReplaceVerdict(st, cmd) == NoReason
    requires k in st.directory && k != LiveKey(cmd.accountId, cmd.originalClientOrderId)
    ensures var start, order := AfterWithdrawal(st, cmd), ReplacementOrder(st, cmd);
            && Locates(start) && k in start.directory
            && (EntryReachable(start, order, k) <==> EntryReachable(st, order, k))
  {
    var start := AfterWithdrawal(st, cmd);
    ReentryStart(st, cmd);
    SoundMeansLocates(start);
    var a := EntryOrder(st, k);
    var b := EntryOrder(start, k);
    var gone := WithdrawalRests(st, start, LiveKey(cmd.accountId, cmd.originalClientOrderId));
    assert Rests(st, st.directory[k].instrumentId, b);
    assert a == b;
  }

  lemma ReplaceCompletes(st: EngineState, cmd: Command)
    requires WellFormed(st) && Locates(st) && DirectoryComplete(st) && cmd.ReplaceOrder?
    ensures DirectoryComplete(ProcessReplace(st, cmd).state) <==> !TakesLiveId(st, cmd)
  {
    if ReplaceVerdict(st, cmd) != NoReason {
      CountersKeep(st, ProcessReplace(st, cmd).state);
    } else if PreservesPriority(st, cmd) {
      if TakesLiveId(st, cmd) {
        ReplaceInPlaceOrphans(st, cmd);
      } else {
        ReplaceInPlaceKeepsComplete(st, cmd);
      }
    } else {
      ReentryStart(st, cmd);
      SoundMeansLocates(AfterWithdrawal(st, cmd));
      WithdrawalSparesContra(st, cmd);
      var key' := LiveKey(cmd.accountId, cmd.newClientOrderId);
      if cmd.newClientOrderId != cmd.originalClientOrderId && key' in st.directory {
        WithdrawalSparesEntry(st, cmd, key');
      }
      MatchAndRestCompletes(AfterWithdrawal(st, cmd), ReplacementOrder(st, cmd), cmd.commandSequence);
    }
  }

  /** The directory and the books stay in one-to-one correspondence over a command exactly when the command
      does not take a live id. */
  lemma DirectoryStaysComplete(st: EngineState, cmd: Command)
    requires WellFormed(st) && DirectoryComplete(st)
    ensures Locates(st) && (DirectoryComplete(Process(st, cmd).state) <==> !TakesLiveId(st, cmd))
  {
    SoundMeansLocates(st);
    match cmd
    case NewOrder(_, _, _, _, _, _, _, _, _) => NewOrderKeeps(st, cmd);
    case CancelOrder(_, _, _, _) => CancelKeeps(st, cmd);
    case ReplaceOrder(_, _, _, _, _, _, _) => ReplaceCompletes(st, cmd);
  }

  // ---------- runs ----------

  ghost function Run(st: EngineState, cmds: seq<Command>): (r: StepResult)
    requires WellFormed(st)
    ensures WellFormed(r.state)
    decreases |cmds|
  {
    if cmds == [] then StepResult(st, [])
    else
      ProcessKeeps(st, cmds[0]);
      var one := Process(st, cmds[0]);
      var rest := Run(one.state, cmds[1..]);
      StepResult(rest.state, one.events + rest.events)
  }

  lemma {:induction false} RunOneMore(start: EngineState, cmds: seq<Command>, cmd: Command)
    requires WellFormed(start)
    ensures Locates(Run(start, cmds).state)
    ensures var before, after := Run(start, cmds), Run(start, cmds + [cmd]);
            var one := Process(before.state, cmd);
            after.state == one.state && after.events == before.events + one.events
    decreases |cmds|
  {
    hide WellFormed, Process, Locates;
    if cmds == [] {
      assert [] + [cmd] == [cmd] && [cmd][1..] == [];
      ProcessKeeps(start, cmd);
      var one := Process(start, cmd);
      assert Run(one.state, []) == StepResult(one.state, []);
      assert one.events + [] == one.events && [] + one.events == one.events;
    } else {
      assert (cmds + [cmd])[1..] == cmds[1..] + [cmd];
      ProcessKeeps(start, cmds[0]);
      var one := Process(start, cmds[0]);
      RunOneMore(one.state, cmds[1..], cmd);
      var rest := Run(one.state, cmds[1..]);
      var last := Process(rest.state, cmd);
      assert one.events + (rest.events + last.events) == one.events + rest.events + last.events;
    }
  }

  /** No replace of the run takes an id that is live when its turn comes. */
  ghost predicate NeverTakesLiveId(st: EngineState, cmds: seq<Command>)
    requires WellFormed(st)
    decreases |cmds|
  {
    cmds == [] || (ProcessKeeps(st, cmds[0]);
                   !TakesLiveId(st, cmds[0]) && NeverTakesLiveId(Process(st, cmds[0]).state, cmds[1..]))
  }

  lemma EmptyStateWellFormed(st: EngineState)
    requires st.directory == map[] && forall id :: id in st.books ==> st.books[id] == EMPTY_BOOK
    ensures WellFormed(st) && DirectoryComplete(st)
  {
  }

  lemma {:induction false} DirectoryCompleteOverRuns(st: EngineState, cmds: seq<Command>)
    requires WellFormed(st) && DirectoryComplete(st) && NeverTakesLiveId(st, cmds)
    ensures DirectoryComplete(Run(st, cmds).state)
    decreases |cmds|
  {
    if cmds != [] {
      ProcessKeeps(st, cmds[0]);
      DirectoryStaysComplete(st, cmds[0]);
      DirectoryCompleteOverRuns(Process(st, cmds[0]).state, cmds[1..]);
    }
  }

  /** Two orders of account 1 rest on instrument 7. */
  const TWO_BIDS := EngineState(
    map[7 := BookView([BookOrder(1, 1, 1, 10, 5, Buy, GTC), BookOrder(2, 2, 1, 9, 5, Buy, GTC)], [])],
    map[LiveKey(1, 1) := OrderRef(5, 1, 1, 7), LiveKey(1, 2) := OrderRef(5, 2, 2, 7)], 3, 5, 3)

  lemma TwoBidsBooksOk()
    ensures BooksOk(TWO_BIDS)
    ensures forall id, o :: Rests(TWO_BIDS, id, o) <==> id == 7 && o in TWO_BIDS.books[7].bids
  {
    hide SideOk, Rests;
    TwoBidsSideOk();
    TwoBidsRest();
  }

  lemma TwoBidsSideOk()
    ensures SideOk(Buy, TWO_BIDS.books[7].bids) && SideOk(Sell, [])
  {
  }

  lemma TwoBidsRest()
    ensures forall id, o :: Rests(TWO_BIDS, id, o) <==> id == 7 && o in TWO_BIDS.books[7].bids
    ensures forall o :: o in TWO_BIDS.books[7].bids ==>
              o == TWO_BIDS.books[7].bids[0] || o == TWO_BIDS.books[7].bids[1]
  {
  }

  lemma TwoBidsWellFormed()
    ensures WellFormed(TWO_BIDS) && DirectoryComplete(TWO_BIDS) && Locates(TWO_BIDS)
  {
    hide BooksOk, Locates;
    TwoBidsBooksOk();
    TwoBidsEntries();
    SoundMeansLocates(TWO_BIDS);
  }

  lemma TwoBidsEntries()
    ensures DirectorySound(TWO_BIDS) && DirectoryComplete(TWO_BIDS)
  {
    hide Rests;
    var st := TWO_BIDS;
    TwoBidsRest();
    var first, second := st.books[7].bids[0], st.books[7].bids[1];
    assert first in st.books[7].bids && second in st.books[7].bids;
    assert IsEntryOf(st, LiveKey(1, 1), st.directory[LiveKey(1, 1)], first);
    assert IsEntryOf(st, LiveKey(1, 2), st.directory[LiveKey(1, 2)], second);
  }

  /** Replacing the first order under the second's id leaves the second in the book with no entry locating it. */
  lemma ReplaceOntoLiveIdOrphansAnOrder()
    ensures WellFormed(TWO_BIDS) && DirectoryComplete(TWO_BIDS) && Locates(TWO_BIDS)
    ensures !DirectoryComplete(Process(TWO_BIDS, ReplaceOrder(3, 1, 1, 2, 7, 10, 4)).state)
  {
    var st := TWO_BIDS;
    var cmd := ReplaceOrder(3, 1, 1, 2, 7, 10, 4);
    TwoBidsWellFormed();
    assert Rests(st, 7, st.books[7].bids[0]);
    FindResting(st, 7, st.books[7].bids[0]);
    assert ReplacedOrder(st, cmd) == st.books[7].bids[0];
    DirectoryStaysComplete(st, cmd);
  }

  // ---------- event numbering ----------

  ghost predicate Numbered(events: seq<Event>, first: nat) {
    forall i :: 0 <= i < |events| ==> events[i].eventSequence == first + i
  }

  lemma {:induction false} MatchNumbers(st: EngineState, incoming: RestingOrder, c: nat)
    requires incoming.instrumentId in st.books
    ensures Numbered(MatchLoop(st, incoming, c).events, st.nextEventSequence)
    decreases |Contra(st, incoming)|, incoming.remainingQuantity
  {
    if CanFill(st, incoming) {
      var one := FillOnce(st, incoming, c);
      MatchNumbers(one.state, one.incoming, c);
    }
  }

  /** Event numbers are consecutive across everything one command emits, and the counter ends just past them. */
  lemma ProcessNumbers(st: EngineState, cmd: Command)
    requires Locates(st)
    ensures var r := Process(st, cmd);
            Numbered(r.events, st.nextEventSequence) && r.state.nextEventSequence == st.nextEventSequence + |r.events|
  {
    hide MatchLoop;
    if cmd.NewOrder? && NewOrderVerdict(st, cmd) == NoReason {
      MatchNumbers(AfterAcceptance(st), AcceptedOrder(st, cmd), cmd.commandSequence);
      MatchFrame(AfterAcceptance(st), AcceptedOrder(st, cmd), cmd.commandSequence);
    } else if cmd.ReplaceOrder? && ReplaceVerdict(st, cmd) == NoReason && !PreservesPriority(st, cmd) {
      MatchNumbers(AfterWithdrawal(st, cmd), ReplacementOrder(st, cmd), cmd.commandSequence);
      MatchFrame(AfterWithdrawal(st, cmd), ReplacementOrder(st, cmd), cmd.commandSequence);
    }
  }
}
