/** What holds of a risk-gated exchange from the moment it opens, whatever deposits and commands reach it. */
module ExchangeRuns {
  import opened ExchangeTypes
  import opened MatchingModel
  import opened MatchingInvariants
  import opened MatchingTheorems
  import opened CommandTheorems
  import opened LedgerModel
  import opened LedgerTheorems
  import opened GateModel
  import opened GateTheorems
  import opened FeedModel
  import opened FeedTheorems
  import opened SideIndexes
  import opened TraderLevels
  import opened TraderBooks
  import opened TraderFeeds
  import opened TraderAgreement

  // ---------- opening ----------

  ghost predicate NothingRests(st: EngineState) {
    st.directory == map[] && forall id :: id in st.books ==> st.books[id] == EMPTY_BOOK
  }

  lemma {:induction false} NothingRestsAtOpening(st: EngineState, universe: seq<InstrumentId>)
    requires NothingRests(st)
    ensures NothingRests(RegisterAll(st, universe))
    decreases |universe|
  {
    if universe != [] {
      NothingRestsAtOpening(Register(st, universe[0]), universe[1..]);
    }
  }

  /** The engine over `universe` and an empty ledger. */
  ghost function Opened(universe: seq<InstrumentId>): (g: GateState)
    ensures WellFormed(g.engine)
  {
    NothingRestsAtOpening(INITIAL_STATE, universe);
    EmptyStateWellFormed(RegisterAll(INITIAL_STATE, universe));
    GateState(RegisterAll(INITIAL_STATE, universe), EMPTY_LEDGER)
  }

  lemma OpenedIsSound(universe: seq<InstrumentId>)
    ensures GateSound(Opened(universe)) && Mirrors(Opened(universe).engine, map[])
  {
    var st := Opened(universe).engine;
    NothingRestsAtOpening(INITIAL_STATE, universe);
    EmptyStateWellFormed(st);
    assert forall id, o :: !Rests(st, id, o);
    assert Sound(EMPTY_LEDGER);
  }

  // ---------- the events of a run ----------

  /** Everything a run emits, in order; a deposit emits nothing. */
  ghost function GateEvents(maxOrderQuantity: Quantity, g: GateState, actions: seq<Action>): seq<Event>
    requires WellFormed(g.engine)
    decreases |actions|
  {
    if actions == [] then []
    else
      GateStepKeepsWellFormed(maxOrderQuantity, g, actions[0]);
      (match actions[0]
       case Deposit(_, _, _) => []
       case Submit(cmd) => GateProcess(maxOrderQuantity, g, cmd).events)
      + GateEvents(maxOrderQuantity, GateStep(maxOrderQuantity, g, actions[0]), actions[1..])
  }

  /** Commands the gate turns away are invisible to subscribers, and the others are followed. */
  lemma GateKeepsUp(maxOrderQuantity: Quantity, g: GateState, depths: Depths, cmd: Command, n: nat, clock: nat -> nat)
    requires WellFormed(g.engine) && Mirrors(g.engine, depths)
    ensures Locates(g.engine)
    ensures var r := GateProcess(maxOrderQuantity, g, cmd); KeepsUp(depths, r.events, n, clock, r.state.engine)
  {
    hide WellFormed, Mirrors, KeepsUp, Process, GateVerdict;
    SubscriberKeepsUp(g.engine, depths, cmd, n, clock);
    var verdict := GateVerdict(maxOrderQuantity, g, cmd);
    if verdict != NoReason {
      RejectKeepsUp(g.engine, depths, cmd, verdict, n, clock);
    }
  }

  lemma {:induction false} GateKeepsUpOverRuns(maxOrderQuantity: Quantity, g: GateState, depths: Depths,
                                               actions: seq<Action>, n: nat, clock: nat -> nat)
    requires WellFormed(g.engine) && Mirrors(g.engine, depths)
    ensures KeepsUp(depths, GateEvents(maxOrderQuantity, g, actions), n, clock,
                    GateRun(maxOrderQuantity, g, actions).engine)
    decreases |actions|
  {
    hide WellFormed, Mirrors, KeepsUp, GateProcess, Feed;
    if actions == [] {
      NothingToFollow(g.engine, depths, n, clock);
    } else {
      GateStepKeepsWellFormed(maxOrderQuantity, g, actions[0]);
      var g1 := GateStep(maxOrderQuantity, g, actions[0]);
      var first := match actions[0]
                   case Deposit(_, _, _) => []
                   case Submit(cmd) => GateProcess(maxOrderQuantity, g, cmd).events;
      var rest := GateEvents(maxOrderQuantity, g1, actions[1..]);
      match actions[0] {
        case Deposit(_, _, _) => NothingToFollow(g.engine, depths, n, clock);
        case Submit(cmd) => GateKeepsUp(maxOrderQuantity, g, depths, cmd, n, clock);
      }
      var last := GateRun(maxOrderQuantity, g1, actions[1..]).engine;
      forall depths' | Mirrors(g1.engine, depths')
        ensures KeepsUp(depths', rest, n + |Feed(first, n, clock)|, clock, last)
      {
        GateKeepsUpOverRuns(maxOrderQuantity, g1, depths', actions[1..], n + |Feed(first, n, clock)|, clock);
      }
      KeepsUpThen(depths, first, rest, n, clock, g1.engine, last);
    }
  }

  // ---------- what anyone can rely on ----------

  /** At no time could two resting orders of one instrument trade with each other. */
  lemma NeverCrossed(maxOrderQuantity: Quantity, universe: seq<InstrumentId>, actions: seq<Action>, id: InstrumentId,
                     bid: BookOrder, ask: BookOrder)
    requires var st := GateRun(maxOrderQuantity, Opened(universe), actions).engine;
             id in st.books && bid in st.books[id].bids && ask in st.books[id].asks
    ensures bid.price < ask.price
  {
    hide GateRun, DirectorySound;
    var book := GateRun(maxOrderQuantity, Opened(universe), actions).engine.books[id];
    BestComesFirst(Buy, book.bids, bid);
    BestComesFirst(Sell, book.asks, ask);
  }

  lemma BestComesFirst(side: Side, s: seq<BookOrder>, o: BookOrder)
    requires SideOk(side, s) && o in s
    ensures !Better(side, o.price, s[0].price)
  {
    var i :| 0 <= i < |s| && s[i] == o;
  }

  /** Nobody ever has more reserved than they own, and what is reserved is what their resting orders need. */
  lemma NobodyOverdrawn(maxOrderQuantity: Quantity, universe: seq<InstrumentId>, actions: seq<Action>, a: AccountId,
                        c: Commodity)
    requires WellBehaved(maxOrderQuantity, Opened(universe), actions)
    ensures var l := GateRun(maxOrderQuantity, Opened(universe), actions).ledger;
            && 0 <= Reserved(l.accounts, a, c) <= Owned(l.accounts, a, c)
            && Reserved(l.accounts, a, c) == TotalClaim(l.holds, a, c)
  {
    hide WellFormed, DirectoryComplete, HoldsAreOrders, GateRun, WellBehaved, TotalClaim, Opened, Mirrors;
    OpenedIsSound(universe);
    SoundOverRuns(maxOrderQuantity, Opened(universe), actions);
  }

  /** The open holds are, key by key, the orders resting in the books. */
  lemma HoldsAreTheOrders(maxOrderQuantity: Quantity, universe: seq<InstrumentId>, actions: seq<Action>, k: LiveKey,
                          h: Hold)
    requires WellBehaved(maxOrderQuantity, Opened(universe), actions)
    ensures var g := GateRun(maxOrderQuantity, Opened(universe), actions);
            (k in g.ledger.holds && g.ledger.holds[k] == h)
              <==> exists id, o :: Rests(g.engine, id, o) && o.Key() == k && h == HoldFor(id, o)
  {
    hide BooksOk, Uncrossed, DirectoryComplete, Sound, GateRun, WellBehaved, Opened, Mirrors, Rests;
    OpenedIsSound(universe);
    SoundOverRuns(maxOrderQuantity, Opened(universe), actions);
    var g := GateRun(maxOrderQuantity, Opened(universe), actions);
    if k in g.ledger.holds && g.ledger.holds[k] == h {
      assert EntrySound(g.engine, k, g.engine.directory[k]);
      var o :| IsEntryOf(g.engine, k, g.engine.directory[k], o);
    }
  }

  /** All there is of a commodity is what was deposited of it. */
  lemma NothingCreatedOrLost(maxOrderQuantity: Quantity, universe: seq<InstrumentId>, actions: seq<Action>,
                             c: Commodity)
    ensures Supply(GateRun(maxOrderQuantity, Opened(universe), actions).ledger.accounts, c) == Deposited(actions, c)
  {
    hide GateRun, WellFormed;
    ConservedOverRuns(maxOrderQuantity, Opened(universe), actions, c);
  }

  /** A trader whose books hear every message published since the opening has none refused, and shows, for every
      instrument and side, the exchange's own ladder. */
  lemma TradersSeeTheExchange(maxOrderQuantity: Quantity, universe: seq<InstrumentId>, actions: seq<Action>,
                              clock: nat -> nat, id: InstrumentId, side: Side)
    ensures var g := GateRun(maxOrderQuantity, Opened(universe), actions);
            var messages := Feed(GateEvents(maxOrderQuantity, Opened(universe), actions), 1, clock);
            && Followed(map[], messages).1 == 0
            && (id in g.engine.books ==>
                  Ladder(side, BookIn(HeardAll(NoBooks(), messages), id).Levels(side))
                    == ExchangeLadder(g.engine.books[id].Orders(side)))
  {
    hide GateRun, GateEvents, Feed, Followed, Mirrors, Opened, BooksOk, Linked, Contents, InStep, Ladder, HeardAll,
         NoBooks;
    OpenedIsSound(universe);
    var g0 := Opened(universe);
    var g := GateRun(maxOrderQuantity, g0, actions);
    var messages := Feed(GateEvents(maxOrderQuantity, g0, actions), 1, clock);
    GateKeepsUpOverRuns(maxOrderQuantity, g0, map[], actions, 1, clock);
    HeardAllHolds(NoBooks(), map[], messages);
    if id in g.engine.books {
      var b := BookIn(HeardAll(NoBooks(), messages), id);
      FollowingPutsInStep(g.engine, Followed(map[], messages).0, id, b);
      DisplayedDepthIsExact(g.engine, id, b, side);
    }
  }
}
