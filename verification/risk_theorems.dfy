/** What the pre-trade checks promise: no order above the limit is ever accepted or rests, an order that can be paid
    for is let through, and a refusal names the first thing that was wrong. */
module RiskTheorems {
  import opened ExchangeTypes
  import opened MatchingModel
  import opened MatchingInvariants
  import opened MatchingTheorems
  import opened CommandTheorems
  import opened AdmissionTheorems
  import opened LedgerModel
  import opened LedgerTheorems
  import opened GateModel
  import opened GateTheorems
  import opened ExchangeRuns

  // ---------- what is turned away, and what is let through ----------

  /** The gate said no: one rejection under this client id, and books, directory and ledger as they were. */
  predicate TurnedAway(g: GateState, r: GateResult, cmd: Command, clientOrderId: ClientOrderId, reason: RejectReason) {
    && Refused(g.engine, StepResult(r.state.engine, r.events), cmd, clientOrderId, reason)
    && r.state.ledger == g.ledger
  }

  /** The gate said nothing: the engine answered the command itself, and the ledger heard its events. */
  predicate LetThrough(g: GateState, r: GateResult, cmd: Command)
    requires Locates(g.engine)
  {
    && StepResult(r.state.engine, r.events) == Process(g.engine, cmd)
    && r.state.ledger == ApplyAll(g.ledger, r.events)
  }

  lemma RejectionLeavesLedger(l: LedgerState, events: seq<Event>)
    requires |events| == 1 && events[0].OrderRejected?
    ensures ApplyAll(l, events) == l
  {
    assert events[1..] == [];
  }

  /** A new order is stopped at the first of: unknown instrument, quantity over the limit, money short of its worth at
      its limit price (a buy), units short of its quantity (a sell). Nothing else stops it. */
  lemma NewOrderAtTheGate(maxOrderQuantity: Quantity, g: GateState, cmd: Command)
    requires Locates(g.engine) && cmd.NewOrder?
    ensures var r := GateProcess(maxOrderQuantity, g, cmd); var cid := cmd.clientOrderId; var a := cmd.accountId;
            var accounts := g.ledger.accounts;
            if cmd.instrumentId !in g.engine.books then TurnedAway(g, r, cmd, cid, InvalidInstrument)
            else if cmd.quantity > maxOrderQuantity then TurnedAway(g, r, cmd, cid, OrderTooLarge)
            else if cmd.side == Buy && cmd.quantity * cmd.price > Available(accounts, a, Money)
            then TurnedAway(g, r, cmd, cid, InsufficientFunds)
            else if cmd.side == Sell && cmd.quantity > Available(accounts, a, Units(cmd.instrumentId))
            then TurnedAway(g, r, cmd, cid, InsufficientPosition)
            else LetThrough(g, r, cmd)
  {
    hide Process, Available, ApplyAll, Locates;
    var r := GateProcess(maxOrderQuantity, g, cmd);
    if |r.events| == 1 && r.events[0].OrderRejected? {
      RejectionLeavesLedger(g.ledger, r.events);
    }
  }

  /** Opening the order's hold would leave its account with something available, or exactly nothing. */
  predicate Reservable(l: LedgerState, key: LiveKey, id: InstrumentId, side: Side, price: Price, quantity: Quantity) {
    Available(OpenHold(l, key, id, side, price, quantity).accounts, key.accountId, Pledge(side, id)) >= 0
  }

  /** What is let through is what is affordable: the account could reserve for the whole order. */
  lemma LetThroughExactly(maxOrderQuantity: Quantity, g: GateState, cmd: Command)
    requires Locates(g.engine) && cmd.NewOrder? && cmd.quantity > 0 && cmd.instrumentId in g.engine.books
    ensures var r := GateProcess(maxOrderQuantity, g, cmd);
            var key := LiveKey(cmd.accountId, cmd.clientOrderId);
            && (&& cmd.quantity <= maxOrderQuantity
                && Reservable(g.ledger, key, cmd.instrumentId, cmd.side, cmd.price, cmd.quantity)
                ==> LetThrough(g, r, cmd))
            && (cmd.quantity <= maxOrderQuantity
                && !Reservable(g.ledger, key, cmd.instrumentId, cmd.side, cmd.price, cmd.quantity)
                ==> TurnedAway(g, r, cmd, cmd.clientOrderId,
                               if cmd.side == Buy then InsufficientFunds else InsufficientPosition))
  {
    hide GateProcess, LetThrough, TurnedAway, Locates, Locked, Owned, Reserved;
    NewOrderAtTheGate(maxOrderQuantity, g, cmd);
    var c := Pledge(cmd.side, cmd.instrumentId);
    LockedReads(g.ledger.accounts, cmd.accountId, c, Worth(cmd.side, cmd.price, cmd.quantity), cmd.accountId, c);
  }

  /** What the exchange accepts, gate and engine together: an order the engine can take, within the limit, that its
      account can reserve for. */
  lemma AcceptedExactly(maxOrderQuantity: Quantity, g: GateState, cmd: Command)
    requires BooksOk(g.engine) && Locates(g.engine) && cmd.NewOrder?
    ensures var events := GateProcess(maxOrderQuantity, g, cmd).events;
            var key := LiveKey(cmd.accountId, cmd.clientOrderId);
            (events != [] && events[0].OrderAccepted?)
            <==> (&& Acceptable(g.engine, cmd)
                  && cmd.quantity <= maxOrderQuantity
                  && Reservable(g.ledger, key, cmd.instrumentId, cmd.side, cmd.price, cmd.quantity))
  {
    hide GateProcess, BooksOk, Locates, Reservable, ProcessNewOrder, Reach, ApplyAll;
    NewOrderAtTheGate(maxOrderQuantity, g, cmd);
    NewOrderAccepted(g.engine, cmd);
    if cmd.quantity > 0 && cmd.instrumentId in g.engine.books {
      LetThroughExactly(maxOrderQuantity, g, cmd);
    }
  }

  /** The order the replace names has an open hold on the instrument the replace names. */
  predicate HoldNamed(l: LedgerState, cmd: Command)
    requires cmd.ReplaceOrder?
  {
    var key := LiveKey(cmd.accountId, cmd.originalClientOrderId);
    key in l.holds && l.holds[key].instrumentId == cmd.instrumentId
  }

  /** What the new terms lock beyond what the order's hold locks already; negative when they need less. */
  function FurtherNeed(h: Hold, cmd: Command): int
    requires cmd.ReplaceOrder?
  {
    Worth(h.side, cmd.newPrice, cmd.newQuantity) - Worth(h.side, h.limitPrice, h.remaining)
  }

  /** A replace is stopped at the first of: unknown instrument, quantity over the limit, too little available for what
      it needs beyond the hold of the order it names. One that names no hold has nothing to be measured against, and
      goes to the engine. */
  lemma ReplaceAtTheGate(maxOrderQuantity: Quantity, g: GateState, cmd: Command)
    requires Locates(g.engine) && cmd.ReplaceOrder?
    ensures var r := GateProcess(maxOrderQuantity, g, cmd); var cid := cmd.originalClientOrderId;
            if cmd.instrumentId !in g.engine.books then TurnedAway(g, r, cmd, cid, InvalidInstrument)
            else if cmd.newQuantity > maxOrderQuantity then TurnedAway(g, r, cmd, cid, OrderTooLarge)
            else if !HoldNamed(g.ledger, cmd) then LetThrough(g, r, cmd)
            else
              var h := g.ledger.holds[LiveKey(cmd.accountId, cid)];
              var available := Available(g.ledger.accounts, cmd.accountId, Pledge(h.side, cmd.instrumentId));
              if 0 <= available && FurtherNeed(h, cmd) <= available then LetThrough(g, r, cmd)
              else TurnedAway(g, r, cmd, cid, if h.side == Buy then InsufficientFunds else InsufficientPosition)
  {
    hide Process, Available, ApplyAll, Locates;
    var r := GateProcess(maxOrderQuantity, g, cmd);
    if |r.events| == 1 && r.events[0].OrderRejected? {
      RejectionLeavesLedger(g.ledger, r.events);
    }
  }

  /** For an account that is not overdrawn, a replace is let through exactly when the new terms are affordable once the
      old hold is given back. */
  lemma ReplaceLetThroughExactly(maxOrderQuantity: Quantity, g: GateState, cmd: Command)
    requires Locates(g.engine) && Solvent(g.ledger) && cmd.ReplaceOrder? && cmd.instrumentId in g.engine.books
    requires 0 < cmd.newQuantity <= maxOrderQuantity && HoldNamed(g.ledger, cmd)
    ensures var r := GateProcess(maxOrderQuantity, g, cmd);
            var key := LiveKey(cmd.accountId, cmd.originalClientOrderId);
            var key' := LiveKey(cmd.accountId, cmd.newClientOrderId);
            var side := g.ledger.holds[key].side;
            if Reservable(CloseHold(g.ledger, key), key', cmd.instrumentId, side, cmd.newPrice, cmd.newQuantity)
            then LetThrough(g, r, cmd)
            else TurnedAway(g, r, cmd, cmd.originalClientOrderId,
                            if side == Buy then InsufficientFunds else InsufficientPosition)
  {
    hide GateProcess, LetThrough, TurnedAway, Locates, Locked, Owned, Reserved, Worth;
    ReplaceAtTheGate(maxOrderQuantity, g, cmd);
    var a, key := cmd.accountId, LiveKey(cmd.accountId, cmd.originalClientOrderId);
    var h := g.ledger.holds[key];
    var c := Pledge(h.side, cmd.instrumentId);
    NothingWorthNothing(h.side, h.limitPrice);
    LockedReads(g.ledger.accounts, a, c, -Worth(h.side, h.limitPrice, h.remaining), a, c);
    LockedReads(CloseHold(g.ledger, key).accounts, a, c, Worth(h.side, cmd.newPrice, cmd.newQuantity), a, c);
  }

  lemma NothingWorthNothing(side: Side, price: Price)
    ensures Worth(side, price, 0) == 0
  {
  }

  /** A cancel is never stopped. */
  lemma CancelAtTheGate(maxOrderQuantity: Quantity, g: GateState, cmd: Command)
    requires Locates(g.engine) && cmd.CancelOrder?
    ensures LetThrough(g, GateProcess(maxOrderQuantity, g, cmd), cmd)
  {
  }

  // ---------- the limit ----------

  /** What this event admits, if it admits an order, is within the limit. */
  predicate AdmitsWithin(maxOrderQuantity: Quantity, ev: Event) {
    && (ev.OrderAccepted? ==> ev.quantity <= maxOrderQuantity)
    && (ev.OrderReplaced? ==> ev.newQuantity <= maxOrderQuantity)
  }

  predicate AllAdmitWithin(maxOrderQuantity: Quantity, events: seq<Event>) {
    forall i :: 0 <= i < |events| ==> AdmitsWithin(maxOrderQuantity, events[i])
  }

  /** No order rests with more than the limit. */
  ghost predicate RestsWithin(maxOrderQuantity: Quantity, st: EngineState) {
    forall id, o :: Rests(st, id, o) ==> o.remainingQuantity <= maxOrderQuantity
  }

  lemma {:induction false} MatchAdmitsNothing(maxOrderQuantity: Quantity, st: EngineState, incoming: RestingOrder, c: nat)
    requires incoming.instrumentId in st.books
    ensures AllAdmitWithin(maxOrderQuantity, MatchLoop(st, incoming, c).events)
    decreases |Contra(st, incoming)|, incoming.remainingQuantity
  {
    if CanFill(st, incoming) {
      var one := FillOnce(st, incoming, c);
      MatchAdmitsNothing(maxOrderQuantity, one.state, one.incoming, c);
    }
  }

  lemma PassAdmitsNothing(maxOrderQuantity: Quantity, st: EngineState, order: RestingOrder, c: nat)
    requires order.instrumentId in st.books
    ensures AllAdmitWithin(maxOrderQuantity, MatchAndRest(st, order, c).events)
  {
    hide MatchLoop;
    MatchAdmitsNothing(maxOrderQuantity, st, order, c);
  }

  lemma {:induction false} MatchRestsWithin(maxOrderQuantity: Quantity, st: EngineState, incoming: RestingOrder, c: nat)
    requires BooksOk(st) && incoming.instrumentId in st.books && RestsWithin(maxOrderQuantity, st)
    ensures RestsWithin(maxOrderQuantity, MatchLoop(st, incoming, c).state)
    decreases |Contra(st, incoming)|, incoming.remainingQuantity
  {
    hide SideOk, Rests;
    if CanFill(st, incoming) {
      FillOnceRests(st, incoming, c);
      FrontRests(st, incoming);
      var one := FillOnce(st, incoming, c);
      assert RestsWithin(maxOrderQuantity, one.state);
      MatchRestsWithin(maxOrderQuantity, one.state, one.incoming, c);
    }
  }

  lemma PassRestsWithin(maxOrderQuantity: Quantity, st: EngineState, order: RestingOrder, c: nat)
    requires WellFormed(st) && FreshlyIssued(st, order) && RestsWithin(maxOrderQuantity, st)
    requires order.remainingQuantity <= maxOrderQuantity
    ensures RestsWithin(maxOrderQuantity, MatchAndRest(st, order, c).state)
  {
    hide MatchLoop, SideOk, DirectorySound, Uncrossed, Rests;
    MatchRestsWithin(maxOrderQuantity, st, order, c);
    MatchKeeps(st, order, c);
    MatchKeepsFresh(st, order, c);
    MatchOnlyLessens(st, order, c);
    var m := MatchLoop(st, order, c);
    if WillRest(m.incoming) {
      RestRests(m.state, m.incoming);
    }
  }

  lemma MatchOnlyLessens(st: EngineState, order: RestingOrder, c: nat)
    requires BooksOk(st) && order.instrumentId in st.books
    ensures MatchLoop(st, order, c).incoming.remainingQuantity <= order.remainingQuantity
  {
    hide MatchLoop, TradesOf, CrossableTotal, BooksOk;
    MatchTakes(st, order, c);
  }

  // ---------- commands and the limit ----------

  lemma NewOrderWithin(maxOrderQuantity: Quantity, st: EngineState, cmd: Command)
    requires WellFormed(st) && Locates(st) && cmd.NewOrder? && cmd.quantity <= maxOrderQuantity
    ensures var r := ProcessNewOrder(st, cmd);
            && AllAdmitWithin(maxOrderQuantity, r.events)
            && (RestsWithin(maxOrderQuantity, st) ==> RestsWithin(maxOrderQuantity, r.state))
  {
    hide MatchAndRest, SideOk, DirectorySound, Uncrossed, Rests, CrossableQuantity;
    var r := ProcessNewOrder(st, cmd);
    if NewOrderVerdict(st, cmd) == NoReason {
      var start, order := AfterAcceptance(st), AcceptedOrder(st, cmd);
      NewOrderStart(st, cmd);
      PassAdmitsNothing(maxOrderQuantity, start, order, cmd.commandSequence);
      if RestsWithin(maxOrderQuantity, st) {
        AcceptanceKeeps(st);
        PassRestsWithin(maxOrderQuantity, start, order, cmd.commandSequence);
      }
    } else {
      SameBooksRestWithin(maxOrderQuantity, st, r.state);
    }
  }

  lemma SameBooksRestWithin(maxOrderQuantity: Quantity, st: EngineState, st': EngineState)
    requires st'.books == st.books
    ensures RestsWithin(maxOrderQuantity, st) ==> RestsWithin(maxOrderQuantity, st')
  {
    assert forall id, o :: Rests(st', id, o) <==> Rests(st, id, o);
  }

  lemma CancelWithin(maxOrderQuantity: Quantity, st: EngineState, cmd: Command)
    requires WellFormed(st) && Locates(st) && cmd.CancelOrder?
    ensures var r := ProcessCancel(st, cmd);
            && AllAdmitWithin(maxOrderQuantity, r.events)
            && (RestsWithin(maxOrderQuantity, st) ==> RestsWithin(maxOrderQuantity, r.state))
  {
    hide WellFormed, Rests, Locates;
    var r := ProcessCancel(st, cmd);
    if CancelVerdict(st, cmd) == NoReason {
      var o := WithdrawalRests(st, r.state, LiveKey(cmd.accountId, cmd.clientOrderId));
    } else {
      SameBooksRestWithin(maxOrderQuantity, st, r.state);
    }
  }

  lemma ReplaceWithin(maxOrderQuantity: Quantity, st: EngineState, cmd: Command)
    requires WellFormed(st) && Locates(st) && cmd.ReplaceOrder? && cmd.newQuantity <= maxOrderQuantity
    ensures var r := ProcessReplace(st, cmd);
            && AllAdmitWithin(maxOrderQuantity, r.events)
            && (RestsWithin(maxOrderQuantity, st) ==> RestsWithin(maxOrderQuantity, r.state))
  {
    hide WellFormed, MatchAndRest, Rests, Locates;
    var r := ProcessReplace(st, cmd);
    if ReplaceVerdict(st, cmd) != NoReason {
      SameBooksRestWithin(maxOrderQuantity, st, r.state);
    } else if PreservesPriority(st, cmd) {
      ReplaceInPlaceRests(st, cmd);
    } else {
      var start, order := AfterWithdrawal(st, cmd), ReplacementOrder(st, cmd);
      ReentryStart(st, cmd);
      PassAdmitsNothing(maxOrderQuantity, start, order, cmd.commandSequence);
      if RestsWithin(maxOrderQuantity, st) {
        var o := WithdrawalRests(st, start, LiveKey(cmd.accountId, cmd.originalClientOrderId));
        PassRestsWithin(maxOrderQuantity, start, order, cmd.commandSequence);
      }
    }
  }

  /** Behind the gate no command admits an order above the limit, and no order comes to rest above it. */
  lemma GateKeepsTheLimit(maxOrderQuantity: Quantity, g: GateState, cmd: Command)
    requires WellFormed(g.engine)
    ensures Locates(g.engine)
    ensures var r := GateProcess(maxOrderQuantity, g, cmd);
            && AllAdmitWithin(maxOrderQuantity, r.events)
            && (RestsWithin(maxOrderQuantity, g.engine) ==> RestsWithin(maxOrderQuantity, r.state.engine))
  {
    hide WellFormed, ProcessNewOrder, ProcessCancel, ProcessReplace, RestsWithin, ApplyAll, Available, Locates;
    LocatesFrom(g.engine);
    var r := GateProcess(maxOrderQuantity, g, cmd);
    if GateVerdict(maxOrderQuantity, g, cmd) != NoReason {
      SameBooksRestWithin(maxOrderQuantity, g.engine, r.state.engine);
    } else {
      match cmd
      case NewOrder(_, _, _, _, _, _, _, _, _) => NewOrderWithin(maxOrderQuantity, g.engine, cmd);
      case CancelOrder(_, _, _, _) => CancelWithin(maxOrderQuantity, g.engine, cmd);
      case ReplaceOrder(_, _, _, _, _, _, _) => ReplaceWithin(maxOrderQuantity, g.engine, cmd);
    }
  }

  lemma {:induction false} LimitKeptOverRuns(maxOrderQuantity: Quantity, g: GateState, actions: seq<Action>)
    requires WellFormed(g.engine) && RestsWithin(maxOrderQuantity, g.engine)
    ensures AllAdmitWithin(maxOrderQuantity, GateEvents(maxOrderQuantity, g, actions))
    ensures RestsWithin(maxOrderQuantity, GateRun(maxOrderQuantity, g, actions).engine)
    decreases |actions|
  {
    hide WellFormed, RestsWithin, GateProcess;
    if actions != [] {
      GateStepKeepsWellFormed(maxOrderQuantity, g, actions[0]);
      if actions[0].Submit? {
        GateKeepsTheLimit(maxOrderQuantity, g, actions[0].command);
      }
      LimitKeptOverRuns(maxOrderQuantity, GateStep(maxOrderQuantity, g, actions[0]), actions[1..]);
    }
  }

  /** From opening on, nothing above the limit is ever accepted, and no order ever rests above it. */
  lemma LimitKeptFromOpening(maxOrderQuantity: Quantity, universe: seq<InstrumentId>, actions: seq<Action>)
    ensures forall ev :: ev in GateEvents(maxOrderQuantity, Opened(universe), actions) ==>
              && (ev.OrderAccepted? ==> ev.quantity <= maxOrderQuantity)
              && (ev.OrderReplaced? ==> ev.newQuantity <= maxOrderQuantity)
    ensures forall id, o :: Rests(GateRun(maxOrderQuantity, Opened(universe), actions).engine, id, o)
              ==> o.remainingQuantity <= maxOrderQuantity
  {
    hide WellFormed, GateRun, GateEvents;
    NothingRestsAtOpening(INITIAL_STATE, universe);
    LimitKeptOverRuns(maxOrderQuantity, Opened(universe), actions);
  }
}
