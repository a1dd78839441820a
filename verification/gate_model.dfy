/** The risk-gated engine as a function of engine and ledger state: check, match, and feed every event to the
    ledger. */
module GateModel {
  import opened ExchangeTypes
  import opened MatchingModel
  import opened MatchingInvariants
  import opened MatchingTheorems
  import opened CommandTheorems
  import opened LedgerModel

  datatype GateState = GateState(engine: EngineState, ledger: LedgerState)

  datatype GateResult = GateResult(state: GateState, events: seq<Event>)

  /** The checks made before the engine sees a command; cancels are never checked. */
  function GateVerdict(maxOrderQuantity: Quantity, g: GateState, cmd: Command): RejectReason {
    match cmd
    case NewOrder(_, _, _, id, _, _, _, _, _) =>
      if !g.engine.Knows(id) then InvalidInstrument else CheckNew(maxOrderQuantity, g.ledger, cmd)
    case ReplaceOrder(_, _, _, _, id, _, _) =>
      if !g.engine.Knows(id) then InvalidInstrument else CheckReplace(maxOrderQuantity, g.ledger, cmd)
    case CancelOrder(_, _, _, _) => NoReason
  }

  function GateProcess(maxOrderQuantity: Quantity, g: GateState, cmd: Command): GateResult
    requires Locates(g.engine)
  {
    var verdict := GateVerdict(maxOrderQuantity, g, cmd);
    var r := if verdict != NoReason then RejectCommand(g.engine, cmd, verdict) else Process(g.engine, cmd);
    GateResult(GateState(r.state, ApplyAll(g.ledger, r.events)), r.events)
  }

  // ---------- holds and resting orders ----------

  function HoldFor(id: InstrumentId, o: BookOrder): Hold {
    Hold(id, o.side, o.price, o.remainingQuantity)
  }

  /** Every resting order is backed by a hold of its own instrument, side, limit and remaining quantity. */
  ghost predicate RestingBacked(st: EngineState, l: LedgerState) {
    forall id, o :: Rests(st, id, o) ==> o.Key() in l.holds && l.holds[o.Key()] == HoldFor(id, o)
  }

  /** The holds are exactly the resting orders. */
  ghost predicate HoldsAreOrders(st: EngineState, l: LedgerState) {
    RestingBacked(st, l) && forall k :: k in l.holds ==> k in st.directory
  }

  // ---------- runs ----------

  /** What happens to an exchange from outside: seeding of balances, and commands. */
  datatype Action =
    | Deposit(accountId: AccountId, commodity: Commodity, amount: int)
    | Submit(command: Command)

  function Seeded(l: LedgerState, a: AccountId, c: Commodity, amount: int): LedgerState {
    l.(accounts := Credited(l.accounts, a, c, amount))
  }

  function GateStep(maxOrderQuantity: Quantity, g: GateState, action: Action): GateState
    requires Locates(g.engine)
  {
    match action
    case Deposit(a, c, amount) => g.(ledger := Seeded(g.ledger, a, c, amount))
    case Submit(cmd) => GateProcess(maxOrderQuantity, g, cmd).state
  }

  lemma GateStepKeepsWellFormed(maxOrderQuantity: Quantity, g: GateState, action: Action)
    requires WellFormed(g.engine)
    ensures Locates(g.engine) && WellFormed(GateStep(maxOrderQuantity, g, action).engine)
  {
    hide WellFormed, GateVerdict, Process;
    if action.Submit? {
      ProcessKeeps(g.engine, action.command);
      if GateVerdict(maxOrderQuantity, g, action.command) != NoReason {
        CountersKeep(g.engine, GateStep(maxOrderQuantity, g, action).engine);
      }
    } else {
      LocatesFrom(g.engine);
    }
  }

  lemma LocatesFrom(st: EngineState)
    requires WellFormed(st)
    ensures Locates(st)
  {
    SoundMeansLocates(st);
  }

  ghost function GateRun(maxOrderQuantity: Quantity, g: GateState, actions: seq<Action>): (g': GateState)
    requires WellFormed(g.engine)
    ensures WellFormed(g'.engine)
    decreases |actions|
  {
    if actions == [] then g
    else
      GateStepKeepsWellFormed(maxOrderQuantity, g, actions[0]);
      GateRun(maxOrderQuantity, GateStep(maxOrderQuantity, g, actions[0]), actions[1..])
  }

  /** All that was deposited of one commodity. */
  function Deposited(actions: seq<Action>, c: Commodity): int {
    if actions == [] then 0
    else
      (if actions[0].Deposit? && actions[0].commodity == c then actions[0].amount else 0)
      + Deposited(actions[1..], c)
  }
}
