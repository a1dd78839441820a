/** The ledger and the risk-gated engine as they run: balances and holds updated in place by each event. */
module Ledgers {
  import opened ExchangeTypes
  import opened MatchingModel
  import opened MatchingInvariants
  import opened MatchingTheorems
  import opened CommandTheorems
  import opened LedgerModel
  import opened GateModel
  import opened MatchingEngines

  class Ledger {
    var accounts: Accounts
    var holds: map<LiveKey, Hold>

    constructor ()
      ensures State() == EMPTY_LEDGER
    {
      accounts, holds := map[], map[];
    }

    ghost function State(): LedgerState
      reads this
    {
      LedgerState(accounts, holds)
    }

    method DepositCash(a: AccountId, amount: int)
      modifies this
      ensures State() == Seeded(old(State()), a, Money, amount)
    {
      var b := if a in accounts then accounts[a] else NO_BALANCES;
      accounts := accounts[a := b.(cashTotal := b.cashTotal + amount)];
    }

    method DepositPosition(a: AccountId, id: InstrumentId, amount: nat)
      modifies this
      ensures State() == Seeded(old(State()), a, Units(id), amount)
    {
      var b := if a in accounts then accounts[a] else NO_BALANCES;
      var held := if id in b.positionTotal then b.positionTotal[id] else 0;
      accounts := accounts[a := b.(positionTotal := b.positionTotal[id := held + amount])];
    }

    method AvailableCash(a: AccountId) returns (cash: int)
      ensures cash == Available(accounts, a, Money)
    {
      if a !in accounts {
        return 0;
      }
      cash := accounts[a].cashTotal - accounts[a].cashReserved;
    }

    method AvailablePosition(a: AccountId, id: InstrumentId) returns (units: int)
      ensures units == Available(accounts, a, Units(id))
    {
      if a !in accounts {
        return 0;
      }
      var b := accounts[a];
      var total := if id in b.positionTotal then b.positionTotal[id] else 0;
      var reserved := if id in b.positionReserved then b.positionReserved[id] else 0;
      units := total - reserved;
    }

    method FindHold(a: AccountId, clientOrderId: ClientOrderId) returns (hold: Option<Hold>)
      ensures hold == var key := LiveKey(a, clientOrderId); if key in holds then Some(holds[key]) else None
    {
      if LiveKey(a, clientOrderId) !in holds {
        return None;
      }
      hold := Some(holds[LiveKey(a, clientOrderId)]);
    }

    /** Moves what is reserved on one side of an account. */
    method MoveReserved(a: AccountId, side: Side, id: InstrumentId, delta: int)
      modifies this`accounts
      ensures accounts == Locked(old(accounts), a, Pledge(side, id), delta)
    {
      var b := if a in accounts then accounts[a] else NO_BALANCES;
      if side.Buy? {
        b := b.(cashReserved := b.cashReserved + delta);
      } else {
        var reserved := if id in b.positionReserved then b.positionReserved[id] else 0;
        b := b.(positionReserved := b.positionReserved[id := reserved + delta]);
      }
      accounts := accounts[a := b];
    }

    method OpenHoldFor(key: LiveKey, id: InstrumentId, side: Side, limitPrice: Price, quantity: Quantity)
      modifies this
      ensures State() == OpenHold(old(State()), key, id, side, limitPrice, quantity)
    {
      if quantity == 0 {
        return;
      }
      MoveReserved(key.accountId, side, id, if side.Buy? then quantity * limitPrice else quantity);
      holds := holds[key := Hold(id, side, limitPrice, quantity)];
    }

    /** release_hold_fully, and the hold erased. */
    method ReleaseHold(key: LiveKey)
      requires key in holds
      modifies this
      ensures State() == CloseHold(old(State()), key)
    {
      var hold := holds[key];
      if hold.remaining != 0 {
        MoveReserved(key.accountId, hold.side, hold.instrumentId,
                     if hold.side.Buy? then -(hold.remaining * hold.limitPrice) else 0 - hold.remaining);
      }
      holds := holds - {key};
    }

    method SettleOneLeg(leg: Counterparty, side: Side, id: InstrumentId, price: Price, quantity: Quantity)
      modifies this
      ensures State() == SettleLeg(old(State()), leg, side, id, price, quantity)
    {
      if leg.Key() in holds {
        var hold := holds[leg.Key()];
        MoveReserved(leg.accountId, side, id, if side.Buy? then -(quantity * hold.limitPrice) else 0 - quantity);
        holds := holds[leg.Key() := hold.(remaining := leg.remainingQuantity)];
        if leg.remainingQuantity == 0 {
          holds := holds - {leg.Key()};
          assert holds == old(holds) - {leg.Key()};
        }
      }
      assert State() == ShrinkHold(old(State()), leg, side, id, quantity);
      MoveTotals(leg.accountId, side, id, price, quantity);
    }

    /** Settlement proper: cash one way, units the other. */
    method MoveTotals(a: AccountId, side: Side, id: InstrumentId, price: Price, quantity: Quantity)
      modifies this`accounts
      ensures var sign := if side.Buy? then 1 else -1;
              accounts == Credited(Credited(old(accounts), a, Money, -sign * (quantity * price)), a, Units(id),
                                   sign * quantity)
    {
      var b := if a in accounts then accounts[a] else NO_BALANCES;
      var total := if id in b.positionTotal then b.positionTotal[id] else 0;
      var paid := quantity * price;
      if side.Buy? {
        b := b.(cashTotal := b.cashTotal - paid, positionTotal := b.positionTotal[id := total + quantity]);
      } else {
        b := b.(cashTotal := b.cashTotal + paid, positionTotal := b.positionTotal[id := total - quantity]);
      }
      accounts := accounts[a := b];
      CreditedTwice(old(accounts), a, id, if side.Buy? then -paid else paid, if side.Buy? then quantity else 0 - quantity);
    }

    lemma CreditedTwice(before: Accounts, a: AccountId, id: InstrumentId, cash: int, units: int)
      ensures var b := BalancesOf(before, a);
              Credited(Credited(before, a, Money, cash), a, Units(id), units)
                == before[a := b.(cashTotal := b.cashTotal + cash,
                                  positionTotal := b.positionTotal[id := UnitsIn(b.positionTotal, id) + units])]
    {
    }

    /** The one way an event changes a balance. */
    method Observe(ev: Event)
      modifies this
      ensures State() == Apply(old(State()), ev)
    {
      match ev {
        case OrderAccepted(_, _, a, cid, _, id, side, price, quantity, _, tif) =>
          if tif == GTC {
            OpenHoldFor(LiveKey(a, cid), id, side, price, quantity);
          }
        case OrderReplaced(_, _, a, original, cid, _, id, price, quantity) =>
          if LiveKey(a, original) in holds {
            var side := holds[LiveKey(a, original)].side;
            ReleaseHold(LiveKey(a, original));
            OpenHoldFor(LiveKey(a, cid), id, side, price, quantity);
          }
        case OrderCancelled(_, _, a, cid, _, _) =>
          if LiveKey(a, cid) in holds {
            ReleaseHold(LiveKey(a, cid));
          }
        case TradeExecuted(_, _, id, price, quantity, _, buyer, seller) =>
          SettleOneLeg(buyer, Buy, id, price, quantity);
          SettleOneLeg(seller, Sell, id, price, quantity);
        case _ =>
      }
    }
  }

  /** Check, match, settle: the composition that drives an engine and a ledger it does not own. */
  class RiskGatedEngine {
    const engine: MatchingEngine
    const ledger: Ledger
    const maxOrderQuantity: Quantity

    constructor (engine: MatchingEngine, ledger: Ledger, maxOrderQuantity: Quantity)
      ensures this.engine == engine && this.ledger == ledger && this.maxOrderQuantity == maxOrderQuantity
    {
      this.engine, this.ledger, this.maxOrderQuantity := engine, ledger, maxOrderQuantity;
    }

    ghost predicate Valid()
      reads this, engine, engine.Repr, ledger
    {
      engine.Valid() && ledger !in engine.Repr && this !in engine.Repr
    }

    ghost function State(): GateState
      reads engine, ledger
    {
      GateState(engine.State, ledger.State())
    }

    method CheckNewOrder(cmd: Command) returns (reason: RejectReason)
      requires cmd.NewOrder?
      ensures reason == CheckNew(maxOrderQuantity, ledger.State(), cmd)
    {
      if cmd.quantity > maxOrderQuantity {
        return OrderTooLarge;
      }
      if cmd.side.Buy? {
        var cash := ledger.AvailableCash(cmd.accountId);
        if cash < cmd.quantity * cmd.price {
          return InsufficientFunds;
        }
      } else {
        var units := ledger.AvailablePosition(cmd.accountId, cmd.instrumentId);
        if units < cmd.quantity {
          return InsufficientPosition;
        }
      }
      reason := NoReason;
    }

    method CheckReplacement(cmd: Command) returns (reason: RejectReason)
      requires cmd.ReplaceOrder?
      ensures reason == CheckReplace(maxOrderQuantity, ledger.State(), cmd)
    {
      if cmd.newQuantity > maxOrderQuantity {
        return OrderTooLarge;
      }
      var hold := ledger.FindHold(cmd.accountId, cmd.originalClientOrderId);
      if hold.None? || hold.value.instrumentId != cmd.instrumentId {
        return NoReason;
      }
      if hold.value.side.Buy? {
        var oldRequired := hold.value.remaining * hold.value.limitPrice;
        var newRequired := cmd.newQuantity * cmd.newPrice;
        var extra := if newRequired - oldRequired > 0 then newRequired - oldRequired else 0;
        var cash := ledger.AvailableCash(cmd.accountId);
        if cash < extra {
          return InsufficientFunds;
        }
      } else {
        var extra := if cmd.newQuantity > hold.value.remaining then cmd.newQuantity - hold.value.remaining else 0;
        var units := ledger.AvailablePosition(cmd.accountId, cmd.instrumentId);
        if units < extra {
          return InsufficientPosition;
        }
      }
      reason := NoReason;
    }

    method Vet(cmd: Command) returns (reason: RejectReason)
      requires Valid()
      ensures reason == GateVerdict(maxOrderQuantity, State(), cmd)
    {
      hide CheckNew, CheckReplace, WellFormed, MatchingEngine.Synced, MatchingEngine.ByIdOk;
      engine.SyncedKnows(cmd.instrumentId);
      match cmd {
        case NewOrder(_, _, _, _, _, _, _, _, _) =>
          if !engine.KnowsInstrument(cmd.instrumentId) {
            return InvalidInstrument;
          }
          reason := CheckNewOrder(cmd);
        case ReplaceOrder(_, _, _, _, _, _, _) =>
          if !engine.KnowsInstrument(cmd.instrumentId) {
            return InvalidInstrument;
          }
          reason := CheckReplacement(cmd);
        case CancelOrder(_, _, _, _) =>
          reason := NoReason;
      }
    }

    method ObserveAll(events: seq<Event>)
      modifies ledger
      ensures ledger.State() == ApplyAll(old(ledger.State()), events)
    {
      assert events[0..] == events;
      for i := 0 to |events|
        invariant ApplyAll(ledger.State(), events[i..]) == ApplyAll(old(ledger.State()), events)
      {
        assert events[i..][0] == events[i] && events[i..][1..] == events[i + 1..];
        ledger.Observe(events[i]);
      }
    }

    method Handle(cmd: Command) returns (events: seq<Event>)
      requires Valid()
      modifies engine.Repr, ledger
      ensures Valid() && fresh(engine.Repr - old(engine.Repr))
      ensures Locates(old(engine.State))
      ensures GateResult(State(), events) == GateProcess(maxOrderQuantity, old(State()), cmd)
    {
      hide WellFormed, MatchingEngine.Synced, MatchingEngine.ByIdOk, GateVerdict, Process, RejectCommand, Locates,
           ApplyAll;
      LocatesFrom(engine.State);
      var reason := Vet(cmd);
      if reason != NoReason {
        events := engine.EmitReject(cmd, reason);
      } else {
        events := engine.Handle(cmd);
      }
      ObserveAll(events);
    }
  }
}
