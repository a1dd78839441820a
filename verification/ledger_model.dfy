/** Balances and reservations as a function of the event stream, and the pre-trade checks that read them. */
module LedgerModel {
  import opened ExchangeTypes

  /** What an account can own and reserve: cash, or units of one instrument. */
  datatype Commodity = Money | Units(instrumentId: InstrumentId)

  datatype Balances = Balances(
    cashTotal: int, cashReserved: int, positionTotal: map<InstrumentId, int>, positionReserved: map<InstrumentId, int>)

  const NO_BALANCES := Balances(0, 0, map[], map[])

  type Accounts = map<AccountId, Balances>

  /** One open reservation behind a resting order. */
  datatype Hold = Hold(instrumentId: InstrumentId, side: Side, limitPrice: Price, remaining: Quantity)

  datatype LedgerState = LedgerState(accounts: Accounts, holds: map<LiveKey, Hold>)

  const EMPTY_LEDGER := LedgerState(map[], map[])

  function BalancesOf(accounts: Accounts, a: AccountId): Balances {
    if a in accounts then accounts[a] else NO_BALANCES
  }

  function UnitsIn(position: map<InstrumentId, int>, id: InstrumentId): int {
    if id in position then position[id] else 0
  }

  function OwnedIn(b: Balances, c: Commodity): int {
    match c
    case Money => b.cashTotal
    case Units(id) => UnitsIn(b.positionTotal, id)
  }

  function ReservedIn(b: Balances, c: Commodity): int {
    match c
    case Money => b.cashReserved
    case Units(id) => UnitsIn(b.positionReserved, id)
  }

  function Owned(accounts: Accounts, a: AccountId, c: Commodity): int {
    OwnedIn(BalancesOf(accounts, a), c)
  }

  function Reserved(accounts: Accounts, a: AccountId, c: Commodity): int {
    ReservedIn(BalancesOf(accounts, a), c)
  }

  function Available(accounts: Accounts, a: AccountId, c: Commodity): int {
    Owned(accounts, a, c) - Reserved(accounts, a, c)
  }

  /** Moves what an account owns by `delta`. */
  function Credited(accounts: Accounts, a: AccountId, c: Commodity, delta: int): Accounts {
    var b := BalancesOf(accounts, a);
    accounts[a :=
      match c
      case Money => b.(cashTotal := b.cashTotal + delta)
      case Units(id) => b.(positionTotal := b.positionTotal[id := UnitsIn(b.positionTotal, id) + delta])]
  }

  /** Moves what an account has reserved by `delta`. */
  function Locked(accounts: Accounts, a: AccountId, c: Commodity, delta: int): Accounts {
    var b := BalancesOf(accounts, a);
    accounts[a :=
      match c
      case Money => b.(cashReserved := b.cashReserved + delta)
      case Units(id) => b.(positionReserved := b.positionReserved[id := UnitsIn(b.positionReserved, id) + delta])]
  }

  // ---------- what orders reserve ----------

  /** A buy reserves cash at its own limit; a sell reserves the units it offers. */
  function Pledge(side: Side, id: InstrumentId): Commodity {
    if side.Buy? then Money else Units(id)
  }

  function Worth(side: Side, limitPrice: Price, quantity: int): int {
    if side.Buy? then quantity * limitPrice else quantity
  }

  function OpenHold(l: LedgerState, key: LiveKey, id: InstrumentId, side: Side, limitPrice: Price,
                    quantity: Quantity): LedgerState
  {
    if quantity == 0 then l
    else LedgerState(Locked(l.accounts, key.accountId, Pledge(side, id), Worth(side, limitPrice, quantity)),
                     l.holds[key := Hold(id, side, limitPrice, quantity)])
  }

  /** The reservation freed and the hold gone. */
  function CloseHold(l: LedgerState, key: LiveKey): LedgerState
    requires key in l.holds
  {
    var h := l.holds[key];
    LedgerState(
      if h.remaining == 0 then l.accounts
      else Locked(l.accounts, key.accountId, Pledge(h.side, h.instrumentId), -Worth(h.side, h.limitPrice, h.remaining)),
      l.holds - {key})
  }

  /** A fill releases the slice's reservation at the order's own limit, and leaves what the engine reports. */
  function ShrinkHold(l: LedgerState, leg: Counterparty, side: Side, id: InstrumentId, quantity: Quantity): LedgerState {
    var key := leg.Key();
    if key !in l.holds then l
    else
      var h := l.holds[key];
      LedgerState(Locked(l.accounts, leg.accountId, Pledge(side, id), -Worth(side, h.limitPrice, quantity)),
                  if leg.remainingQuantity == 0 then l.holds - {key}
                  else l.holds[key := h.(remaining := leg.remainingQuantity)])
  }

  function SettleLeg(l: LedgerState, leg: Counterparty, side: Side, id: InstrumentId, price: Price,
                     quantity: Quantity): LedgerState
  {
    var shrunk := ShrinkHold(l, leg, side, id, quantity);
    var sign := if side.Buy? then 1 else -1;
    shrunk.(accounts := Credited(Credited(shrunk.accounts, leg.accountId, Money, -sign * (quantity * price)),
                                 leg.accountId, Units(id), sign * quantity))
  }

  // ---------- events ----------

  function Apply(l: LedgerState, ev: Event): LedgerState {
    match ev
    case OrderAccepted(_, _, a, cid, _, id, side, price, quantity, _, tif) =>
      if tif != GTC then l else OpenHold(l, LiveKey(a, cid), id, side, price, quantity)
    case OrderReplaced(_, _, a, original, cid, _, id, price, quantity) =>
      var key := LiveKey(a, original);
      if key !in l.holds then l
      else OpenHold(CloseHold(l, key), LiveKey(a, cid), id, l.holds[key].side, price, quantity)
    case OrderCancelled(_, _, a, cid, _, _) =>
      var key := LiveKey(a, cid);
      if key !in l.holds then l else CloseHold(l, key)
    case TradeExecuted(_, _, id, price, quantity, _, buyer, seller) =>
      SettleLeg(SettleLeg(l, buyer, Buy, id, price, quantity), seller, Sell, id, price, quantity)
    case OrderRejected(_, _, _, _, _, _) => l
    case BookOrderAdded(_, _, _, _, _, _) => l
    case BookOrderReduced(_, _, _, _, _, _) => l
    case BookOrderRemoved(_, _, _, _, _) => l
  }

  function ApplyAll(l: LedgerState, events: seq<Event>): LedgerState
    decreases |events|
  {
    if events == [] then l else ApplyAll(Apply(l, events[0]), events[1..])
  }

  // ---------- pre-trade checks ----------

  function CheckNew(maxOrderQuantity: Quantity, l: LedgerState, cmd: Command): RejectReason
    requires cmd.NewOrder?
  {
    if cmd.quantity > maxOrderQuantity then OrderTooLarge
    else if cmd.side.Buy? then
      if Available(l.accounts, cmd.accountId, Money) < cmd.quantity * cmd.price then InsufficientFunds else NoReason
    else if Available(l.accounts, cmd.accountId, Units(cmd.instrumentId)) < cmd.quantity then InsufficientPosition
    else NoReason
  }

  /** A replace is charged only for what it needs beyond what the original order already reserves. */
  function CheckReplace(maxOrderQuantity: Quantity, l: LedgerState, cmd: Command): RejectReason
    requires cmd.ReplaceOrder?
  {
    var key := LiveKey(cmd.accountId, cmd.originalClientOrderId);
    if cmd.newQuantity > maxOrderQuantity then OrderTooLarge
    else if key !in l.holds || l.holds[key].instrumentId != cmd.instrumentId then NoReason
    else
      var h := l.holds[key];
      if h.side.Buy? then
        var extra := cmd.newQuantity * cmd.newPrice - h.remaining * h.limitPrice;
        if Available(l.accounts, cmd.accountId, Money) < (if extra > 0 then extra else 0) then InsufficientFunds
        else NoReason
      else
        var extra := if cmd.newQuantity > h.remaining then cmd.newQuantity - h.remaining else 0;
        if Available(l.accounts, cmd.accountId, Units(cmd.instrumentId)) < extra then InsufficientPosition
        else NoReason
  }
}
