/** What the ledger keeps, event by event: reservations are the sum of the open holds, trades conserve every
    commodity, and a fill backed by a hold never lowers what is available. */
module LedgerTheorems {
  import opened ExchangeTypes
  import opened LedgerModel

  // ---------- sums over holds ----------

  /** How much of commodity c the hold under `key` locks for account a. */
  function Claim(key: LiveKey, h: Hold, a: AccountId, c: Commodity): int {
    if key.accountId == a && c == Pledge(h.side, h.instrumentId) then Worth(h.side, h.limitPrice, h.remaining) else 0
  }

  ghost function TotalClaim(holds: map<LiveKey, Hold>, a: AccountId, c: Commodity): int
    decreases |holds|
  {
    if holds == map[] then 0
    else
      var k :| k in holds;
      Claim(k, holds[k], a, c) + TotalClaim(holds - {k}, a, c)
  }

  /** Any hold can be counted first. */
  lemma {:induction false} TotalClaimWithout(holds: map<LiveKey, Hold>, k: LiveKey, a: AccountId, c: Commodity)
    requires k in holds
    ensures TotalClaim(holds, a, c) == Claim(k, holds[k], a, c) + TotalClaim(holds - {k}, a, c)
    decreases |holds|
  {
    var x :| x in holds && TotalClaim(holds, a, c) == Claim(x, holds[x], a, c) + TotalClaim(holds - {x}, a, c);
    if x != k {
      TotalClaimWithout(holds - {x}, k, a, c);
      TotalClaimWithout(holds - {k}, x, a, c);
      assert holds - {x} - {k} == holds - {k} - {x};
    }
  }

  lemma TotalClaimWith(holds: map<LiveKey, Hold>, k: LiveKey, h: Hold, a: AccountId, c: Commodity)
    ensures TotalClaim(holds[k := h], a, c)
              == Claim(k, h, a, c) + TotalClaim(holds, a, c) - if k in holds then Claim(k, holds[k], a, c) else 0
  {
    TotalClaimWithout(holds[k := h], k, a, c);
    assert holds[k := h] - {k} == holds - {k};
    if k in holds {
      TotalClaimWithout(holds, k, a, c);
    } else {
      assert holds - {k} == holds;
    }
  }

  // ---------- accounts ----------

  lemma CreditedReads(accounts: Accounts, a: AccountId, c: Commodity, delta: int, a': AccountId, c': Commodity)
    ensures var after := Credited(accounts, a, c, delta);
            && Owned(after, a', c') == Owned(accounts, a', c') + (if a == a' && c == c' then delta else 0)
            && Reserved(after, a', c') == Reserved(accounts, a', c')
  {
  }

  lemma LockedReads(accounts: Accounts, a: AccountId, c: Commodity, delta: int, a': AccountId, c': Commodity)
    ensures var after := Locked(accounts, a, c, delta);
            && Reserved(after, a', c') == Reserved(accounts, a', c') + (if a == a' && c == c' then delta else 0)
            && Owned(after, a', c') == Owned(accounts, a', c')
  {
  }

  /** What an account has locked is exactly what its open holds claim. */
  ghost predicate Exact(l: LedgerState) {
    forall a, c :: Reserved(l.accounts, a, c) == TotalClaim(l.holds, a, c)
  }

  ghost predicate HoldsPositive(l: LedgerState) {
    forall k :: k in l.holds ==> l.holds[k].remaining > 0 && l.holds[k].limitPrice > 0
  }

  ghost predicate Solvent(l: LedgerState) {
    forall a, c :: 0 <= Reserved(l.accounts, a, c) <= Owned(l.accounts, a, c)
  }

  // ---------- reservations stay the sum of the holds ----------

  /** Opening a hold keeps reservations exact precisely when it does not overwrite another. */
  lemma OpenHoldExact(l: LedgerState, key: LiveKey, id: InstrumentId, side: Side, limitPrice: Price, quantity: Quantity)
    requires Exact(l) && HoldsPositive(l) && quantity > 0
    ensures Exact(OpenHold(l, key, id, side, limitPrice, quantity)) <==> key !in l.holds
  {
    var l' := OpenHold(l, key, id, side, limitPrice, quantity);
    var h := Hold(id, side, limitPrice, quantity);
    forall a, c
      ensures Reserved(l'.accounts, a, c) - TotalClaim(l'.holds, a, c)
                == if key in l.holds then Claim(key, l.holds[key], a, c) else 0
    {
      LockedReads(l.accounts, key.accountId, Pledge(side, id), Worth(side, limitPrice, quantity), a, c);
      TotalClaimWith(l.holds, key, h, a, c);
    }
    if key in l.holds {
      var old' := l.holds[key];
      var c := Pledge(old'.side, old'.instrumentId);
      ClaimPositive(key, old');
      assert Reserved(l'.accounts, key.accountId, c) != TotalClaim(l'.holds, key.accountId, c);
    }
  }

  lemma ClaimPositive(key: LiveKey, h: Hold)
    requires h.remaining > 0 && h.limitPrice > 0
    ensures Claim(key, h, key.accountId, Pledge(h.side, h.instrumentId)) > 0
  {
    assert h.remaining * h.limitPrice > 0;
  }

  lemma CloseHoldExact(l: LedgerState, key: LiveKey)
    requires Exact(l) && key in l.holds
    ensures Exact(CloseHold(l, key))
  {
    var h := l.holds[key];
    forall a, c ensures Reserved(CloseHold(l, key).accounts, a, c) == TotalClaim(l.holds - {key}, a, c) {
      TotalClaimWithout(l.holds, key, a, c);
      LockedReads(l.accounts, key.accountId, Pledge(h.side, h.instrumentId), -Worth(h.side, h.limitPrice, h.remaining),
                  a, c);
    }
  }

  /** The hold behind this leg, if any, is on the same instrument and side and covers the fill exactly. */
  predicate LegFits(l: LedgerState, leg: Counterparty, side: Side, id: InstrumentId, quantity: Quantity) {
    leg.Key() in l.holds ==>
      && var h := l.holds[leg.Key()];
      h.side == side && h.instrumentId == id && h.remaining == quantity + leg.remainingQuantity
  }

  lemma ShrunkClaim(key: LiveKey, h: Hold, quantity: Quantity, left: Quantity, a: AccountId, c: Commodity)
    requires h.remaining == quantity + left
    ensures Claim(key, h, a, c) - Claim(key, h.(remaining := left), a, c)
              == if key.accountId == a && c == Pledge(h.side, h.instrumentId)
                 then Worth(h.side, h.limitPrice, quantity) else 0
    ensures left == 0 ==> Claim(key, h.(remaining := left), a, c) == 0
  {
    assert h.remaining * h.limitPrice - left * h.limitPrice == quantity * h.limitPrice;
  }

  /** What settling one leg does to every account's reservations and holdings. */
  lemma SettleReads(l: LedgerState, leg: Counterparty, side: Side, id: InstrumentId, price: Price, quantity: Quantity,
                    a: AccountId, c: Commodity)
    ensures var l' := SettleLeg(l, leg, side, id, price, quantity);
            var sign := if side.Buy? then 1 else -1;
            && Reserved(l'.accounts, a, c) == Reserved(l.accounts, a, c)
                 - (if leg.Key() in l.holds && a == leg.accountId && c == Pledge(side, id)
                    then Worth(side, l.holds[leg.Key()].limitPrice, quantity) else 0)
            && Owned(l'.accounts, a, c) == Owned(l.accounts, a, c)
                 + (if a != leg.accountId then 0
                    else if c == Money then -sign * (quantity * price)
                    else if c == Units(id) then sign * quantity else 0)
  {
    hide Owned, Reserved, Locked, Credited;
    var sign := if side.Buy? then 1 else -1;
    var shrunk := ShrinkHold(l, leg, side, id, quantity);
    if leg.Key() in l.holds {
      LockedReads(l.accounts, leg.accountId, Pledge(side, id),
                  -Worth(side, l.holds[leg.Key()].limitPrice, quantity), a, c);
    }
    CreditedReads(shrunk.accounts, leg.accountId, Money, -sign * (quantity * price), a, c);
    CreditedReads(Credited(shrunk.accounts, leg.accountId, Money, -sign * (quantity * price)), leg.accountId, Units(id),
                  sign * quantity, a, c);
  }

  lemma SettleLegExact(l: LedgerState, leg: Counterparty, side: Side, id: InstrumentId, price: Price,
                       quantity: Quantity)
    requires Exact(l) && LegFits(l, leg, side, id, quantity)
    ensures Exact(SettleLeg(l, leg, side, id, price, quantity))
  {
    var l' := SettleLeg(l, leg, side, id, price, quantity);
    forall a, c ensures Reserved(l'.accounts, a, c) == TotalClaim(l'.holds, a, c) {
      SettleReads(l, leg, side, id, price, quantity, a, c);
      if leg.Key() in l.holds {
        var h := l.holds[leg.Key()];
        ShrunkClaim(leg.Key(), h, quantity, leg.remainingQuantity, a, c);
        TotalClaimWithout(l.holds, leg.Key(), a, c);
        TotalClaimWith(l.holds, leg.Key(), h.(remaining := leg.remainingQuantity), a, c);
      }
    }
  }

  // ---------- conservation ----------

  /** All of commodity c, over every account. */
  ghost function Supply(accounts: Accounts, c: Commodity): int
    decreases |accounts|
  {
    if accounts == map[] then 0
    else
      var a :| a in accounts;
      OwnedIn(accounts[a], c) + Supply(accounts - {a}, c)
  }

  lemma {:induction false} SupplyWithout(accounts: Accounts, a: AccountId, c: Commodity)
    requires a in accounts
    ensures Supply(accounts, c) == OwnedIn(accounts[a], c) + Supply(accounts - {a}, c)
    decreases |accounts|
  {
    var x :| x in accounts && Supply(accounts, c) == OwnedIn(accounts[x], c) + Supply(accounts - {x}, c);
    if x != a {
      SupplyWithout(accounts - {x}, a, c);
      SupplyWithout(accounts - {a}, x, c);
      assert accounts - {x} - {a} == accounts - {a} - {x};
    }
  }

  lemma SupplyWith(accounts: Accounts, a: AccountId, b: Balances, c: Commodity)
    ensures Supply(accounts[a := b], c) == Supply(accounts, c) + OwnedIn(b, c) - Owned(accounts, a, c)
  {
    SupplyWithout(accounts[a := b], a, c);
    assert accounts[a := b] - {a} == accounts - {a};
    if a in accounts {
      SupplyWithout(accounts, a, c);
    } else {
      assert accounts - {a} == accounts;
    }
  }

  lemma CreditedSupply(accounts: Accounts, a: AccountId, c: Commodity, delta: int, c': Commodity)
    ensures Supply(Credited(accounts, a, c, delta), c') == Supply(accounts, c') + if c == c' then delta else 0
  {
    SupplyWith(accounts, a, Credited(accounts, a, c, delta)[a], c');
  }

  lemma LockedSupply(accounts: Accounts, a: AccountId, c: Commodity, delta: int, c': Commodity)
    ensures Supply(Locked(accounts, a, c, delta), c') == Supply(accounts, c')
  {
    SupplyWith(accounts, a, Locked(accounts, a, c, delta)[a], c');
  }

  lemma SettleSupply(l: LedgerState, leg: Counterparty, side: Side, id: InstrumentId, price: Price, quantity: Quantity,
                     c: Commodity)
    ensures var sign := if side.Buy? then 1 else -1;
            Supply(SettleLeg(l, leg, side, id, price, quantity).accounts, c) == Supply(l.accounts, c)
              + (if c == Money then -sign * (quantity * price) else if c == Units(id) then sign * quantity else 0)
  {
    hide Credited, Locked;
    var sign := if side.Buy? then 1 else -1;
    var shrunk := ShrinkHold(l, leg, side, id, quantity);
    if leg.Key() in l.holds {
      LockedSupply(l.accounts, leg.accountId, Pledge(side, id), -Worth(side, l.holds[leg.Key()].limitPrice, quantity), c);
    }
    CreditedSupply(shrunk.accounts, leg.accountId, Money, -sign * (quantity * price), c);
    CreditedSupply(Credited(shrunk.accounts, leg.accountId, Money, -sign * (quantity * price)), leg.accountId, Units(id),
                   sign * quantity, c);
  }

  /** No event creates or destroys cash or units: a trade only moves them between accounts. */
  lemma ApplyConserves(l: LedgerState, ev: Event, c: Commodity)
    ensures Supply(Apply(l, ev).accounts, c) == Supply(l.accounts, c)
  {
    hide Locked, Credited, Supply, SettleLeg;
    match ev
    case OrderAccepted(_, _, a, cid, _, id, side, price, quantity, _, tif) =>
      LockedSupply(l.accounts, a, Pledge(side, id), Worth(side, price, quantity), c);
    case OrderReplaced(_, _, a, original, cid, _, id, price, quantity) =>
      if LiveKey(a, original) in l.holds {
        CloseSupply(l, LiveKey(a, original), c);
        var closed := CloseHold(l, LiveKey(a, original));
        var side := l.holds[LiveKey(a, original)].side;
        LockedSupply(closed.accounts, a, Pledge(side, id), Worth(side, price, quantity), c);
      }
    case OrderCancelled(_, _, a, cid, _, _) =>
      if LiveKey(a, cid) in l.holds {
        CloseSupply(l, LiveKey(a, cid), c);
      }
    case TradeExecuted(_, _, id, price, quantity, _, buyer, seller) =>
      SettleSupply(l, buyer, Buy, id, price, quantity, c);
      SettleSupply(SettleLeg(l, buyer, Buy, id, price, quantity), seller, Sell, id, price, quantity, c);
    case _ =>
  }

  lemma CloseSupply(l: LedgerState, key: LiveKey, c: Commodity)
    requires key in l.holds
    ensures Supply(CloseHold(l, key).accounts, c) == Supply(l.accounts, c)
  {
    hide Locked;
    var h := l.holds[key];
    LockedSupply(l.accounts, key.accountId, Pledge(h.side, h.instrumentId), -Worth(h.side, h.limitPrice, h.remaining), c);
  }

  lemma {:induction false} ApplyAllConserves(l: LedgerState, events: seq<Event>, c: Commodity)
    ensures Supply(ApplyAll(l, events).accounts, c) == Supply(l.accounts, c)
    decreases |events|
  {
    if events != [] {
      ApplyConserves(l, events[0], c);
      ApplyAllConserves(Apply(l, events[0]), events[1..], c);
    }
  }

  // ---------- what each event moves, to the unit ----------

  /** A trade moves its cash from buyer to seller and its units from seller to buyer, at the price traded, and frees
      what the two orders had locked for it: the buyer's cash at the buyer's own limit, the seller's units. */
  lemma TradeMovesExactly(l: LedgerState, ev: Event, a: AccountId, c: Commodity)
    requires ev.TradeExecuted? && ev.buyer.Key() != ev.seller.Key()
    ensures var before, after := l.accounts, Apply(l, ev).accounts; var cash := ev.quantity * ev.price;
            var buys, sells := a == ev.buyer.accountId, a == ev.seller.accountId;
            && Owned(after, a, c) - Owned(before, a, c)
                 == (if c == Money then (if sells then cash else 0) - (if buys then cash else 0)
                     else if c == Units(ev.instrumentId) then
                       (if buys then ev.quantity else 0) - (if sells then ev.quantity else 0)
                     else 0)
            && Reserved(before, a, c) - Reserved(after, a, c)
                 == (if buys && c == Money && ev.buyer.Key() in l.holds
                     then ev.quantity * l.holds[ev.buyer.Key()].limitPrice else 0)
                    + (if sells && c == Units(ev.instrumentId) && ev.seller.Key() in l.holds then ev.quantity else 0)
  {
    hide Owned, Reserved, SettleLeg;
    var l1 := SettleLeg(l, ev.buyer, Buy, ev.instrumentId, ev.price, ev.quantity);
    SettleReads(l, ev.buyer, Buy, ev.instrumentId, ev.price, ev.quantity, a, c);
    SettleReads(l1, ev.seller, Sell, ev.instrumentId, ev.price, ev.quantity, a, c);
    SettleSpares(l, ev.buyer, Buy, ev.instrumentId, ev.price, ev.quantity, ev.seller.Key());
  }

  lemma SettleSpares(l: LedgerState, leg: Counterparty, side: Side, id: InstrumentId, price: Price, quantity: Quantity,
                     key: LiveKey)
    requires key != leg.Key()
    ensures key in SettleLeg(l, leg, side, id, price, quantity).holds <==> key in l.holds
  {
  }

  /** What an open order has locked of commodity c: a buy, cash at its limit; a sell, the units themselves. */
  function LockedBy(h: Hold, c: Commodity): int {
    match c
    case Money => if h.side == Buy then h.remaining * h.limitPrice else 0
    case Units(id) => if h.side == Sell && h.instrumentId == id then h.remaining else 0
  }

  /** What the account's order under this id has locked of c, if it is open. */
  function LockedUnder(holds: map<LiveKey, Hold>, key: LiveKey, c: Commodity): int {
    if key in holds then LockedBy(holds[key], c) else 0
  }

  /** Any other event moves nothing owned. Accepting a GTC order locks what the whole of it needs; cancelling an order
      frees what is left of it; replacing one does both; and nobody else's reservations move. */
  lemma OrderEventMovesExactly(l: LedgerState, ev: Event, a: AccountId, c: Commodity)
    requires !ev.TradeExecuted?
    ensures var before, after := l.accounts, Apply(l, ev).accounts;
            && Owned(after, a, c) == Owned(before, a, c)
            && Reserved(after, a, c) - Reserved(before, a, c)
                 == (if ev.OrderAccepted? && a == ev.accountId && ev.timeInForce == GTC
                     then LockedBy(Hold(ev.instrumentId, ev.side, ev.price, ev.quantity), c)
                     else if ev.OrderCancelled? && a == ev.accountId
                     then -LockedUnder(l.holds, LiveKey(a, ev.clientOrderId), c)
                     else if ev.OrderReplaced? && a == ev.accountId
                             && LiveKey(a, ev.originalClientOrderId) in l.holds
                     then LockedBy(Hold(ev.instrumentId, l.holds[LiveKey(a, ev.originalClientOrderId)].side,
                                        ev.newPrice, ev.newQuantity), c)
                          - LockedUnder(l.holds, LiveKey(a, ev.originalClientOrderId), c)
                     else 0)
  {
    hide Owned, Reserved, Locked, OpenHold, CloseHold, LockedBy;
    match ev
    case OrderAccepted(_, _, b, cid, _, id, side, price, quantity, _, tif) =>
      if tif == GTC {
        OpenReads(l, LiveKey(b, cid), Hold(id, side, price, quantity), a, c);
      }
    case OrderReplaced(_, _, b, original, cid, _, id, price, quantity) =>
      var key := LiveKey(b, original);
      if key in l.holds {
        CloseReads(l, key, a, c);
        OpenReads(CloseHold(l, key), LiveKey(b, cid), Hold(id, l.holds[key].side, price, quantity), a, c);
      }
    case OrderCancelled(_, _, b, cid, _, _) =>
      if LiveKey(b, cid) in l.holds {
        CloseReads(l, LiveKey(b, cid), a, c);
      }
    case _ =>
  }

  lemma OpenReads(l: LedgerState, key: LiveKey, h: Hold, a: AccountId, c: Commodity)
    ensures var after := OpenHold(l, key, h.instrumentId, h.side, h.limitPrice, h.remaining).accounts;
            && Owned(after, a, c) == Owned(l.accounts, a, c)
            && Reserved(after, a, c) == Reserved(l.accounts, a, c) + if a == key.accountId then LockedBy(h, c) else 0
  {
    hide Owned, Reserved, Locked;
    LockedReads(l.accounts, key.accountId, Pledge(h.side, h.instrumentId), Worth(h.side, h.limitPrice, h.remaining), a,
                c);
  }

  lemma CloseReads(l: LedgerState, key: LiveKey, a: AccountId, c: Commodity)
    requires key in l.holds
    ensures var after := CloseHold(l, key).accounts;
            && Owned(after, a, c) == Owned(l.accounts, a, c)
            && Reserved(after, a, c)
                 == Reserved(l.accounts, a, c) - if a == key.accountId then LockedBy(l.holds[key], c) else 0
  {
    hide Owned, Reserved, Locked;
    var h := l.holds[key];
    LockedReads(l.accounts, key.accountId, Pledge(h.side, h.instrumentId), -Worth(h.side, h.limitPrice, h.remaining), a,
                c);
  }
}
