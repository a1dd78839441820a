/** Under the risk gate the holds are the resting orders, reservations are their sums, and no account is ever
    overdrawn, at every event; and exactly which replace breaks that. */
module GateTheorems {
  import opened ExchangeTypes
  import opened MatchingModel
  import opened MatchingInvariants
  import opened MatchingTheorems
  import opened CommandTheorems
  import opened LedgerModel
  import opened LedgerTheorems
  import opened GateModel

  /** Reservations are exact and nothing is overdrawn. */
  ghost predicate Sound(l: LedgerState) {
    Exact(l) && Solvent(l)
  }

  /** Sound now and after every event. */
  ghost predicate SoundThroughout(l: LedgerState, events: seq<Event>)
    decreases |events|
  {
    Sound(l) && (events == [] || SoundThroughout(Apply(l, events[0]), events[1..]))
  }

  lemma {:induction false} ThroughoutConcat(l: LedgerState, a: seq<Event>, b: seq<Event>)
    ensures ApplyAll(l, a + b) == ApplyAll(ApplyAll(l, a), b)
    ensures SoundThroughout(l, a + b) <==> SoundThroughout(l, a) && SoundThroughout(ApplyAll(l, a), b)
    decreases |a|
  {
    if a == [] {
      assert a + b == b;
    } else {
      assert (a + b)[1..] == a[1..] + b;
      ThroughoutConcat(Apply(l, a[0]), a[1..], b);
    }
  }

  /** The order on its way into the book is backed by a hold of its own: it is GTC and not yet filled. */
  predicate SelfBacked(order: RestingOrder) {
    order.timeInForce == GTC && order.remainingQuantity > 0
  }

  /** While `incoming` matches, the holds are the resting orders and, if it is to rest, `incoming` itself. */
  ghost predicate HoldsFollow(st: EngineState, l: LedgerState, incoming: RestingOrder) {
    && RestingBacked(st, l)
    && (forall k :: k in l.holds ==> k in st.directory || (SelfBacked(incoming) && k == incoming.Key()))
    && (SelfBacked(incoming) ==>
          && incoming.Key() in l.holds
          && l.holds[incoming.Key()] == HoldFor(incoming.instrumentId, incoming.ToBookOrder()))
  }

  /** An order that takes no hold can be paid for in full at its limit out of what is available. */
  ghost predicate Affordable(l: LedgerState, incoming: RestingOrder) {
    incoming.timeInForce != GTC ==>
      Available(l.accounts, incoming.accountId, Pledge(incoming.side, incoming.instrumentId))
        >= Worth(incoming.side, incoming.price, incoming.remainingQuantity)
  }

  ghost predicate MatchSound(st: EngineState, l: LedgerState, incoming: RestingOrder) {
    && WellFormed(st) && DirectoryComplete(st)
    && incoming.instrumentId in st.books && incoming.price > 0 && incoming.Key() !in st.directory
    && Sound(l) && HoldsFollow(st, l, incoming) && Affordable(l, incoming)
  }

  // ---------- one trade ----------

  lemma HoldsPositiveFrom(st: EngineState, l: LedgerState, incoming: RestingOrder)
    requires BooksOk(st) && DirectorySound(st) && HoldsFollow(st, l, incoming) && incoming.price > 0
    ensures HoldsPositive(l)
  {
    forall k | k in l.holds ensures l.holds[k].remaining > 0 && l.holds[k].limitPrice > 0 {
      if k in st.directory {
        var o := EntryOrder(st, k);
      }
    }
  }

  lemma {:induction false} TotalClaimNonNegative(holds: map<LiveKey, Hold>, a: AccountId, c: Commodity)
    requires forall k :: k in holds ==> holds[k].remaining > 0 && holds[k].limitPrice > 0
    ensures TotalClaim(holds, a, c) >= 0
    decreases |holds|
  {
    hide Claim;
    if holds != map[] {
      var k :| k in holds;
      TotalClaimWithout(holds, k, a, c);
      TotalClaimNonNegative(holds - {k}, a, c);
      ClaimNonNegative(k, holds[k], a, c);
    }
  }

  lemma ClaimNonNegative(k: LiveKey, h: Hold, a: AccountId, c: Commodity)
    requires h.limitPrice > 0
    ensures Claim(k, h, a, c) >= 0
  {
    assert h.remaining * h.limitPrice >= 0;
  }

  /** Exact reservations over positive holds make solvency a matter of what is available. */
  lemma SolventFromAvailable(l: LedgerState)
    requires Exact(l) && HoldsPositive(l)
    requires forall a, c :: Available(l.accounts, a, c) >= 0
    ensures Solvent(l)
  {
    forall a, c ensures 0 <= Reserved(l.accounts, a, c) <= Owned(l.accounts, a, c) {
      TotalClaimNonNegative(l.holds, a, c);
      assert Available(l.accounts, a, c) >= 0;
    }
  }

  function Backing(l: LedgerState, leg: Counterparty, side: Side, quantity: int): int {
    if leg.Key() in l.holds then Worth(side, l.holds[leg.Key()].limitPrice, quantity) else 0
  }

  /** How settling one leg moves what each account has available. */
  function LegMoves(leg: Counterparty, side: Side, id: InstrumentId, price: Price, quantity: int, backing: int,
                    a: AccountId, c: Commodity): int
  {
    if a != leg.accountId then 0
    else if c == Money then (if side.Buy? then backing - quantity * price else quantity * price)
    else if c == Units(id) then (if side.Buy? then quantity else backing - quantity)
    else 0
  }

  lemma LegAvailable(l: LedgerState, leg: Counterparty, side: Side, id: InstrumentId, price: Price, quantity: Quantity,
                     a: AccountId, c: Commodity)
    ensures Available(SettleLeg(l, leg, side, id, price, quantity).accounts, a, c)
              == Available(l.accounts, a, c)
                 + LegMoves(leg, side, id, price, quantity, Backing(l, leg, side, quantity), a, c)
  {
    hide Owned, Reserved, SettleLeg;
    SettleReads(l, leg, side, id, price, quantity, a, c);
  }

  /** A fill backed by a hold at a limit no worse than the trade price never lowers what is available. */
  lemma BackedFillNeverLowers(l: LedgerState, leg: Counterparty, side: Side, id: InstrumentId, price: Price,
                              quantity: Quantity, a: AccountId, c: Commodity)
    requires leg.Key() in l.holds && price >= 0
    requires side.Buy? ==> l.holds[leg.Key()].limitPrice >= price
    ensures Available(SettleLeg(l, leg, side, id, price, quantity).accounts, a, c) >= Available(l.accounts, a, c)
  {
    LegAvailable(l, leg, side, id, price, quantity, a, c);
    assert quantity * price >= 0;
    if side.Buy? {
      assert quantity * (l.holds[leg.Key()].limitPrice - price) >= 0;
    }
  }

  /** The two legs of the trade a matching turn makes. */
  function IncomingLeg(st: EngineState, incoming: RestingOrder): Counterparty
    requires incoming.instrumentId in st.books && CanFill(st, incoming)
  {
    var quantity := Min(incoming.remainingQuantity, Contra(st, incoming)[0].remainingQuantity);
    Counterparty(incoming.accountId, incoming.clientOrderId, incoming.exchangeOrderId,
                 incoming.remainingQuantity - quantity)
  }

  function RestingLeg(st: EngineState, incoming: RestingOrder): Counterparty
    requires incoming.instrumentId in st.books && CanFill(st, incoming)
  {
    var front := Contra(st, incoming)[0];
    Counterparty(front.accountId, front.clientOrderId, front.exchangeOrderId,
                 front.remainingQuantity - Min(incoming.remainingQuantity, front.remainingQuantity))
  }

  function AfterTrade(st: EngineState, l: LedgerState, incoming: RestingOrder): LedgerState
    requires incoming.instrumentId in st.books && CanFill(st, incoming)
  {
    var front := Contra(st, incoming)[0];
    var quantity := Min(incoming.remainingQuantity, front.remainingQuantity);
    var buyer := if incoming.side.Buy? then IncomingLeg(st, incoming) else RestingLeg(st, incoming);
    var seller := if incoming.side.Buy? then RestingLeg(st, incoming) else IncomingLeg(st, incoming);
    SettleLeg(SettleLeg(l, buyer, Buy, incoming.instrumentId, front.price, quantity),
              seller, Sell, incoming.instrumentId, front.price, quantity)
  }

  lemma FillAppliesTrade(st: EngineState, l: LedgerState, incoming: RestingOrder, c: nat)
    requires incoming.instrumentId in st.books && CanFill(st, incoming)
    ensures var events := FillOnce(st, incoming, c).events;
            && |events| == 2
            && Apply(l, events[0]) == AfterTrade(st, l, incoming)
            && Apply(AfterTrade(st, l, incoming), events[1]) == AfterTrade(st, l, incoming)
  {
    hide SettleLeg;
  }

  /** What is left of the hold under key k once both legs of a trade have settled. */
  function TradedHold(h: Hold, k: LiveKey, a: Counterparty, b: Counterparty): Hold {
    if k == a.Key() then h.(remaining := a.remainingQuantity)
    else if k == b.Key() then h.(remaining := b.remainingQuantity)
    else h
  }

  /** Where the holds under two different keys stand after both legs of a trade. */
  lemma TradeHolds(l: LedgerState, buyer: Counterparty, seller: Counterparty, id: InstrumentId, price: Price,
                   quantity: Quantity, k: LiveKey)
    requires buyer.Key() != seller.Key()
    ensures var l' := SettleLeg(SettleLeg(l, buyer, Buy, id, price, quantity), seller, Sell, id, price, quantity);
            && (k in l'.holds <==>
                  && k in l.holds
                  && (k == buyer.Key() ==> buyer.remainingQuantity != 0)
                  && (k == seller.Key() ==> seller.remainingQuantity != 0))
            && (k in l'.holds ==> l'.holds[k] == TradedHold(l.holds[k], k, buyer, seller))
  {
    hide Locked, Credited;
  }

  /** The front order answers to a key of its own, and is the only order that does. */
  lemma FrontKey(st: EngineState, incoming: RestingOrder)
    requires BooksOk(st) && DirectoryComplete(st) && incoming.instrumentId in st.books && CanFill(st, incoming)
    ensures var front := Contra(st, incoming)[0];
            && Rests(st, incoming.instrumentId, front)
            && front.Key() in st.directory
            && front.side == incoming.side.Opposite() && front.price > 0 && front.remainingQuantity > 0
            && forall id, o :: Rests(st, id, o) && o.Key() == front.Key() ==> id == incoming.instrumentId && o == front
  {
    hide BooksOk, DirectoryComplete, BookOrder.Key;
    var front := Contra(st, incoming)[0];
    FrontRests(st, incoming);
    CompleteKey(st, incoming.instrumentId, front);
    forall id, o | Rests(st, id, o) && o.Key() == front.Key() ensures id == incoming.instrumentId && o == front {
      OneOrderPerKey(st, id, o, incoming.instrumentId, front);
    }
  }

  lemma FrontRests(st: EngineState, incoming: RestingOrder)
    requires BooksOk(st) && incoming.instrumentId in st.books && CanFill(st, incoming)
    ensures var front := Contra(st, incoming)[0];
            && Rests(st, incoming.instrumentId, front)
            && front.side == incoming.side.Opposite() && front.price > 0 && front.remainingQuantity > 0
  {
    assert Contra(st, incoming)[0] in Contra(st, incoming);
  }

  /** With a complete directory no two resting orders answer to one key. */
  lemma OneOrderPerKey(st: EngineState, id: InstrumentId, o: BookOrder, id': InstrumentId, o': BookOrder)
    requires BooksOk(st) && DirectoryComplete(st) && Rests(st, id, o) && Rests(st, id', o') && o.Key() == o'.Key()
    ensures id == id' && o == o'
  {
    hide SideOk, Rests;
    assert st.directory[o.Key()].exchangeOrderId == o.exchangeOrderId;
    assert st.directory[o'.Key()].exchangeOrderId == o'.exchangeOrderId;
  }

  lemma FillFrame(st: EngineState, incoming: RestingOrder, c: nat)
    requires incoming.instrumentId in st.books && CanFill(st, incoming)
    ensures var one := FillOnce(st, incoming, c);
            && one.incoming == incoming.(remainingQuantity := IncomingLeg(st, incoming).remainingQuantity)
            && one.state.directory == (if RestingLeg(st, incoming).remainingQuantity == 0
                                       then st.directory - {Contra(st, incoming)[0].Key()} else st.directory)
            && one.state.books.Keys == st.books.Keys
  {
  }

  lemma FillLegs(st: EngineState, l: LedgerState, incoming: RestingOrder, k: LiveKey)
    requires incoming.instrumentId in st.books && CanFill(st, incoming)
    requires incoming.Key() != Contra(st, incoming)[0].Key()
    ensures var l', a, b := AfterTrade(st, l, incoming), IncomingLeg(st, incoming), RestingLeg(st, incoming);
            && (k in l'.holds <==> k in l.holds && (k == a.Key() ==> a.remainingQuantity != 0)
                                   && (k == b.Key() ==> b.remainingQuantity != 0))
            && (k in l'.holds ==> l'.holds[k] == TradedHold(l.holds[k], k, a, b))
  {
    hide SettleLeg;
    var a, b, front := IncomingLeg(st, incoming), RestingLeg(st, incoming), Contra(st, incoming)[0];
    TradeHolds(l, if incoming.side.Buy? then a else b, if incoming.side.Buy? then b else a, incoming.instrumentId,
               front.price, Min(incoming.remainingQuantity, front.remainingQuantity), k);
  }

  lemma FillKeepsHolds(st: EngineState, l: LedgerState, incoming: RestingOrder, c: nat)
    requires MatchSound(st, l, incoming) && CanFill(st, incoming)
    ensures var one := FillOnce(st, incoming, c);
            HoldsFollow(one.state, AfterTrade(st, l, incoming), one.incoming)
  {
    hide BooksOk, DirectorySound, DirectoryComplete, Uncrossed, Sound, SettleLeg, Rests, Affordable, FillOnce, AfterTrade;
    FrontKey(st, incoming);
    FillOnceRests(st, incoming, c);
    FillFrame(st, incoming, c);
    var one, l', front := FillOnce(st, incoming, c), AfterTrade(st, l, incoming), Contra(st, incoming)[0];
    forall id, o | Rests(one.state, id, o)
      ensures o.Key() in l'.holds && l'.holds[o.Key()] == HoldFor(id, o)
    {
      if o.Key() == front.Key() {
        FillLegs(st, l, incoming, front.Key());
      } else {
        assert Rests(st, id, o);
        CompleteKey(st, id, o);
        FillLegs(st, l, incoming, o.Key());
      }
    }
    forall k | k in l'.holds
      ensures k in one.state.directory || (SelfBacked(one.incoming) && k == incoming.Key())
    {
      FillLegs(st, l, incoming, k);
    }
    FillLegs(st, l, incoming, incoming.Key());
  }

  lemma CompleteKey(st: EngineState, id: InstrumentId, o: BookOrder)
    requires DirectoryComplete(st) && Rests(st, id, o)
    ensures o.Key() in st.directory
  {
  }

  lemma FillKeepsExact(st: EngineState, l: LedgerState, incoming: RestingOrder)
    requires MatchSound(st, l, incoming) && CanFill(st, incoming)
    ensures Exact(AfterTrade(st, l, incoming))
  {
    hide SettleLeg, Exact, Solvent, WellFormed, DirectoryComplete;
    LegsFit(st, l, incoming);
    var front := Contra(st, incoming)[0];
    var quantity := Min(incoming.remainingQuantity, front.remainingQuantity);
    var a, b := IncomingLeg(st, incoming), RestingLeg(st, incoming);
    var buyer, seller := if incoming.side.Buy? then a else b, if incoming.side.Buy? then b else a;
    SettleLegExact(l, buyer, Buy, incoming.instrumentId, front.price, quantity);
    SecondLegFits(l, buyer, Buy, seller, Sell, incoming.instrumentId, front.price, quantity);
    SettleLegExact(SettleLeg(l, buyer, Buy, incoming.instrumentId, front.price, quantity), seller, Sell,
                   incoming.instrumentId, front.price, quantity);
  }

  lemma LegsFit(st: EngineState, l: LedgerState, incoming: RestingOrder)
    requires MatchSound(st, l, incoming) && CanFill(st, incoming)
    ensures var front := Contra(st, incoming)[0]; var id := incoming.instrumentId;
            var quantity := Min(incoming.remainingQuantity, front.remainingQuantity);
            && LegFits(l, IncomingLeg(st, incoming), incoming.side, id, quantity)
            && LegFits(l, RestingLeg(st, incoming), incoming.side.Opposite(), id, quantity)
            && front.Key() in l.holds && l.holds[front.Key()] == HoldFor(id, front)
            && (incoming.Key() in l.holds <==> SelfBacked(incoming))
            && (incoming.Key() in l.holds ==> l.holds[incoming.Key()] == HoldFor(id, incoming.ToBookOrder()))
            && IncomingLeg(st, incoming).Key() == incoming.Key() && RestingLeg(st, incoming).Key() == front.Key()
            && incoming.Key() != front.Key() && front.price > 0
  {
    hide Sound, BooksOk, DirectorySound, Uncrossed, Affordable;
    WellFormedBooks(st);
    FrontKey(st, incoming);
  }

  lemma WellFormedBooks(st: EngineState)
    requires WellFormed(st)
    ensures BooksOk(st) && DirectorySound(st)
  {
  }

  /** Settling one leg leaves a hold under another key alone. */
  lemma SecondLegFits(l: LedgerState, first: Counterparty, side: Side, second: Counterparty, side': Side,
                      id: InstrumentId, price: Price, quantity: Quantity)
    requires first.Key() != second.Key() && LegFits(l, second, side', id, quantity)
    ensures LegFits(SettleLeg(l, first, side, id, price, quantity), second, side', id, quantity)
    ensures second.Key() in SettleLeg(l, first, side, id, price, quantity).holds <==> second.Key() in l.holds
    ensures second.Key() in l.holds ==>
              SettleLeg(l, first, side, id, price, quantity).holds[second.Key()] == l.holds[second.Key()]
  {
    hide Locked, Credited;
  }

  /** How one trade moves what each account has available. */
  lemma TradeAvailable(st: EngineState, l: LedgerState, incoming: RestingOrder, a: AccountId, c: Commodity)
    requires MatchSound(st, l, incoming) && CanFill(st, incoming)
    ensures var front := Contra(st, incoming)[0]; var id := incoming.instrumentId;
            var quantity := Min(incoming.remainingQuantity, front.remainingQuantity);
            Available(AfterTrade(st, l, incoming).accounts, a, c)
              == Available(l.accounts, a, c)
                 + LegMoves(IncomingLeg(st, incoming), incoming.side, id, front.price, quantity,
                            if SelfBacked(incoming) then Worth(incoming.side, incoming.price, quantity) else 0, a, c)
                 + LegMoves(RestingLeg(st, incoming), incoming.side.Opposite(), id, front.price, quantity,
                            Worth(front.side, front.price, quantity), a, c)
  {
    hide SettleLeg, WellFormed, Sound, DirectoryComplete, HoldsFollow, Affordable, Available, LegMoves;
    LegsFit(st, l, incoming);
    var front := Contra(st, incoming)[0];
    var quantity := Min(incoming.remainingQuantity, front.remainingQuantity);
    var x, y := IncomingLeg(st, incoming), RestingLeg(st, incoming);
    var buyer, seller := if incoming.side.Buy? then x else y, if incoming.side.Buy? then y else x;
    SecondLegFits(l, buyer, Buy, seller, Sell, incoming.instrumentId, front.price, quantity);
    LegAvailable(l, buyer, Buy, incoming.instrumentId, front.price, quantity, a, c);
    LegAvailable(SettleLeg(l, buyer, Buy, incoming.instrumentId, front.price, quantity), seller, Sell,
                 incoming.instrumentId, front.price, quantity, a, c);
    FrontSide(st, l, incoming);
  }

  lemma FrontSide(st: EngineState, l: LedgerState, incoming: RestingOrder)
    requires MatchSound(st, l, incoming) && CanFill(st, incoming)
    ensures Contra(st, incoming)[0].side == incoming.side.Opposite()
  {
    hide Sound, DirectorySound, Uncrossed, Affordable, HoldsFollow;
    FrontKey(st, incoming);
  }

  /** A resting order is paid at its own limit, so its leg never lowers what is available. */
  lemma RestingMoves(leg: Counterparty, side: Side, id: InstrumentId, price: Price, quantity: nat, a: AccountId,
                     c: Commodity)
    requires price > 0
    ensures LegMoves(leg, side, id, price, quantity, Worth(side, price, quantity), a, c) >= 0
  {
    assert quantity * price >= 0;
  }

  /** The incoming leg costs at most its worth at its limit, and nothing if a hold backs it. */
  lemma IncomingMoves(leg: Counterparty, side: Side, id: InstrumentId, limit: Price, price: Price, quantity: nat,
                      backed: bool, a: AccountId, c: Commodity)
    requires price > 0 && Crosses(side, limit, price)
    ensures LegMoves(leg, side, id, price, quantity, if backed then Worth(side, limit, quantity) else 0, a, c)
              >= if !backed && a == leg.accountId && c == Pledge(side, id) then -Worth(side, limit, quantity) else 0
  {
    assert quantity * price >= 0;
    if side.Buy? {
      assert quantity * (limit - price) >= 0;
    }
  }

  lemma WorthSplits(side: Side, limit: Price, a: int, b: int)
    ensures Worth(side, limit, a + b) == Worth(side, limit, a) + Worth(side, limit, b)
  {
  }

  lemma WorthNonNegative(side: Side, limit: Price, q: nat)
    requires limit >= 0
    ensures Worth(side, limit, q) >= 0
  {
  }

  /** One trade overdraws nobody, and leaves an unbacked order able to pay for the rest of itself. */
  lemma FillAffords(st: EngineState, l: LedgerState, incoming: RestingOrder, a: AccountId, c: Commodity)
    requires MatchSound(st, l, incoming) && CanFill(st, incoming)
    ensures Available(AfterTrade(st, l, incoming).accounts, a, c) >= 0
    ensures (incoming.timeInForce != GTC && a == incoming.accountId
             && c == Pledge(incoming.side, incoming.instrumentId)) ==>
              Available(AfterTrade(st, l, incoming).accounts, a, c)
                >= Worth(incoming.side, incoming.price, IncomingLeg(st, incoming).remainingQuantity)
  {
    hide SettleLeg, WellFormed, Sound, DirectoryComplete, HoldsFollow, Available, LegMoves, AfterTrade, Worth, Exact;
    var front := Contra(st, incoming)[0];
    var quantity := Min(incoming.remainingQuantity, front.remainingQuantity);
    LegsFit(st, l, incoming);
    FrontSide(st, l, incoming);
    TradeAvailable(st, l, incoming, a, c);
    RestingMoves(RestingLeg(st, incoming), front.side, incoming.instrumentId, front.price, quantity, a, c);
    IncomingMoves(IncomingLeg(st, incoming), incoming.side, incoming.instrumentId, incoming.price, front.price, quantity,
                  SelfBacked(incoming), a, c);
    WorthSplits(incoming.side, incoming.price, quantity, incoming.remainingQuantity - quantity);
    WorthNonNegative(incoming.side, incoming.price, incoming.remainingQuantity - quantity);
    SoundAvailable(l, a, c);
  }

  lemma SoundAvailable(l: LedgerState, a: AccountId, c: Commodity)
    requires Sound(l)
    ensures Available(l.accounts, a, c) >= 0
  {
  }

  lemma FillKeeps(st: EngineState, l: LedgerState, incoming: RestingOrder, c: nat)
    requires MatchSound(st, l, incoming) && CanFill(st, incoming)
    ensures var one := FillOnce(st, incoming, c); MatchSound(one.state, AfterTrade(st, l, incoming), one.incoming)
  {
    hide SettleLeg, Available, LegMoves, AfterTrade, Worth, FillOnce, BooksOk, DirectorySound, DirectoryComplete,
         Uncrossed, Exact, Solvent, HoldsFollow;
    var one, l' := FillOnce(st, incoming, c), AfterTrade(st, l, incoming);
    FillOnceKeeps(st, incoming, c);
    FillFrame(st, incoming, c);
    FillKeepsHolds(st, l, incoming, c);
    FillKeepsExact(st, l, incoming);
    HoldsPositiveFrom(one.state, l', one.incoming);
    forall a, c' ensures Available(l'.accounts, a, c') >= 0 {
      FillAffords(st, l, incoming, a, c');
    }
    SolventFromAvailable(l');
    FillAffords(st, l, incoming, incoming.accountId, Pledge(incoming.side, incoming.instrumentId));
  }

  /** A whole matching pass keeps the holds following the orders, and is sound after every one of its events. */
  lemma {:induction false} MatchKeepsSound(st: EngineState, l: LedgerState, incoming: RestingOrder, c: nat)
    requires MatchSound(st, l, incoming)
    ensures var m := MatchLoop(st, incoming, c);
            && MatchSound(m.state, ApplyAll(l, m.events), m.incoming)
            && SoundThroughout(l, m.events)
    decreases |Contra(st, incoming)|, incoming.remainingQuantity
  {
    hide Exact, Solvent, HoldsFollow, WellFormed, DirectoryComplete, AfterTrade, Affordable;
    if CanFill(st, incoming) {
      var one := FillOnce(st, incoming, c);
      var rest := MatchLoop(one.state, one.incoming, c);
      FillKeeps(st, l, incoming, c);
      FillAppliesTrade(st, l, incoming, c);
      var l' := AfterTrade(st, l, incoming);
      TwoEvents(l, l', one.events);
      MatchKeepsSound(one.state, l', one.incoming, c);
      ThroughoutConcat(l, one.events, rest.events);
    }
  }

  /** Matching an order backed by its own hold lowers what nobody has available: the reservation at the limit covers
      every debit at a trade price. */
  lemma {:induction false} BackedMatchNeverLowers(st: EngineState, l: LedgerState, incoming: RestingOrder, c: nat,
                                                  a: AccountId, of: Commodity)
    requires MatchSound(st, l, incoming) && incoming.timeInForce == GTC
    ensures Available(ApplyAll(l, MatchLoop(st, incoming, c).events).accounts, a, of) >= Available(l.accounts, a, of)
    decreases |Contra(st, incoming)|, incoming.remainingQuantity
  {
    hide Sound, HoldsFollow, WellFormed, DirectoryComplete, AfterTrade, Affordable, Available, Worth, LegMoves;
    if CanFill(st, incoming) {
      var one, front := FillOnce(st, incoming, c), Contra(st, incoming)[0];
      var quantity := Min(incoming.remainingQuantity, front.remainingQuantity);
      var l' := AfterTrade(st, l, incoming);
      FillKeeps(st, l, incoming, c);
      FillAppliesTrade(st, l, incoming, c);
      TwoEvents(l, l', one.events);
      LegsFit(st, l, incoming);
      FrontSide(st, l, incoming);
      TradeAvailable(st, l, incoming, a, of);
      RestingMoves(RestingLeg(st, incoming), front.side, incoming.instrumentId, front.price, quantity, a, of);
      IncomingMoves(IncomingLeg(st, incoming), incoming.side, incoming.instrumentId, incoming.price, front.price,
                    quantity, true, a, of);
      ThroughoutConcat(l, one.events, MatchLoop(one.state, one.incoming, c).events);
      BackedMatchNeverLowers(one.state, l', one.incoming, c, a, of);
    }
  }

  lemma TwoEvents(l: LedgerState, l': LedgerState, events: seq<Event>)
    requires |events| == 2 && Apply(l, events[0]) == l' && Apply(l', events[1]) == l' && Sound(l) && Sound(l')
    ensures ApplyAll(l, events) == l' && SoundThroughout(l, events)
  {
    hide Apply, Sound;
    assert events[1..][0] == events[1] && events[1..][1..] == [];
    assert ApplyAll(l', events[1..]) == l' && SoundThroughout(l', events[1..]);
  }

  // ---------- commands ----------

  /** Between commands: the books and directory in order, the holds exactly the resting orders, reservations their
      sums, and nobody overdrawn. */
  ghost predicate GateSound(g: GateState) {
    && WellFormed(g.engine) && DirectoryComplete(g.engine)
    && Sound(g.ledger) && HoldsAreOrders(g.engine, g.ledger)
  }

  lemma RestKeepsHolds(st: EngineState, l: LedgerState, order: RestingOrder)
    requires BooksOk(st) && FreshlyIssued(st, order) && HoldsFollow(st, l, order)
    ensures HoldsAreOrders(RestRemainder(st, order).state, l)
  {
    hide BooksOk, Rests;
    if WillRest(order) {
      RestRests(st, order);
    }
  }

  lemma MatchAndRestSound(st: EngineState, l: LedgerState, order: RestingOrder, c: nat)
    requires MatchSound(st, l, order) && FreshlyIssued(st, order)
    ensures var r := MatchAndRest(st, order, c);
            GateSound(GateState(r.state, ApplyAll(l, r.events))) && SoundThroughout(l, r.events)
  {
    hide Exact, Solvent, BooksOk, DirectorySound, DirectoryComplete, Uncrossed, Rests, HoldsFollow, MatchLoop,
         FreshlyIssued, HoldsAreOrders;
    var m := MatchLoop(st, order, c);
    var r := RestRemainder(m.state, m.incoming);
    var l' := ApplyAll(l, m.events);
    MatchKeepsSound(st, l, order, c);
    MatchAndRestKeeps(st, order, c);
    SoundMeansLocates(st);
    MatchAndRestCompletes(st, order, c);
    MatchKeepsFresh(st, order, c);
    RestKeepsHolds(m.state, l', m.incoming);
    ThroughoutConcat(l, m.events, r.events);
    QuietEvents(l', r.events);
  }

  /** Events the ledger has no use for. */
  lemma QuietEvents(l: LedgerState, events: seq<Event>)
    requires Sound(l) && |events| <= 1
    requires events != [] ==> Apply(l, events[0]) == l
    ensures ApplyAll(l, events) == l && SoundThroughout(l, events)
  {
    hide Apply, Sound;
    if events != [] {
      assert events[1..] == [];
    }
  }

  lemma OpenAvailable(l: LedgerState, key: LiveKey, id: InstrumentId, side: Side, limit: Price, quantity: Quantity,
                      a: AccountId, c: Commodity)
    requires quantity > 0
    ensures Available(OpenHold(l, key, id, side, limit, quantity).accounts, a, c) == Available(l.accounts, a, c)
              - (if a == key.accountId && c == Pledge(side, id) then Worth(side, limit, quantity) else 0)
  {
    hide Owned, Reserved, Locked;
    LockedReads(l.accounts, key.accountId, Pledge(side, id), Worth(side, limit, quantity), a, c);
  }

  lemma CloseAvailable(l: LedgerState, key: LiveKey, a: AccountId, c: Commodity)
    requires key in l.holds
    ensures Available(CloseHold(l, key).accounts, a, c)
              == Available(l.accounts, a, c) + Claim(key, l.holds[key], a, c)
  {
    hide Owned, Reserved, Locked;
    var h := l.holds[key];
    LockedReads(l.accounts, key.accountId, Pledge(h.side, h.instrumentId), -Worth(h.side, h.limitPrice, h.remaining),
                a, c);
  }

  /** A reservation that fits in what is available, under a key of its own, keeps the ledger sound. */
  lemma OpenHoldSound(l: LedgerState, key: LiveKey, id: InstrumentId, side: Side, limit: Price, quantity: Quantity)
    requires Exact(l) && HoldsPositive(l) && (forall a, c :: Available(l.accounts, a, c) >= 0)
    requires key !in l.holds && quantity > 0 && limit > 0
    requires Available(l.accounts, key.accountId, Pledge(side, id)) >= Worth(side, limit, quantity)
    ensures Sound(OpenHold(l, key, id, side, limit, quantity))
  {
    hide Available, Exact, Worth;
    var l' := OpenHold(l, key, id, side, limit, quantity);
    OpenHoldExact(l, key, id, side, limit, quantity);
    forall a, c ensures Available(l'.accounts, a, c) >= 0 {
      OpenAvailable(l, key, id, side, limit, quantity, a, c);
    }
    SolventFromAvailable(l');
  }

  lemma GateHoldsPositive(g: GateState)
    requires GateSound(g)
    ensures HoldsPositive(g.ledger)
  {
    forall k | k in g.ledger.holds ensures g.ledger.holds[k].remaining > 0 && g.ledger.holds[k].limitPrice > 0 {
      var o := EntryOrder(g.engine, k);
    }
  }

  lemma NewOrderSound(maxOrderQuantity: Quantity, g: GateState, cmd: Command)
    requires GateSound(g) && Locates(g.engine) && cmd.NewOrder?
    requires GateVerdict(maxOrderQuantity, g, cmd) == NoReason && NewOrderVerdict(g.engine, cmd) == NoReason
    ensures var r := ProcessNewOrder(g.engine, cmd);
            GateSound(GateState(r.state, ApplyAll(g.ledger, r.events))) && SoundThroughout(g.ledger, r.events)
  {
    hide Exact, Solvent, BooksOk, DirectorySound, DirectoryComplete, Uncrossed, Rests, FreshlyIssued, Available, Worth,
         MatchAndRest, GateSound, SoundThroughout;
    NewOrderFollows(maxOrderQuantity, g, cmd);
    var st, order, l := AfterAcceptance(g.engine), AcceptedOrder(g.engine, cmd), g.ledger;
    var r := ProcessNewOrder(g.engine, cmd);
    var m := MatchAndRest(st, order, cmd.commandSequence);
    assert r.events == [r.events[0]] + m.events;
    MatchAndRestSound(st, Apply(l, r.events[0]), order, cmd.commandSequence);
    OneThenRest(l, r.events[0], m.events);
  }

  lemma OneThenRest(l: LedgerState, ev: Event, rest: seq<Event>)
    requires Sound(l) && SoundThroughout(Apply(l, ev), rest)
    ensures ApplyAll(l, [ev] + rest) == ApplyAll(Apply(l, ev), rest) && SoundThroughout(l, [ev] + rest)
  {
    hide Apply, Sound;
    assert ([ev] + rest)[1..] == rest;
  }

  /** Acceptance takes the hold, or leaves enough available, for the matching pass to start from. */
  lemma NewOrderFollows(maxOrderQuantity: Quantity, g: GateState, cmd: Command)
    requires GateSound(g) && Locates(g.engine) && cmd.NewOrder?
    requires GateVerdict(maxOrderQuantity, g, cmd) == NoReason && NewOrderVerdict(g.engine, cmd) == NoReason
    ensures var st, order := AfterAcceptance(g.engine), AcceptedOrder(g.engine, cmd);
            && Sound(g.ledger)
            && FreshlyIssued(st, order)
            && MatchSound(st, Apply(g.ledger, ProcessNewOrder(g.engine, cmd).events[0]), order)
  {
    hide Exact, Solvent, BooksOk, DirectorySound, DirectoryComplete, Uncrossed, FreshlyIssued, Available, Worth,
         MatchAndRest;
    var st, order, l := AfterAcceptance(g.engine), AcceptedOrder(g.engine, cmd), g.ledger;
    NewOrderStart(g.engine, cmd);
    GateHoldsPositive(g);
    AffordsNew(maxOrderQuantity, g, cmd);
    forall a, c ensures Available(l.accounts, a, c) >= 0 {
      SoundAvailable(l, a, c);
    }
    forall id, o | Rests(st, id, o) ensures Rests(g.engine, id, o) {
    }
    if cmd.timeInForce == GTC {
      OpenHoldSound(l, order.Key(), order.instrumentId, order.side, order.price, order.remainingQuantity);
      OpenHoldHolds(l, order.Key(), order.instrumentId, order.side, order.price, order.remainingQuantity);
    }
  }

  lemma OpenHoldHolds(l: LedgerState, key: LiveKey, id: InstrumentId, side: Side, limit: Price, quantity: Quantity)
    requires quantity > 0
    ensures OpenHold(l, key, id, side, limit, quantity).holds == l.holds[key := Hold(id, side, limit, quantity)]
  {
  }

  lemma AffordsNew(maxOrderQuantity: Quantity, g: GateState, cmd: Command)
    requires cmd.NewOrder? && GateVerdict(maxOrderQuantity, g, cmd) == NoReason
    ensures Available(g.ledger.accounts, cmd.accountId, Pledge(cmd.side, cmd.instrumentId))
              >= Worth(cmd.side, cmd.price, cmd.quantity)
  {
  }

  lemma CancelSound(g: GateState, cmd: Command)
    requires GateSound(g) && Locates(g.engine) && cmd.CancelOrder? && CancelVerdict(g.engine, cmd) == NoReason
    ensures var r := ProcessCancel(g.engine, cmd);
            GateSound(GateState(r.state, ApplyAll(g.ledger, r.events))) && SoundThroughout(g.ledger, r.events)
  {
    hide Exact, Solvent, BooksOk, DirectorySound, DirectoryComplete, Uncrossed, Rests, Available, Worth;
    var key, st, l := LiveKey(cmd.accountId, cmd.clientOrderId), g.engine, g.ledger;
    var r := ProcessCancel(st, cmd);
    CancelKeeps(st, cmd);
    var o := WithdrawalRests(st, r.state, key);
    CloseHoldSound(g, key);
    TwoEvents(l, CloseHold(l, key), r.events);
    forall id, x | Rests(r.state, id, x)
      ensures x.Key() in l.holds - {key} && (l.holds - {key})[x.Key()] == HoldFor(id, x)
    {
      OtherKey(st, key, id, x, o);
    }
  }

  /** Another resting order answers to another key. */
  lemma OtherKey(st: EngineState, key: LiveKey, id: InstrumentId, x: BookOrder, o: BookOrder)
    requires BooksOk(st) && DirectoryComplete(st) && key in st.directory
    requires o.Key() == key && o.exchangeOrderId == st.directory[key].exchangeOrderId
    requires Rests(st, st.directory[key].instrumentId, o)
    requires Rests(st, id, x) && !(id == st.directory[key].instrumentId && x == o)
    ensures x.Key() != key
  {
  }

  lemma CloseHoldSound(g: GateState, key: LiveKey)
    requires GateSound(g) && key in g.ledger.holds
    ensures Sound(CloseHold(g.ledger, key)) && HoldsPositive(CloseHold(g.ledger, key))
    ensures CloseHold(g.ledger, key).holds == g.ledger.holds - {key}
  {
    hide Exact, BooksOk, DirectorySound, DirectoryComplete, Uncrossed, Rests, Available, Worth;
    var l, l' := g.ledger, CloseHold(g.ledger, key);
    GateHoldsPositive(g);
    CloseHoldExact(l, key);
    forall a, c ensures Available(l'.accounts, a, c) >= 0 {
      CloseAvailable(l, key, a, c);
      SoundAvailable(l, a, c);
      ClaimNonNegative(key, l.holds[key], a, c);
    }
    SolventFromAvailable(l');
  }

  // ---------- replaces ----------

  /** The ledger once it has seen the OrderReplaced of a replace that goes through. */
  function AfterReplaced(g: GateState, cmd: Command): LedgerState
    requires cmd.ReplaceOrder? && LiveKey(cmd.accountId, cmd.originalClientOrderId) in g.ledger.holds
  {
    var key := LiveKey(cmd.accountId, cmd.originalClientOrderId);
    OpenHold(CloseHold(g.ledger, key), LiveKey(cmd.accountId, cmd.newClientOrderId), cmd.instrumentId,
             g.ledger.holds[key].side, cmd.newPrice, cmd.newQuantity)
  }

  /** A replace that passes every check but files its order under another live order's id. */
  predicate TakesHeldId(maxOrderQuantity: Quantity, g: GateState, cmd: Command) {
    && cmd.ReplaceOrder?
    && GateVerdict(maxOrderQuantity, g, cmd) == NoReason
    && ReplaceVerdict(g.engine, cmd) == NoReason
    && cmd.newClientOrderId != cmd.originalClientOrderId
    && LiveKey(cmd.accountId, cmd.newClientOrderId) in g.engine.directory
  }

  /** A replace that passes its checks is about an order with a hold that matches it. */
  lemma ReplacedHold(g: GateState, cmd: Command)
    requires GateSound(g) && Locates(g.engine) && cmd.ReplaceOrder? && ReplaceVerdict(g.engine, cmd) == NoReason
    ensures var key := LiveKey(cmd.accountId, cmd.originalClientOrderId);
            && key in g.ledger.holds
            && g.ledger.holds[key] == HoldFor(cmd.instrumentId, ReplacedOrder(g.engine, cmd))
  {
    hide Sound, Uncrossed;
    var o := EntryOrder(g.engine, LiveKey(cmd.accountId, cmd.originalClientOrderId));
  }

  /** Every live key has a hold. */
  lemma LiveKeyHeld(g: GateState, k: LiveKey)
    requires GateSound(g)
    ensures k in g.engine.directory <==> k in g.ledger.holds
  {
    hide Sound, Uncrossed;
    if k in g.engine.directory {
      var o := EntryOrder(g.engine, k);
    }
  }

  /** With the old reservation freed, the new one fits: the check credited exactly that. */
  lemma AffordsReplacement(maxOrderQuantity: Quantity, g: GateState, cmd: Command)
    requires GateSound(g) && Locates(g.engine) && cmd.ReplaceOrder? && ReplaceVerdict(g.engine, cmd) == NoReason
    requires GateVerdict(maxOrderQuantity, g, cmd) == NoReason
    ensures var key := LiveKey(cmd.accountId, cmd.originalClientOrderId);
            && key in g.ledger.holds
            && Available(CloseHold(g.ledger, key).accounts, cmd.accountId,
                         Pledge(g.ledger.holds[key].side, cmd.instrumentId))
                 >= Worth(g.ledger.holds[key].side, cmd.newPrice, cmd.newQuantity)
  {
    hide GateSound, Available, CloseHold, ReplaceVerdict, Locates;
    ReplacedHold(g, cmd);
    var key := LiveKey(cmd.accountId, cmd.originalClientOrderId);
    CloseAvailable(g.ledger, key, cmd.accountId, Pledge(g.ledger.holds[key].side, cmd.instrumentId));
    GateAvailable(g, cmd.accountId, Pledge(g.ledger.holds[key].side, cmd.instrumentId));
  }

  lemma GateAvailable(g: GateState, a: AccountId, c: Commodity)
    requires GateSound(g)
    ensures Available(g.ledger.accounts, a, c) >= 0
  {
    SoundAvailable(g.ledger, a, c);
  }

  /** After its OrderReplaced the ledger is sound exactly when the replace does not take another live id. */
  lemma ReplacedLedgerSound(maxOrderQuantity: Quantity, g: GateState, cmd: Command)
    requires GateSound(g) && Locates(g.engine) && cmd.ReplaceOrder? && ReplaceVerdict(g.engine, cmd) == NoReason
    requires GateVerdict(maxOrderQuantity, g, cmd) == NoReason
    ensures LiveKey(cmd.accountId, cmd.originalClientOrderId) in g.ledger.holds
    ensures Sound(AfterReplaced(g, cmd)) <==> !TakesHeldId(maxOrderQuantity, g, cmd)
  {
    hide GateSound, Available, CloseHold, OpenHold, Locates, Exact, Solvent, HoldsPositive;
    var key, key' := LiveKey(cmd.accountId, cmd.originalClientOrderId), LiveKey(cmd.accountId, cmd.newClientOrderId);
    ReplacedHold(g, cmd);
    AffordsReplacement(maxOrderQuantity, g, cmd);
    CloseHoldSound(g, key);
    LiveKeyHeld(g, key');
    var closed := CloseHold(g.ledger, key);
    var side := g.ledger.holds[key].side;
    forall a, c ensures Available(closed.accounts, a, c) >= 0 {
      SoundAvailable(closed, a, c);
    }
    OpenHoldExact(closed, key', cmd.instrumentId, side, cmd.newPrice, cmd.newQuantity);
    if key' !in closed.holds {
      OpenHoldSound(closed, key', cmd.instrumentId, side, cmd.newPrice, cmd.newQuantity);
    }
  }

  lemma ReplacedHolds(g: GateState, cmd: Command)
    requires cmd.ReplaceOrder? && LiveKey(cmd.accountId, cmd.originalClientOrderId) in g.ledger.holds
    requires cmd.newQuantity > 0
    ensures var key := LiveKey(cmd.accountId, cmd.originalClientOrderId);
            AfterReplaced(g, cmd).holds
              == (g.ledger.holds - {key})[LiveKey(cmd.accountId, cmd.newClientOrderId) :=
                   Hold(cmd.instrumentId, g.ledger.holds[key].side, cmd.newPrice, cmd.newQuantity)]
  {
  }

  lemma ReplaceInPlaceHolds(g: GateState, cmd: Command)
    requires GateSound(g) && Locates(g.engine) && cmd.ReplaceOrder?
    requires ReplaceVerdict(g.engine, cmd) == NoReason && PreservesPriority(g.engine, cmd)
    requires LiveKey(cmd.accountId, cmd.originalClientOrderId) in g.ledger.holds
    requires cmd.newClientOrderId == cmd.originalClientOrderId
             || LiveKey(cmd.accountId, cmd.newClientOrderId) !in g.engine.directory
    ensures HoldsAreOrders(ReplaceInPlace(g.engine, cmd).state, AfterReplaced(g, cmd))
  {
    hide Sound, BooksOk, DirectorySound, DirectoryComplete, Uncrossed, Rests, ReplacedOrder, AfterReplaced;
    var st, key, key' := g.engine, LiveKey(cmd.accountId, cmd.originalClientOrderId), LiveKey(cmd.accountId, cmd.newClientOrderId);
    var r, l' := ReplaceInPlace(st, cmd), AfterReplaced(g, cmd);
    ReplacedHold(g, cmd);
    ReplacedHolds(g, cmd);
    ReplaceInPlaceRests(st, cmd);
    var prior := ReplacedOrder(st, cmd);
    EntryFinds(st, cmd);
    forall id, x | Rests(r.state, id, x) ensures x.Key() in l'.holds && l'.holds[x.Key()] == HoldFor(id, x) {
      if Rests(st, id, x) && !(id == cmd.instrumentId && x == prior) {
        OtherKey(st, key, id, x, prior);
        CompleteKey(st, id, x);
      }
    }
  }

  lemma EntryFinds(st: EngineState, cmd: Command)
    requires WellFormed(st) && Locates(st) && cmd.ReplaceOrder? && ReplaceVerdict(st, cmd) == NoReason
    ensures var key := LiveKey(cmd.accountId, cmd.originalClientOrderId); var o := ReplacedOrder(st, cmd);
            && key in st.directory && st.directory[key].instrumentId == cmd.instrumentId
            && o.Key() == key && o.exchangeOrderId == st.directory[key].exchangeOrderId
            && Rests(st, cmd.instrumentId, o)
  {
    var o := EntryOrder(st, LiveKey(cmd.accountId, cmd.originalClientOrderId));
  }

  /** The replaced order withdrawn, its successor under a hold of its own: the matching pass can start. */
  lemma ReentryFollows(g: GateState, cmd: Command)
    requires GateSound(g) && Locates(g.engine) && cmd.ReplaceOrder?
    requires ReplaceVerdict(g.engine, cmd) == NoReason
    requires LiveKey(cmd.accountId, cmd.originalClientOrderId) in g.ledger.holds
    requires Sound(AfterReplaced(g, cmd))
    requires cmd.newClientOrderId == cmd.originalClientOrderId
             || LiveKey(cmd.accountId, cmd.newClientOrderId) !in g.engine.directory
    ensures var st, order := AfterWithdrawal(g.engine, cmd), ReplacementOrder(g.engine, cmd);
            FreshlyIssued(st, order) && MatchSound(st, AfterReplaced(g, cmd), order)
  {
    hide Sound, BooksOk, DirectorySound, DirectoryComplete, Uncrossed, Rests, ReplacedOrder, AfterReplaced,
         FreshlyIssued;
    var st, key := g.engine, LiveKey(cmd.accountId, cmd.originalClientOrderId);
    var st', order, l' := AfterWithdrawal(st, cmd), ReplacementOrder(st, cmd), AfterReplaced(g, cmd);
    ReentryStart(st, cmd);
    ReplacedHold(g, cmd);
    ReplacedHolds(g, cmd);
    EntryFinds(st, cmd);
    WithdrawnRests(st, cmd);
    forall id, x | Rests(st', id, x) ensures x.Key() in l'.holds && l'.holds[x.Key()] == HoldFor(id, x) {
      OtherKey(st, key, id, x, ReplacedOrder(st, cmd));
      CompleteKey(st, id, x);
    }
  }

  lemma WithdrawnRests(st: EngineState, cmd: Command)
    requires WellFormed(st) && Locates(st) && cmd.ReplaceOrder? && ReplaceVerdict(st, cmd) == NoReason
    ensures forall id, x :: Rests(AfterWithdrawal(st, cmd), id, x) ==>
              Rests(st, id, x) && !(id == cmd.instrumentId && x == ReplacedOrder(st, cmd))
  {
    hide Rests, BooksOk, Uncrossed;
    var o := WithdrawalRests(st, AfterWithdrawal(st, cmd), LiveKey(cmd.accountId, cmd.originalClientOrderId));
    var x := EntryOrder(st, LiveKey(cmd.accountId, cmd.originalClientOrderId));
  }

  lemma ReplaceSound(maxOrderQuantity: Quantity, g: GateState, cmd: Command)
    requires GateSound(g) && Locates(g.engine) && cmd.ReplaceOrder? && ReplaceVerdict(g.engine, cmd) == NoReason
    requires GateVerdict(maxOrderQuantity, g, cmd) == NoReason
    ensures var r := ProcessReplace(g.engine, cmd);
            && (SoundThroughout(g.ledger, r.events) <==> !TakesHeldId(maxOrderQuantity, g, cmd))
            && (!TakesHeldId(maxOrderQuantity, g, cmd) ==>
                  GateSound(GateState(r.state, ApplyAll(g.ledger, r.events))))
  {
    hide Exact, Solvent, BooksOk, DirectorySound, DirectoryComplete, Uncrossed, Rests, MatchAndRest, AfterReplaced,
         HoldsAreOrders, MatchSound, FreshlyIssued;
    var st, l, r := g.engine, g.ledger, ProcessReplace(g.engine, cmd);
    ReplacedLedgerSound(maxOrderQuantity, g, cmd);
    ReplaceEvents(g, cmd);
    var l' := AfterReplaced(g, cmd);
    if TakesHeldId(maxOrderQuantity, g, cmd) {
      ThroughoutSecond(l, r.events);
    } else if PreservesPriority(st, cmd) {
      ReplaceInPlaceKeeps(st, cmd);
      ReplaceInPlaceKeepsComplete(st, cmd);
      ReplaceInPlaceHolds(g, cmd);
      TwoEvents(l, l', r.events);
    } else {
      var m := MatchAndRest(AfterWithdrawal(st, cmd), ReplacementOrder(st, cmd), cmd.commandSequence);
      ReentryFollows(g, cmd);
      MatchAndRestSound(AfterWithdrawal(st, cmd), l', ReplacementOrder(st, cmd), cmd.commandSequence);
      TwoEvents(l, l', r.events[..2]);
      assert r.events == r.events[..2] + m.events;
      ThroughoutConcat(l, r.events[..2], m.events);
    }
  }

  lemma ThroughoutSecond(l: LedgerState, events: seq<Event>)
    requires events != [] && !Sound(Apply(l, events[0]))
    ensures !SoundThroughout(l, events)
  {
    hide Apply, Sound;
  }

  /** Both replace paths announce the replacement first and touch the ledger with nothing else before matching. */
  lemma ReplaceEvents(g: GateState, cmd: Command)
    requires Locates(g.engine) && cmd.ReplaceOrder? && ReplaceVerdict(g.engine, cmd) == NoReason
    requires LiveKey(cmd.accountId, cmd.originalClientOrderId) in g.ledger.holds
    ensures var events := ProcessReplace(g.engine, cmd).events;
            && |events| >= 2
            && Apply(g.ledger, events[0]) == AfterReplaced(g, cmd)
            && Apply(AfterReplaced(g, cmd), events[1]) == AfterReplaced(g, cmd)
            && (PreservesPriority(g.engine, cmd) ==> |events| == 2)
  {
    hide CloseHold, OpenHold, MatchAndRest;
  }

  /** The central theorem. From a sound state, a command leaves every account solvent, and reservations the exact
      sums of the open holds, after every event, if and only if it is not a replace under another live order's id;
      and then the holds are again exactly the resting orders. */
  lemma GateKeepsSound(maxOrderQuantity: Quantity, g: GateState, cmd: Command)
    requires GateSound(g)
    ensures Locates(g.engine)
    ensures var r := GateProcess(maxOrderQuantity, g, cmd);
            && (SoundThroughout(g.ledger, r.events) <==> !TakesHeldId(maxOrderQuantity, g, cmd))
            && (!TakesHeldId(maxOrderQuantity, g, cmd) ==> GateSound(r.state))
  {
    hide Exact, Solvent, BooksOk, DirectorySound, DirectoryComplete, Uncrossed, Rests, MatchAndRest, HoldsAreOrders,
         FreshlyIssued, RejectCommand, GateVerdict, NewOrderVerdict, ReplaceVerdict, CancelVerdict, ReplaceInPlace,
         ReplaceByReentry, PreservesPriority;
    SoundMeansLocates(g.engine);
    RejectSound(g, cmd);
    if GateVerdict(maxOrderQuantity, g, cmd) == NoReason {
      match cmd
      case NewOrder(_, _, _, _, _, _, _, _, _) =>
        if NewOrderVerdict(g.engine, cmd) == NoReason {
          NewOrderSound(maxOrderQuantity, g, cmd);
        }
      case CancelOrder(_, _, _, _) =>
        if CancelVerdict(g.engine, cmd) == NoReason {
          CancelSound(g, cmd);
        }
      case ReplaceOrder(_, _, _, _, _, _, _) =>
        if ReplaceVerdict(g.engine, cmd) == NoReason {
          ReplaceSound(maxOrderQuantity, g, cmd);
        }
    }
  }

  /** A rejection, whoever decides it, changes nothing but the event counter. */
  lemma RejectSound(g: GateState, cmd: Command)
    requires GateSound(g)
    ensures forall reason ::
              var r := RejectCommand(g.engine, cmd, reason);
              GateSound(GateState(r.state, ApplyAll(g.ledger, r.events))) && SoundThroughout(g.ledger, r.events)
  {
    forall reason
      ensures var r := RejectCommand(g.engine, cmd, reason);
              GateSound(GateState(r.state, ApplyAll(g.ledger, r.events))) && SoundThroughout(g.ledger, r.events)
    {
      RejectedSound(g, cmd, reason);
    }
  }

  lemma RejectedSound(g: GateState, cmd: Command, reason: RejectReason)
    requires GateSound(g)
    ensures var r := RejectCommand(g.engine, cmd, reason);
            GateSound(GateState(r.state, ApplyAll(g.ledger, r.events))) && SoundThroughout(g.ledger, r.events)
  {
    hide Exact, Solvent, BooksOk, DirectorySound, DirectoryComplete, Uncrossed;
    var r := RejectCommand(g.engine, cmd, reason);
    CountersKeep(g.engine, r.state);
    QuietEvents(g.ledger, r.events);
    forall id, o | Rests(r.state, id, o) ensures Rests(g.engine, id, o) {
    }
  }

  // ---------- runs ----------

  /** No deposit is negative, and no replace takes another order's id when its turn comes. */
  ghost predicate WellBehaved(maxOrderQuantity: Quantity, g: GateState, actions: seq<Action>)
    requires WellFormed(g.engine)
    decreases |actions|
  {
    actions == [] ||
      (GateStepKeepsWellFormed(maxOrderQuantity, g, actions[0]);
       && (actions[0].Deposit? ==> actions[0].amount >= 0)
       && (actions[0].Submit? ==> !TakesHeldId(maxOrderQuantity, g, actions[0].command))
       && WellBehaved(maxOrderQuantity, GateStep(maxOrderQuantity, g, actions[0]), actions[1..]))
  }

  lemma DepositSound(g: GateState, a: AccountId, c: Commodity, amount: nat)
    requires GateSound(g)
    ensures GateSound(g.(ledger := Seeded(g.ledger, a, c, amount)))
  {
    hide WellFormed, DirectoryComplete, Credited, Owned, Reserved;
    forall a', c'
      ensures Reserved(Credited(g.ledger.accounts, a, c, amount), a', c') == Reserved(g.ledger.accounts, a', c')
      ensures Owned(Credited(g.ledger.accounts, a, c, amount), a', c') >= Owned(g.ledger.accounts, a', c')
    {
      CreditedReads(g.ledger.accounts, a, c, amount, a', c');
    }
  }

  /** Over any well-behaved run the holds stay the resting orders and every account stays solvent. */
  lemma {:induction false} SoundOverRuns(maxOrderQuantity: Quantity, g: GateState, actions: seq<Action>)
    requires GateSound(g) && WellBehaved(maxOrderQuantity, g, actions)
    ensures GateSound(GateRun(maxOrderQuantity, g, actions))
    decreases |actions|
  {
    hide Sound, WellFormed, DirectoryComplete, HoldsAreOrders, TakesHeldId, GateProcess;
    if actions != [] {
      GateStepKeepsWellFormed(maxOrderQuantity, g, actions[0]);
      match actions[0] {
        case Deposit(a, c, amount) => DepositSound(g, a, c, amount);
        case Submit(cmd) => GateKeepsSound(maxOrderQuantity, g, cmd);
      }
      SoundOverRuns(maxOrderQuantity, GateStep(maxOrderQuantity, g, actions[0]), actions[1..]);
    }
  }

  /** Over every run, well-behaved or not, all there is of a commodity is what there was plus what was deposited. */
  lemma {:induction false} ConservedOverRuns(maxOrderQuantity: Quantity, g: GateState, actions: seq<Action>,
                                             c: Commodity)
    requires WellFormed(g.engine)
    ensures Supply(GateRun(maxOrderQuantity, g, actions).ledger.accounts, c)
              == Supply(g.ledger.accounts, c) + Deposited(actions, c)
    decreases |actions|
  {
    hide WellFormed, Supply, Process, RejectCommand, GateVerdict;
    if actions != [] {
      GateStepKeepsWellFormed(maxOrderQuantity, g, actions[0]);
      match actions[0] {
        case Deposit(a, c', amount) => CreditedSupply(g.ledger.accounts, a, c', amount, c);
        case Submit(cmd) =>
          var r := GateProcess(maxOrderQuantity, g, cmd);
          ApplyAllConserves(g.ledger, r.events, c);
      }
      ConservedOverRuns(maxOrderQuantity, GateStep(maxOrderQuantity, g, actions[0]), actions[1..], c);
    }
  }

  // ---------- the replace that breaks it ----------

  const TWO_HOLDS := LedgerState(
    map[1 := Balances(1000, 95, map[], map[])],
    map[LiveKey(1, 1) := Hold(7, Buy, 10, 5), LiveKey(1, 2) := Hold(7, Buy, 9, 5)])

  lemma TwoHoldsExact()
    ensures Exact(TWO_HOLDS) && Solvent(TWO_HOLDS)
  {
    var one := map[LiveKey(1, 1) := Hold(7, Buy, 10, 5)];
    forall a, c ensures Reserved(TWO_HOLDS.accounts, a, c) == TotalClaim(TWO_HOLDS.holds, a, c) {
      TotalClaimWith(map[], LiveKey(1, 1), Hold(7, Buy, 10, 5), a, c);
      TotalClaimWith(one, LiveKey(1, 2), Hold(7, Buy, 9, 5), a, c);
      assert one[LiveKey(1, 2) := Hold(7, Buy, 9, 5)] == TWO_HOLDS.holds;
    }
  }

  lemma TwoHoldsAreOrders()
    ensures HoldsAreOrders(TWO_BIDS, TWO_HOLDS)
  {
    hide BooksOk;
    TwoBidsBooksOk();
    var s := TWO_BIDS.books[7].bids;
    forall id, o | Rests(TWO_BIDS, id, o) ensures o.Key() in TWO_HOLDS.holds && TWO_HOLDS.holds[o.Key()] == HoldFor(id, o) {
      assert o == s[0] || o == s[1];
    }
  }

  lemma TwoHoldsSound()
    ensures GateSound(GateState(TWO_BIDS, TWO_HOLDS))
  {
    hide Exact, Solvent, WellFormed, DirectoryComplete, HoldsAreOrders;
    TwoHoldsExact();
    TwoBidsWellFormed();
    TwoHoldsAreOrders();
  }

  lemma TwoBidsTaken()
    ensures TakesHeldId(1000, GateState(TWO_BIDS, TWO_HOLDS), ReplaceOrder(3, 1, 1, 2, 7, 10, 4))
  {
  }

  /** Renaming the first order to the second's id leaves 45 of cash reserved that no hold accounts for. */
  lemma ReplaceOntoHeldIdLeaksReservation()
    ensures GateSound(GateState(TWO_BIDS, TWO_HOLDS)) && Locates(TWO_BIDS)
    ensures var r := GateProcess(1000, GateState(TWO_BIDS, TWO_HOLDS), ReplaceOrder(3, 1, 1, 2, 7, 10, 4));
            && !SoundThroughout(TWO_HOLDS, r.events)
            && Reserved(r.state.ledger.accounts, 1, Money) - TotalClaim(r.state.ledger.holds, 1, Money) == 45
  {
    hide GateSound, TakesHeldId, GateProcess, SoundThroughout, Locates, TotalClaim;
    TwoHoldsSound();
    TwoBidsTaken();
    GateKeepsSound(1000, GateState(TWO_BIDS, TWO_HOLDS), ReplaceOrder(3, 1, 1, 2, 7, 10, 4));
    TwoBidsRenamed();
    TotalClaimWith(map[], LiveKey(1, 2), Hold(7, Buy, 10, 4), 1, Money);
    NothingClaimed(1, Money);
  }

  lemma NothingClaimed(a: AccountId, c: Commodity)
    ensures TotalClaim(map[], a, c) == 0
  {
  }

  /** The one hold left claims 40; the reservation of the hold it displaced is still there. */
  lemma TwoBidsRenamed()
    requires Locates(TWO_BIDS)
    ensures GateProcess(1000, GateState(TWO_BIDS, TWO_HOLDS), ReplaceOrder(3, 1, 1, 2, 7, 10, 4)).state.ledger
              == LedgerState(map[1 := Balances(1000, 85, map[], map[])], map[LiveKey(1, 2) := Hold(7, Buy, 10, 4)])
  {
    hide Process, Locates;
    var cmd := ReplaceOrder(3, 1, 1, 2, 7, 10, 4);
    TwoBidsTaken();
    TwoBidsReplaced();
    ApplyTwo(TWO_HOLDS, Process(TWO_BIDS, cmd).events);
  }

  lemma TwoBidsReplaced()
    requires Locates(TWO_BIDS)
    ensures var events := Process(TWO_BIDS, ReplaceOrder(3, 1, 1, 2, 7, 10, 4)).events;
            && |events| == 2 && events[1].BookOrderReduced?
            && events[0] == OrderReplaced(5, 3, 1, 1, 2, 1, 7, 10, 4)
  {
  }

  lemma ApplyTwo(l: LedgerState, events: seq<Event>)
    requires |events| == 2
    ensures ApplyAll(l, events) == Apply(Apply(l, events[0]), events[1])
  {
    hide Apply;
    var l' := Apply(l, events[0]);
    assert events[1..][0] == events[1] && events[1..][1..] == [];
    assert ApplyAll(l', events[1..]) == Apply(l', events[1]);
  }
}
