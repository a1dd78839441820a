/** What a client learns from its private reports: exactly which of its orders rest, and with how much left. */
module ClientViews {
  import opened ExchangeTypes
  import opened MatchingModel
  import opened MatchingInvariants
  import opened MatchingTheorems
  import opened LedgerModel
  import opened GateModel
  import opened GateTheorems
  import opened ExchangeRuns
  import opened OrderEntryCodec
  import opened GatewayRouting
  import opened FeedModel
  import opened TradePrints

  /** An account's open orders by client id, as the account itself keeps them. */
  type View = map<ClientOrderId, Hold>

  /** An order with nothing left is not open. */
  function Noted(view: View, cid: ClientOrderId, order: Hold): View {
    if order.remaining == 0 then view else view[cid := order]
  }

  /** One report taken down. An order that is not GTC never rests, so it is not noted. */
  function TakenDown(view: View, m: Message): View {
    match m
    case Accepted(_, cid, _, id, side, price, quantity, _, tif) =>
      if tif != GTC then view else Noted(view, cid, Hold(id, side, price, quantity))
    case Replaced(_, original, cid, _, id, price, quantity) =>
      if original !in view then view
      else Noted(view - {original}, cid, Hold(id, view[original].side, price, quantity))
    case Cancelled(_, cid, _, _) => view - {cid}
    case TradeReport(_, cid, _, _, _, _, left) =>
      if cid !in view then view else Noted(view - {cid}, cid, view[cid].(remaining := left))
    case _ => view
  }

  function AllTakenDown(view: View, messages: seq<Message>): View
    decreases |messages|
  {
    if messages == [] then view else AllTakenDown(TakenDown(view, messages[0]), messages[1..])
  }

  function Addressed(reports: seq<Report>, a: AccountId): seq<Message> {
    if reports == [] then []
    else (if reports[0].key.accountId == a then [reports[0].message] else []) + Addressed(reports[1..], a)
  }

  /** Everything account a is told about these events, in order. */
  function ReportsTo(events: seq<Event>, a: AccountId): seq<Message> {
    if events == [] then [] else Addressed(ReportsOf(events[0]), a) + ReportsTo(events[1..], a)
  }

  /** The view shows the account's open holds and nothing else. */
  ghost predicate ShowsHolds(view: View, holds: map<LiveKey, Hold>, a: AccountId) {
    && (forall cid :: cid in view <==> LiveKey(a, cid) in holds)
    && (forall cid :: cid in view ==> view[cid] == holds[LiveKey(a, cid)])
  }

  lemma AddressedOne(r: Report, a: AccountId)
    ensures Addressed([r], a) == if r.key.accountId == a then [r.message] else []
  {
    assert [r][1..] == [];
  }

  lemma AddressedTwo(r1: Report, r2: Report, a: AccountId)
    ensures Addressed([r1, r2], a) == Addressed([r1], a) + Addressed([r2], a)
  {
    assert [r1, r2][1..] == [r2];
    assert [r1][1..] == [];
  }

  lemma TakenDownOne(view: View, m: Message)
    ensures AllTakenDown(view, [m]) == TakenDown(view, m)
  {
    assert [m][1..] == [];
  }

  lemma {:induction false} TakenDownConcat(view: View, a: seq<Message>, b: seq<Message>)
    ensures AllTakenDown(view, a + b) == AllTakenDown(AllTakenDown(view, a), b)
    decreases |a|
  {
    if a == [] {
      assert a + b == b;
    } else {
      assert (a + b)[0] == a[0] && (a + b)[1..] == a[1..] + b;
      TakenDownConcat(TakenDown(view, a[0]), a[1..], b);
    }
  }

  /** One leg of a trade, as its account hears of it. */
  lemma LegShows(view: View, l: LedgerState, leg: Counterparty, side: Side, id: InstrumentId, price: Price,
                 quantity: Quantity, a: AccountId)
    requires ShowsHolds(view, l.holds, a)
    ensures ShowsHolds(AllTakenDown(view, Addressed([TradeReportFor(leg, id, price, quantity)], a)),
                       SettleLeg(l, leg, side, id, price, quantity).holds, a)
  {
    hide Locked, Credited, AllTakenDown, Addressed;
    AddressedOne(TradeReportFor(leg, id, price, quantity), a);
    if leg.accountId == a {
      TakenDownOne(view, TradeReportFor(leg, id, price, quantity).message);
    } else {
      NothingTaken(view);
    }
  }

  lemma NothingTaken(view: View)
    ensures AllTakenDown(view, []) == view
  {
  }

  /** Whatever happens, an account that takes its reports down keeps showing its holds. */
  lemma EventShows(view: View, l: LedgerState, ev: Event, a: AccountId)
    requires ShowsHolds(view, l.holds, a)
    ensures ShowsHolds(AllTakenDown(view, Addressed(ReportsOf(ev), a)), Apply(l, ev).holds, a)
  {
    hide Locked, Credited, AllTakenDown, Addressed;
    if ev.TradeExecuted? {
      var r1, r2 := ReportsOf(ev)[0], ReportsOf(ev)[1];
      AddressedTwo(r1, r2, a);
      TakenDownConcat(view, Addressed([r1], a), Addressed([r2], a));
      LegShows(view, l, ev.buyer, Buy, ev.instrumentId, ev.price, ev.quantity, a);
      LegShows(AllTakenDown(view, Addressed([r1], a)),
               SettleLeg(l, ev.buyer, Buy, ev.instrumentId, ev.price, ev.quantity), ev.seller, Sell, ev.instrumentId,
               ev.price, ev.quantity, a);
    } else {
      OwnEventShows(view, l, ev, a);
    }
  }

  lemma OwnEventShows(view: View, l: LedgerState, ev: Event, a: AccountId)
    requires ShowsHolds(view, l.holds, a) && !ev.TradeExecuted?
    ensures ShowsHolds(AllTakenDown(view, Addressed(ReportsOf(ev), a)), Apply(l, ev).holds, a)
  {
    hide Locked, AllTakenDown, Addressed;
    NothingTaken(view);
    if ReportsOf(ev) != [] {
      var r := ReportsOf(ev)[0];
      AddressedOne(r, a);
      TakenDownOne(view, r.message);
    } else {
      NobodyAddressed(a);
    }
  }

  lemma NobodyAddressed(a: AccountId)
    ensures Addressed([], a) == []
  {
  }

  lemma {:induction false} EventsShow(view: View, l: LedgerState, events: seq<Event>, a: AccountId)
    requires ShowsHolds(view, l.holds, a)
    ensures ShowsHolds(AllTakenDown(view, ReportsTo(events, a)), ApplyAll(l, events).holds, a)
    decreases |events|
  {
    hide ShowsHolds, AllTakenDown, Addressed, ReportsOf, Apply;
    if events == [] {
      NothingTaken(view);
    } else {
      var first := Addressed(ReportsOf(events[0]), a);
      EventShows(view, l, events[0], a);
      EventsShow(AllTakenDown(view, first), Apply(l, events[0]), events[1..], a);
      TakenDownConcat(view, first, ReportsTo(events[1..], a));
    }
  }

  lemma {:induction false} ReportsConcat(a: AccountId, first: seq<Event>, rest: seq<Event>)
    ensures ReportsTo(first + rest, a) == ReportsTo(first, a) + ReportsTo(rest, a)
    decreases |first|
  {
    hide Addressed, ReportsOf;
    if first == [] {
      assert first + rest == rest;
    } else {
      assert (first + rest)[0] == first[0] && (first + rest)[1..] == first[1..] + rest;
      ReportsConcat(a, first[1..], rest);
    }
  }

  lemma {:induction false} ViewFollows(maxOrderQuantity: Quantity, g: GateState, actions: seq<Action>, view: View,
                                       a: AccountId)
    requires WellFormed(g.engine) && ShowsHolds(view, g.ledger.holds, a)
    ensures ShowsHolds(AllTakenDown(view, ReportsTo(GateEvents(maxOrderQuantity, g, actions), a)),
                       GateRun(maxOrderQuantity, g, actions).ledger.holds, a)
    decreases |actions|
  {
    hide WellFormed, ShowsHolds, AllTakenDown, ReportsTo, GateVerdict, Process;
    if actions == [] {
      NothingTaken(view);
      NothingReported(a);
    } else {
      GateStepKeepsWellFormed(maxOrderQuantity, g, actions[0]);
      var g1 := GateStep(maxOrderQuantity, g, actions[0]);
      var first := match actions[0]
                   case Deposit(_, _, _) => []
                   case Submit(cmd) => GateProcess(maxOrderQuantity, g, cmd).events;
      EventsShow(view, g.ledger, first, a);
      assert ApplyAll(g.ledger, []) == g.ledger;
      ViewFollows(maxOrderQuantity, g1, actions[1..], AllTakenDown(view, ReportsTo(first, a)), a);
      ReportsConcat(a, first, GateEvents(maxOrderQuantity, g1, actions[1..]));
      TakenDownConcat(view, ReportsTo(first, a), ReportsTo(GateEvents(maxOrderQuantity, g1, actions[1..]), a));
    }
  }

  lemma NothingReported(a: AccountId)
    ensures ReportsTo([], a) == []
  {
  }

  /** From opening on, an account that takes down every report sent to it knows exactly which of its orders rest, on
      which instrument and side, at what limit and with how much left. */
  lemma ClientKnowsItsOrders(maxOrderQuantity: Quantity, universe: seq<InstrumentId>, actions: seq<Action>,
                             a: AccountId, cid: ClientOrderId, order: Hold)
    requires WellBehaved(maxOrderQuantity, Opened(universe), actions)
    ensures var view := AllTakenDown(map[], ReportsTo(GateEvents(maxOrderQuantity, Opened(universe), actions), a));
            (cid in view && view[cid] == order)
              <==> exists id, o :: Rests(GateRun(maxOrderQuantity, Opened(universe), actions).engine, id, o)
                                   && o.Key() == LiveKey(a, cid) && order == HoldFor(id, o)
  {
    hide WellBehaved, GateRun, GateEvents, Rests, AllTakenDown, ReportsTo, WellFormed;
    ViewFollows(maxOrderQuantity, Opened(universe), actions, map[], a);
    HoldsAreTheOrders(maxOrderQuantity, universe, actions, LiveKey(a, cid), order);
  }

  // ---------- what the reports say besides ----------

  /** The report is about the order this side of the trade belongs to, and says of the trade what the public print
      says. */
  predicate TellsOfTrade(r: Report, leg: Counterparty, m: FeedMessage) {
    && m.Trade? && r.message.TradeReport?
    && r.key == leg.Key() && r.message.accountId == leg.accountId && r.message.clientOrderId == leg.clientOrderId
    && r.message.exchangeOrderId == leg.exchangeOrderId && r.message.remainingQuantity == leg.remainingQuantity
    && r.message.instrumentId == m.instrumentId && r.message.price == m.price && r.message.quantity == m.quantity
  }

  /** Both parties to a trade are told of it, each about its own order, as the public is. */
  lemma BothPartiesTold(ev: Event, n: nat, clock: nat -> nat)
    requires ev.TradeExecuted?
    ensures var reports, prints := ReportsOf(ev), Prints(Feed([ev], n, clock));
            && |reports| == 2 && |prints| == 1
            && TellsOfTrade(reports[0], ev.buyer, prints[0])
            && TellsOfTrade(reports[1], ev.seller, prints[0])
  {
    PrintsAreTheTrades([ev], n, clock);
    assert TradesOf([ev]) == [ev] by {
      assert [ev][1..] == [];
    }
  }

  /** Any other report is one of a kind with its event, under the same id, and names the same exchange order. */
  lemma ReportsNameTheOrder(ev: Event)
    requires !ev.TradeExecuted? && ReportsOf(ev) != []
    ensures var r := ReportsOf(ev)[0]; var m := r.message;
            && |ReportsOf(ev)| == 1 && r.key.accountId == ev.accountId == m.accountId
            && m.instrumentId == ev.instrumentId
            && (ev.OrderAccepted? <==> m.Accepted?) && (ev.OrderRejected? <==> m.Rejected?)
            && (ev.OrderCancelled? <==> m.Cancelled?) && (ev.OrderReplaced? <==> m.Replaced?)
            && (if ev.OrderReplaced? then
                  r.key.clientOrderId == ev.originalClientOrderId == m.originalClientOrderId
                  && m.newClientOrderId == ev.newClientOrderId
                else r.key.clientOrderId == ev.clientOrderId == m.clientOrderId)
            && (if ev.OrderRejected? then m.reason == ev.reason else m.exchangeOrderId == ev.exchangeOrderId)
            && (ev.OrderAccepted? ==> m.orderType == ev.orderType && m.timeInForce == ev.timeInForce)
  {
  }
}
