/** Where each private report ends up, who an order belongs to, and how long it stays so. */
module GatewayDelivery {
  import opened ExchangeTypes
  import opened OrderEntryCodec
  import opened GatewayRouting

  // ---------- where a report goes ----------

  /** Session id has m behind everything it was waiting to be sent, unless its queue was full; nothing else changed. */
  predicate HandedTo(g: Gateway, g': Gateway, id: SessionId, m: Message)
    requires id in g.sessions
  {
    var waiting := g.sessions[id].outbound;
    g' == g.(sessions := g'.sessions)
    && g'.sessions == g.sessions[id := g.sessions[id].(outbound := if |waiting| < g.outboundCapacity then waiting + [m]
                                                                   else waiting)]
  }

  /** The account's retained reports are its last ones, as many as may be kept, with m the newest; nothing else
      changed. */
  ghost predicate KeptFor(g: Gateway, g': Gateway, a: AccountId, m: Message) {
    && g' == g.(pending := g'.pending)
    && (forall b :: b != a ==> Retained(g', b) == Retained(g, b))
    && (exists dropped: seq<Message> :: Retained(g, a) + [m] == dropped + Retained(g', a))
    && |Retained(g', a)| == Min(|Retained(g, a)| + 1, g.pendingCapacity)
  }

  /** The i-th session listed for the account is the first live one. */
  predicate FirstLiveAt(g: Gateway, a: AccountId, i: nat) {
    var ids := SessionsOf(g, a);
    && i < |ids| && Live(g, ids[i])
    && forall j :: 0 <= j < i ==> !Live(g, ids[j])
  }

  predicate OwnerLive(g: Gateway, k: LiveKey) {
    k in g.orderOwner && Live(g, g.orderOwner[k])
  }

  lemma {:induction false} FirstLiveFound(g: Gateway, ids: seq<SessionId>) returns (i: nat)
    requires exists j :: 0 <= j < |ids| && Live(g, ids[j])
    ensures i < |ids| && Live(g, ids[i]) && FirstLive(g, ids) == Some(ids[i])
    ensures forall j :: 0 <= j < i ==> !Live(g, ids[j])
  {
    if Live(g, ids[0]) {
      i := 0;
    } else {
      var j :| 0 <= j < |ids| && Live(g, ids[j]);
      assert Live(g, ids[1..][j - 1]);
      i := FirstLiveFound(g, ids[1..]);
      assert forall j :: 0 < j < i + 1 ==> ids[j] == ids[1..][j - 1];
      i := i + 1;
    }
  }

  /** A report goes to the order's own session while that lives; failing that, to the live session of the account that
      bound first; failing that, it is retained. */
  lemma ReportGoesTo(g: Gateway, r: Report)
    requires Inv(g)
    ensures var g' := RouteOne(g, r); var a := r.key.accountId;
            && (OwnerLive(g, r.key) ==> HandedTo(g, g', g.orderOwner[r.key], r.message))
            && (forall i: nat :: !OwnerLive(g, r.key) && FirstLiveAt(g, a, i) ==>
                  HandedTo(g, g', SessionsOf(g, a)[i], r.message))
            && (!OwnerLive(g, r.key) && AllClosed(g, a) ==> KeptFor(g, g', a, r.message))
  {
    hide Inv;
    var g', a := RouteOne(g, r), r.key.accountId;
    if !OwnerLive(g, r.key) {
      if AllClosed(g, a) {
        FirstLiveIs(g, SessionsOf(g, a));
        PendingInOrder(g, a);
        RetainKeepsLast(g, a, r.message);
        forall i: nat ensures !FirstLiveAt(g, a, i) {
          assert i < |SessionsOf(g, a)| ==> SessionsOf(g, a)[i] in SessionsOf(g, a);
        }
      } else {
        assert exists j :: 0 <= j < |SessionsOf(g, a)| && Live(g, SessionsOf(g, a)[j]);
        var first := FirstLiveFound(g, SessionsOf(g, a));
        forall i: nat | FirstLiveAt(g, a, i) ensures i == first {}
      }
    }
  }

  lemma PendingInOrder(g: Gateway, a: AccountId)
    requires Inv(g)
    ensures |Retained(g, a)| <= g.pendingCapacity
  {
  }

  lemma RetainKeepsLast(g: Gateway, a: AccountId, m: Message)
    requires |Retained(g, a)| <= g.pendingCapacity
    ensures KeptFor(g, Retain(g, a, m), a, m)
  {
    var g' := Retain(g, a, m);
    var all := Retained(g, a) + [m];
    var n := |all| - |Retained(g', a)|;
    assert all == all[..n] + all[n..];
    assert all[n..] == Retained(g', a);
  }

  /** The next session of an account to bind is handed everything retained for it, oldest first, and nothing stays
      retained. */
  lemma BindHandsOver(g: Gateway, id: SessionId, a: AccountId)
    requires Enabled(g, Bind(id, a))
    ensures var g' := Next(g, Bind(id, a));
            && g'.sessions[id].backlog == Retained(g, a) && g'.sessions[id].bound == Some(a)
            && Retained(g', a) == []
            && (forall b :: b != a ==> Retained(g', b) == Retained(g, b))
            && SessionsOf(g', a) == SessionsOf(g, a) + [id]
            && (forall x :: x in g.sessions && x != id ==> g'.sessions[x] == g.sessions[x])
  {
  }

  lemma {:induction false} RoutingSparesClosed(g: Gateway, reports: seq<Report>, id: SessionId)
    requires id in g.sessions && !Live(g, id)
    ensures id in RouteAll(g, reports).sessions && RouteAll(g, reports).sessions[id] == g.sessions[id]
    decreases |reports|
  {
    if reports != [] {
      FirstLiveIs(g, SessionsOf(g, reports[0].key.accountId));
      RoutingSparesClosed(RouteOne(g, reports[0]), reports[1..], id);
    }
  }

  /** A closed session never comes back and is handed nothing more: what waits for it can only be written out, from the
      front. */
  lemma ClosedHearsNoMore(g: Gateway, step: Step, id: SessionId)
    requires Enabled(g, step) && id in g.sessions && !Live(g, id)
    ensures var g' := Next(g, step);
            && id in g'.sessions && !Live(g', id)
            && var s, s' := g.sessions[id], g'.sessions[id];
            && (s'.outbound == s.outbound || (s.outbound != [] && s'.outbound == s.outbound[1..]))
            && (s'.backlog == s.backlog || (s.backlog != [] && s'.backlog == s.backlog[1..]))
  {
    if step.Route? {
      RoutingSparesClosed(g, ReportsOf(step.event), id);
    }
  }

  /** Closing a session closes that one. */
  lemma CloseCloses(g: Gateway, id: SessionId)
    requires Enabled(g, Close(id))
    ensures !Live(Next(g, Close(id)), id)
    ensures forall x :: x != id ==> (Live(Next(g, Close(id)), x) <==> Live(g, x))
  {
  }

  // ---------- whose an order is ----------

  /** A leg of the trade leaves nothing of the order under k. */
  predicate Finishes(ev: Event, k: LiveKey) {
    && ev.TradeExecuted?
    && ((ev.buyer.Key() == k && ev.buyer.remainingQuantity == 0)
        || (ev.seller.Key() == k && ev.seller.remainingQuantity == 0))
  }

  /** The step is one after which the order under k no longer belongs to the session it belonged to. */
  predicate LosesOwner(g: Gateway, step: Step, k: LiveKey)
    requires k in g.orderOwner
  {
    match step
    case Unbind(id) => id == g.orderOwner[k]
    case Route(ev, stillHeld) =>
      || (ev.OrderRejected? && LiveKey(ev.accountId, ev.clientOrderId) == k && !stillHeld)
      || (ev.OrderCancelled? && LiveKey(ev.accountId, ev.clientOrderId) == k)
      || (ev.OrderReplaced? && LiveKey(ev.accountId, ev.originalClientOrderId) == k)
      || (ev.OrderReplaced? && LiveKey(ev.accountId, ev.newClientOrderId) == k
          && LiveKey(ev.accountId, ev.originalClientOrderId) in g.orderOwner
          && g.orderOwner[LiveKey(ev.accountId, ev.originalClientOrderId)] != g.orderOwner[k])
      || Finishes(ev, k)
    case _ => false
  }

  lemma {:induction false} RoutingKeepsOwners(g: Gateway, reports: seq<Report>)
    ensures RouteAll(g, reports).orderOwner == g.orderOwner
    decreases |reports|
  {
    if reports != [] {
      RoutingKeepsOwners(RouteOne(g, reports[0]), reports[1..]);
    }
  }

  /** An order stays with the session that placed it, whoever else sends commands for it, exactly until that session
      unbinds, the order is rejected with nothing held, cancelled, filled or replaced, or another session's order is
      replaced under its id. */
  lemma OwnerKeptExactly(g: Gateway, step: Step, k: LiveKey)
    requires Inv(g) && Enabled(g, step) && k in g.orderOwner
    ensures var g' := Next(g, step);
            (k in g'.orderOwner && g'.orderOwner[k] == g.orderOwner[k]) <==> !LosesOwner(g, step, k)
  {
    hide SessionsOk, ListsOk, PendingOk, UpdateOwnership, ReportsOf, RouteAll;
    match step
    case Unbind(id) => assert BoundTo(g, g.orderOwner[k], k.accountId);
    case Route(ev, stillHeld) =>
      RoutingKeepsOwners(g, ReportsOf(ev));
      OwnerUpdated(g, ev, stillHeld, k);
    case _ =>
  }

  lemma OwnerUpdated(g: Gateway, ev: Event, stillHeld: bool, k: LiveKey)
    requires k in g.orderOwner
    ensures var owner' := UpdateOwnership(g.orderOwner, ev, stillHeld);
            (k in owner' && owner'[k] == g.orderOwner[k]) <==> !LosesOwner(g, Route(ev, stillHeld), k)
    ensures ReportsOf(ev) == [] ==> !LosesOwner(g, Route(ev, stillHeld), k)
  {
  }

  /** A session's first claim to an id nobody owns makes the id its own, and touches no other. */
  lemma ClaimTakesFree(g: Gateway, id: SessionId, cid: ClientOrderId)
    requires Enabled(g, Claim(id, cid))
    ensures var key := LiveKey(g.sessions[id].bound.value, cid); var owner' := Next(g, Claim(id, cid)).orderOwner;
            && key in owner' && (key !in g.orderOwner ==> owner'[key] == id)
            && (forall k :: k != key ==> (k in owner' <==> k in g.orderOwner))
            && (forall k :: k in g.orderOwner ==> owner'[k] == g.orderOwner[k])
  {
  }

  /** A replaced order stays with its session under the new id exactly when that is not the old id. */
  lemma ReplacedOrderStaysExactly(g: Gateway, ev: Event, stillHeld: bool)
    requires ev.OrderReplaced? && LiveKey(ev.accountId, ev.originalClientOrderId) in g.orderOwner
    ensures var owner' := Next(g, Route(ev, stillHeld)).orderOwner;
            var old', new' := LiveKey(ev.accountId, ev.originalClientOrderId), LiveKey(ev.accountId, ev.newClientOrderId);
            && (new' in owner' <==> ev.newClientOrderId != ev.originalClientOrderId)
            && (new' in owner' ==> owner'[new'] == g.orderOwner[old'])
            && old' !in owner'
  {
    RoutingKeepsOwners(g, ReportsOf(ev));
  }

  /** No step of the run takes the order under k from its session. */
  ghost predicate NeverLost(g: Gateway, steps: seq<Step>, k: LiveKey)
    requires Inv(g) && Schedule(g, steps) && k in g.orderOwner
    decreases |steps|
  {
    steps == [] || (!LosesOwner(g, steps[0], k)
                    && (StepKeeps(g, steps[0]);
                        OwnerKeptExactly(g, steps[0], k);
                        NeverLost(Next(g, steps[0]), steps[1..], k)))
  }

  /** Until then every report about the order goes to the session that placed it, however many others are bound. */
  lemma {:induction false} ReportsFollowTheOrder(g: Gateway, steps: seq<Step>, r: Report)
    requires Inv(g) && Schedule(g, steps) && r.key in g.orderOwner && NeverLost(g, steps, r.key)
    ensures var after := After(g, steps); var owner := g.orderOwner[r.key];
            Live(after, owner) ==> HandedTo(after, RouteOne(after, r), owner, r.message)
    decreases |steps|
  {
    hide Next, Inv, Enabled, HandedTo, RouteOne, LosesOwner;
    if steps == [] {
      ReportGoesTo(g, r);
    } else {
      StepKeeps(g, steps[0]);
      OwnerKeptExactly(g, steps[0], r.key);
      ReportsFollowTheOrder(Next(g, steps[0]), steps[1..], r);
    }
  }

  /** Sessions 2 and 1 of account 1 are bound, in that order, and session 1 has placed the order under id 5. */
  const TWO_SESSIONS := Gateway(
    map[1 := NEW_SESSION.(bound := Some(1)), 2 := NEW_SESSION.(bound := Some(1))],
    map[1 := [2, 1]], map[], map[LiveKey(1, 5) := 1], 8, 8)

  const PLACED: seq<Step> := [Connect(1), Connect(2), Bind(2, 1), Bind(1, 1), Claim(1, 5)]

  lemma PlacedByTheSecond()
    ensures Schedule(Init(8, 8), PLACED) && After(Init(8, 8), PLACED) == TWO_SESSIONS
  {
    var g0 := Init(8, 8);
    var g1 := Next(g0, PLACED[0]);
    var g2 := Next(g1, PLACED[1]);
    var g3 := Next(g2, PLACED[2]);
    var g4 := Next(g3, PLACED[3]);
    var g5 := Next(g4, PLACED[4]);
    assert SessionsOf(g2, 1) == [] && [] + [2] == [2] && SessionsOf(g3, 1) == [2] && [2] + [1] == [2, 1];
    assert g5.sessions == TWO_SESSIONS.sessions && g5.accountSessions == TWO_SESSIONS.accountSessions;
    assert g5.pending == map[] && g5.orderOwner == TWO_SESSIONS.orderOwner;
    assert PLACED[1..][1..][1..][1..][1..] == [];
    assert After(g4, PLACED[4..]) == g5;
    assert PLACED[3..][1..] == PLACED[4..] && PLACED[2..][1..] == PLACED[3..] && PLACED[1..][1..] == PLACED[2..];
  }

  const RENAMED_TO_ITSELF := OrderReplaced(10, 3, 1, 5, 5, 9, 7, 100, 4)

  /** Account 3 sells 2 of the 4 the order is for. */
  const FILLED_NEXT := TradeExecuted(12, 4, 7, 100, 2, Sell, Counterparty(1, 5, 9, 2), Counterparty(3, 8, 10, 0))

  /** Session 1 has been told of the replace, and nobody owns the order. */
  const OWNERLESS := TWO_SESSIONS.(
    sessions := TWO_SESSIONS.sessions[1 := TWO_SESSIONS.sessions[1].(outbound := [Replaced(1, 5, 5, 9, 7, 100, 4)])],
    orderOwner := map[])

  /** Session 2 has been told of the fill, and account 3, which is not connected, will be. */
  const TOLD_ANOTHER := OWNERLESS.(
    sessions := OWNERLESS.sessions[2 := OWNERLESS.sessions[2].(outbound := [TradeReport(1, 5, 9, 7, 100, 2, 2)])],
    pending := map[3 := [TradeReport(3, 8, 10, 7, 100, 2, 0)]])

  lemma RouteJustOne(g: Gateway, r: Report)
    ensures RouteAll(g, [r]) == RouteOne(g, r)
  {
    hide RouteOne;
    assert [r][1..] == [];
    assert RouteAll(RouteOne(g, r), []) == RouteOne(g, r);
  }

  lemma ReplaceLosesIt()
    ensures Next(TWO_SESSIONS, Route(RENAMED_TO_ITSELF, false)) == OWNERLESS
  {
    hide RouteAll;
    var r := ReportsOf(RENAMED_TO_ITSELF)[0];
    RouteJustOne(TWO_SESSIONS, r);
    assert ReportsOf(RENAMED_TO_ITSELF) == [r];
    assert RouteOne(TWO_SESSIONS, r).sessions == OWNERLESS.sessions by {
      assert [] + [r.message] == [r.message];
    }
    assert UpdateOwnership(TWO_SESSIONS.orderOwner, RENAMED_TO_ITSELF, false) == map[];
  }

  lemma RouteJustTwo(g: Gateway, r1: Report, r2: Report)
    ensures RouteAll(g, [r1, r2]) == RouteOne(RouteOne(g, r1), r2)
  {
    hide RouteOne;
    assert [r1, r2][1..] == [r2];
    RouteJustOne(RouteOne(g, r1), r2);
  }

  lemma FillToldToAnother() returns (g: Gateway)
    ensures g == OWNERLESS.(sessions := TOLD_ANOTHER.sessions)
    ensures g == RouteOne(OWNERLESS, ReportsOf(FILLED_NEXT)[0])
  {
    var r := ReportsOf(FILLED_NEXT)[0];
    g := RouteOne(OWNERLESS, r);
    assert FirstLive(OWNERLESS, [2, 1]) == Some(2);
    assert g.sessions == TOLD_ANOTHER.sessions by {
      assert [] + [r.message] == [r.message];
    }
  }

  lemma FillGoesElsewhere()
    ensures Next(OWNERLESS, Route(FILLED_NEXT, false)) == TOLD_ANOTHER
  {
    hide RouteAll;
    var reports := ReportsOf(FILLED_NEXT);
    RouteJustTwo(OWNERLESS, reports[0], reports[1]);
    assert reports == [reports[0], reports[1]];
    var g := FillToldToAnother();
    assert RouteOne(g, reports[1]) == TOLD_ANOTHER by {
      assert SessionsOf(g, 3) == [] && Retained(g, 3) == [];
      assert [] + [reports[1].message] == [reports[1].message];
    }
    assert UpdateOwnership(map[], FILLED_NEXT, false) == map[];
  }

  /** A replace that keeps its id is accepted like any other, and takes the order away from the live session that placed
      it: the session is told of the replace, but the fill that follows is reported to another session. */
  lemma ReplaceUnderItsOwnIdLosesOwner()
    ensures Schedule(Init(8, 8), PLACED) && After(Init(8, 8), PLACED) == TWO_SESSIONS
    ensures Next(TWO_SESSIONS, Route(RENAMED_TO_ITSELF, false)) == OWNERLESS
    ensures Next(OWNERLESS, Route(FILLED_NEXT, false)) == TOLD_ANOTHER && Live(TOLD_ANOTHER, 1)
  {
    hide Next;
    PlacedByTheSecond();
    ReplaceLosesIt();
    FillGoesElsewhere();
  }
}
