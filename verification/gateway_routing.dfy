/** Who may be sent what. Everything done while the routing maps are locked counts as
    one step; the threads of the sessions and the one that matches take their steps in any order at all. */
module GatewayRouting {
  import opened ExchangeTypes
  import opened OrderEntryCodec

  type SessionId = nat

  /** How far a session's reader thread is: reading requests, past setting `closed`, or past unbinding. */
  datatype ReaderPc = Reading | Closing | Gone

  datatype Session = Session(
    bound: Option<AccountId>,
    reader: ReaderPc,
    outbound: seq<Message>,
    backlog: seq<Message>)
  {
    /** The flag the matching thread reads. */
    predicate Closed() {
      !reader.Reading?
    }
  }

  const NEW_SESSION := Session(None, Reading, [], [])

  datatype Gateway = Gateway(
    sessions: map<SessionId, Session>,
    accountSessions: map<AccountId, seq<SessionId>>,
    pending: map<AccountId, seq<Message>>,
    orderOwner: map<LiveKey, SessionId>,
    outboundCapacity: nat,
    pendingCapacity: nat)

  datatype Step =
    | Connect(id: SessionId)
    | Bind(id: SessionId, account: AccountId)
    | Claim(id: SessionId, clientOrderId: ClientOrderId)
    | Close(id: SessionId)
    | Unbind(id: SessionId)
    | Route(event: Event, stillHeld: bool)
    | WriteBacklog(id: SessionId)
    | WriteOutbound(id: SessionId)

  function Init(outboundCapacity: nat, pendingCapacity: nat): Gateway {
    Gateway(map[], map[], map[], map[], outboundCapacity, pendingCapacity)
  }

  // ---------- reports ----------

  datatype Report = Report(key: LiveKey, message: Message)

  function TradeReportFor(c: Counterparty, id: InstrumentId, price: Price, quantity: Quantity): Report {
    Report(c.Key(), TradeReport(c.accountId, c.clientOrderId, c.exchangeOrderId, id, price, quantity, c.remainingQuantity))
  }

  /** Book events are anonymous; every other event is private to the account, or the two accounts, it names. */
  function ReportsOf(ev: Event): seq<Report> {
    match ev
    case OrderAccepted(_, _, a, cid, eid, id, side, price, quantity, t, tif) =>
      [Report(LiveKey(a, cid), Accepted(a, cid, eid, id, side, price, quantity, t, tif))]
    case OrderRejected(_, _, a, cid, id, reason) => [Report(LiveKey(a, cid), Rejected(a, cid, id, reason))]
    case OrderCancelled(_, _, a, cid, eid, id) => [Report(LiveKey(a, cid), Cancelled(a, cid, eid, id))]
    case OrderReplaced(_, _, a, original, cid, eid, id, price, quantity) =>
      [Report(LiveKey(a, original), Replaced(a, original, cid, eid, id, price, quantity))]
    case TradeExecuted(_, _, id, price, quantity, _, buyer, seller) =>
      [TradeReportFor(buyer, id, price, quantity), TradeReportFor(seller, id, price, quantity)]
    case _ => []
  }

  // ---------- steps ----------

  predicate Enabled(g: Gateway, step: Step) {
    match step
    case Connect(id) => id !in g.sessions
    case Bind(id, _) => id in g.sessions && g.sessions[id].reader.Reading? && g.sessions[id].bound.None?
    case Claim(id, _) => id in g.sessions && g.sessions[id].reader.Reading? && g.sessions[id].bound.Some?
    case Close(id) => id in g.sessions && g.sessions[id].reader.Reading?
    case Unbind(id) => id in g.sessions && g.sessions[id].reader.Closing?
    case Route(_, _) => true
    case WriteBacklog(id) => id in g.sessions && g.sessions[id].backlog != []
    case WriteOutbound(id) => id in g.sessions && g.sessions[id].outbound != []
  }

  function SessionsOf(g: Gateway, a: AccountId): seq<SessionId> {
    if a in g.accountSessions then g.accountSessions[a] else []
  }

  function Retained(g: Gateway, a: AccountId): seq<Message> {
    if a in g.pending then g.pending[a] else []
  }

  predicate Live(g: Gateway, id: SessionId) {
    id in g.sessions && !g.sessions[id].Closed()
  }

  function FirstLive(g: Gateway, ids: seq<SessionId>): Option<SessionId> {
    if ids == [] then None else if Live(g, ids[0]) then Some(ids[0]) else FirstLive(g, ids[1..])
  }

  /** A full queue drops the message. */
  function Deliver(g: Gateway, id: SessionId, m: Message): Gateway
    requires id in g.sessions
  {
    var s := g.sessions[id];
    if |s.outbound| >= g.outboundCapacity then g
    else g.(sessions := g.sessions[id := s.(outbound := s.outbound + [m])])
  }

  /** Held for the next session of the account; past the capacity the oldest goes. */
  function Retain(g: Gateway, a: AccountId, m: Message): Gateway {
    if g.pendingCapacity == 0 then g
    else
      var kept := if |Retained(g, a)| >= g.pendingCapacity then Retained(g, a)[1..] else Retained(g, a);
      g.(pending := g.pending[a := kept + [m]])
  }

  /** To the order's owner while that lives; failing that to the first live session listed; failing that into store. */
  function RouteOne(g: Gateway, r: Report): Gateway {
    if r.key in g.orderOwner && Live(g, g.orderOwner[r.key]) then Deliver(g, g.orderOwner[r.key], r.message)
    else
      var other := FirstLive(g, SessionsOf(g, r.key.accountId));
      if other.Some? && other.value in g.sessions then Deliver(g, other.value, r.message)
      else Retain(g, r.key.accountId, r.message)
  }

  function RouteAll(g: Gateway, reports: seq<Report>): Gateway
    decreases |reports|
  {
    if reports == [] then g else RouteAll(RouteOne(g, reports[0]), reports[1..])
  }

  /** The ownership record follows the order: away when it is gone, along when it is renamed. */
  function UpdateOwnership(owner: map<LiveKey, SessionId>, ev: Event, stillHeld: bool): map<LiveKey, SessionId> {
    match ev
    case OrderRejected(_, _, a, cid, _, _) => if stillHeld then owner else owner - {LiveKey(a, cid)}
    case OrderCancelled(_, _, a, cid, _, _) => owner - {LiveKey(a, cid)}
    case OrderReplaced(_, _, a, original, cid, _, _, _, _) =>
      if LiveKey(a, original) !in owner then owner
      else owner[LiveKey(a, cid) := owner[LiveKey(a, original)]] - {LiveKey(a, original)}
    case TradeExecuted(_, _, _, _, _, _, buyer, seller) =>
      owner - (if buyer.remainingQuantity == 0 then {buyer.Key()} else {})
            - (if seller.remainingQuantity == 0 then {seller.Key()} else {})
    case _ => owner
  }

  function WithoutSession(ids: seq<SessionId>, id: SessionId): seq<SessionId> {
    if ids == [] then []
    else (if ids[0] == id then [] else [ids[0]]) + WithoutSession(ids[1..], id)
  }

  function Next(g: Gateway, step: Step): Gateway
    requires Enabled(g, step)
  {
    match step
    case Connect(id) => g.(sessions := g.sessions[id := NEW_SESSION])
    case Bind(id, a) =>
      g.(sessions := g.sessions[id := g.sessions[id].(bound := Some(a), backlog := Retained(g, a))],
         accountSessions := g.accountSessions[a := SessionsOf(g, a) + [id]],
         pending := g.pending - {a})
    case Claim(id, cid) =>
      var key := LiveKey(g.sessions[id].bound.value, cid);
      if key in g.orderOwner then g else g.(orderOwner := g.orderOwner[key := id])
    case Close(id) => g.(sessions := g.sessions[id := g.sessions[id].(reader := Closing)])
    case Unbind(id) =>
      var gone := g.(sessions := g.sessions[id := g.sessions[id].(reader := Gone)]);
      if g.sessions[id].bound.None? then gone
      else
        var a := g.sessions[id].bound.value;
        var left := WithoutSession(SessionsOf(g, a), id);
        gone.(accountSessions := if left == [] then g.accountSessions - {a} else g.accountSessions[a := left],
              orderOwner := map k | k in g.orderOwner && g.orderOwner[k] != id :: g.orderOwner[k])
    case Route(ev, stillHeld) =>
      if ReportsOf(ev) == [] then g
      else
        var routed := RouteAll(g, ReportsOf(ev));
        routed.(orderOwner := UpdateOwnership(routed.orderOwner, ev, stillHeld))
    case WriteBacklog(id) =>
      g.(sessions := g.sessions[id := g.sessions[id].(backlog := g.sessions[id].backlog[1..])])
    case WriteOutbound(id) =>
      g.(sessions := g.sessions[id := g.sessions[id].(outbound := g.sessions[id].outbound[1..])])
  }

  // ---------- invariant ----------

  ghost predicate AllFor(messages: seq<Message>, a: AccountId) {
    forall m :: m in messages ==> m.accountId == a
  }

  /** Whatever waits for a session names the account that session is bound to. */
  ghost predicate MailOk(s: Session) {
    match s.bound
    case None => s.outbound == [] && s.backlog == []
    case Some(a) => AllFor(s.outbound, a) && AllFor(s.backlog, a)
  }

  ghost predicate SessionsOk(g: Gateway) {
    forall id :: id in g.sessions ==> MailOk(g.sessions[id])
  }

  /** A session still bound to account a. */
  predicate BoundTo(g: Gateway, id: SessionId, a: AccountId) {
    id in g.sessions && g.sessions[id].bound == Some(a) && !g.sessions[id].reader.Gone?
  }

  ghost predicate ListsOk(g: Gateway) {
    forall a, id :: id in SessionsOf(g, a) ==> BoundTo(g, id, a)
  }

  ghost predicate OwnersOk(g: Gateway) {
    forall k :: k in g.orderOwner ==> BoundTo(g, g.orderOwner[k], k.accountId)
  }

  /** Reports are retained for the right account, within capacity, and only while every session listed for it is
      closed. */
  ghost predicate PendingOk(g: Gateway) {
    forall a :: a in g.pending ==>
      && AllFor(g.pending[a], a) && |g.pending[a]| <= g.pendingCapacity
      && AllClosed(g, a)
  }

  ghost predicate AllClosed(g: Gateway, a: AccountId) {
    forall id :: id in SessionsOf(g, a) ==> !Live(g, id)
  }

  ghost predicate Inv(g: Gateway) {
    SessionsOk(g) && ListsOk(g) && OwnersOk(g) && PendingOk(g)
  }

  // ---------- routing ----------

  lemma {:induction false} FirstLiveIs(g: Gateway, ids: seq<SessionId>)
    ensures FirstLive(g, ids).Some? ==> FirstLive(g, ids).value in ids && Live(g, FirstLive(g, ids).value)
    ensures FirstLive(g, ids).None? ==> forall id :: id in ids ==> !Live(g, id)
  {
    if ids != [] {
      FirstLiveIs(g, ids[1..]);
      assert ids == [ids[0]] + ids[1..];
    }
  }

  lemma DeliverKeeps(g: Gateway, id: SessionId, a: AccountId, m: Message)
    requires Inv(g) && BoundTo(g, id, a) && m.accountId == a
    ensures Inv(Deliver(g, id, m))
  {
    var g' := Deliver(g, id, m);
    SameRouting(g, g');
  }

  /** Only mailboxes changed. */
  lemma SameRouting(g: Gateway, g': Gateway)
    requires ListsOk(g) && OwnersOk(g) && PendingOk(g)
    requires g'.accountSessions == g.accountSessions && g'.orderOwner == g.orderOwner && g'.pending == g.pending
    requires g'.pendingCapacity == g.pendingCapacity && g'.sessions.Keys == g.sessions.Keys
    requires forall id :: id in g.sessions ==>
               g'.sessions[id].bound == g.sessions[id].bound && g'.sessions[id].reader == g.sessions[id].reader
    ensures ListsOk(g') && OwnersOk(g') && PendingOk(g')
  {
    forall id ensures (Live(g', id) <==> Live(g, id)) && forall a :: BoundTo(g', id, a) <==> BoundTo(g, id, a) {
      assert id in g'.sessions.Keys <==> id in g.sessions.Keys;
    }
    forall a, id | id in SessionsOf(g', a) ensures BoundTo(g', id, a) {
      assert id in SessionsOf(g, a);
      assert BoundTo(g, id, a);
    }
    forall k | k in g'.orderOwner ensures BoundTo(g', g'.orderOwner[k], k.accountId) {
      assert BoundTo(g, g.orderOwner[k], k.accountId);
    }
    forall a | a in g'.pending ensures AllClosed(g', a) {
      assert AllClosed(g, a);
    }
  }

  lemma RetainKeeps(g: Gateway, a: AccountId, m: Message)
    requires Inv(g) && m.accountId == a && AllClosed(g, a)
    ensures Inv(Retain(g, a, m))
  {
    hide MailOk;
    var g' := Retain(g, a, m);
    forall x ensures AllClosed(g, x) <==> AllClosed(g', x) {
      assert forall id :: Live(g', id) <==> Live(g, id);
    }
    forall x, id | id in SessionsOf(g', x) ensures BoundTo(g', id, x) {
      assert BoundTo(g, id, x);
    }
    forall k | k in g'.orderOwner ensures BoundTo(g', g'.orderOwner[k], k.accountId) {
      assert BoundTo(g, g.orderOwner[k], k.accountId);
    }
  }

  lemma RouteOneKeeps(g: Gateway, r: Report)
    requires Inv(g) && r.message.accountId == r.key.accountId
    ensures Inv(RouteOne(g, r))
  {
    hide SessionsOk, PendingOk;
    FirstLiveIs(g, SessionsOf(g, r.key.accountId));
    if r.key in g.orderOwner && Live(g, g.orderOwner[r.key]) {
      assert BoundTo(g, g.orderOwner[r.key], r.key.accountId);
      DeliverKeeps(g, g.orderOwner[r.key], r.key.accountId, r.message);
    } else {
      var other := FirstLive(g, SessionsOf(g, r.key.accountId));
      if other.Some? {
        assert BoundTo(g, other.value, r.key.accountId);
        DeliverKeeps(g, other.value, r.key.accountId, r.message);
      } else {
        RetainKeeps(g, r.key.accountId, r.message);
      }
    }
  }

  lemma {:induction false} RouteAllKeeps(g: Gateway, reports: seq<Report>)
    requires Inv(g) && forall r :: r in reports ==> r.message.accountId == r.key.accountId
    ensures Inv(RouteAll(g, reports))
    decreases |reports|
  {
    hide Inv, RouteOne;
    if reports != [] {
      assert reports[0] in reports;
      RouteOneKeeps(g, reports[0]);
      RouteAllKeeps(RouteOne(g, reports[0]), reports[1..]);
    }
  }

  /** Every report names the account it is addressed to. */
  lemma ReportsAddressed(ev: Event)
    ensures forall r :: r in ReportsOf(ev) ==> r.message.accountId == r.key.accountId
  {
  }

  lemma OwnershipKeeps(g: Gateway, ev: Event, stillHeld: bool)
    requires Inv(g)
    ensures Inv(g.(orderOwner := UpdateOwnership(g.orderOwner, ev, stillHeld)))
  {
    hide MailOk;
    var g' := g.(orderOwner := UpdateOwnership(g.orderOwner, ev, stillHeld));
    assert forall id :: Live(g', id) <==> Live(g, id);
    forall k | k in g'.orderOwner ensures BoundTo(g', g'.orderOwner[k], k.accountId) {
      if ev.OrderReplaced? && k == LiveKey(ev.accountId, ev.newClientOrderId)
         && LiveKey(ev.accountId, ev.originalClientOrderId) in g.orderOwner {
        assert BoundTo(g, g.orderOwner[LiveKey(ev.accountId, ev.originalClientOrderId)], k.accountId);
      } else {
        assert BoundTo(g, g.orderOwner[k], k.accountId);
      }
    }
    forall a, id | id in SessionsOf(g', a) ensures BoundTo(g', id, a) {
      assert BoundTo(g, id, a);
    }
    forall a | a in g'.pending ensures AllClosed(g', a) {
      assert AllClosed(g, a);
    }
  }

  // ---------- every step ----------

  lemma ConnectKeeps(g: Gateway, id: SessionId)
    requires Inv(g) && Enabled(g, Connect(id))
    ensures Inv(Next(g, Connect(id)))
  {
    hide AllFor;
    var g' := Next(g, Connect(id));
    forall a, x | x in SessionsOf(g', a) ensures BoundTo(g', x, a) {
      assert x in SessionsOf(g, a);
      assert BoundTo(g, x, a);
    }
    forall k | k in g'.orderOwner ensures BoundTo(g', g'.orderOwner[k], k.accountId) {
      assert BoundTo(g, g.orderOwner[k], k.accountId);
    }
    forall a | a in g'.pending ensures AllClosed(g', a) {
      assert AllClosed(g, a);
      forall x | x in SessionsOf(g', a) ensures !Live(g', x) {
        assert BoundTo(g, x, a) && !Live(g, x);
      }
    }
  }

  lemma BindKeeps(g: Gateway, id: SessionId, a: AccountId)
    requires Inv(g) && Enabled(g, Bind(id, a))
    ensures Inv(Next(g, Bind(id, a)))
  {
    var g' := Next(g, Bind(id, a));
    assert a in g.pending ==> AllFor(g.pending[a], a);
    forall x, b | x in SessionsOf(g', b) ensures BoundTo(g', x, b) {
      if x in SessionsOf(g, b) {
        assert BoundTo(g, x, b);
      }
    }
    forall k | k in g'.orderOwner ensures BoundTo(g', g'.orderOwner[k], k.accountId) {
      assert BoundTo(g, g.orderOwner[k], k.accountId);
    }
    forall b | b in g'.pending ensures AllClosed(g', b) && AllFor(g'.pending[b], b) {
      assert AllClosed(g, b);
      forall x | x in SessionsOf(g', b) ensures !Live(g', x) {
        assert x in SessionsOf(g, b) && BoundTo(g, x, b) && !Live(g, x);
      }
    }
  }

  lemma ClaimKeeps(g: Gateway, id: SessionId, cid: ClientOrderId)
    requires Inv(g) && Enabled(g, Claim(id, cid))
    ensures Inv(Next(g, Claim(id, cid)))
  {
    hide MailOk, AllFor;
    var g' := Next(g, Claim(id, cid));
    forall a, x | x in SessionsOf(g', a) ensures BoundTo(g', x, a) {
      assert BoundTo(g, x, a);
    }
    forall k | k in g'.orderOwner ensures BoundTo(g', g'.orderOwner[k], k.accountId) {
      assert k in g.orderOwner ==> BoundTo(g, g.orderOwner[k], k.accountId);
    }
    forall a | a in g'.pending ensures AllClosed(g', a) {
      assert AllClosed(g, a);
      forall x | x in SessionsOf(g', a) ensures !Live(g', x) {
        assert x in SessionsOf(g, a) && !Live(g, x);
      }
    }
  }

  lemma CloseKeeps(g: Gateway, id: SessionId)
    requires Inv(g) && Enabled(g, Close(id))
    ensures Inv(Next(g, Close(id)))
  {
    hide AllFor;
    var g' := Next(g, Close(id));
    forall a, x | x in SessionsOf(g', a) ensures BoundTo(g', x, a) {
      assert BoundTo(g, x, a);
    }
    forall k | k in g'.orderOwner ensures BoundTo(g', g'.orderOwner[k], k.accountId) {
      assert BoundTo(g, g.orderOwner[k], k.accountId);
    }
    forall a | a in g'.pending ensures AllClosed(g', a) {
      assert AllClosed(g, a);
      forall x | x in SessionsOf(g', a) ensures !Live(g', x) {
        assert !Live(g, x);
      }
    }
  }

  lemma {:induction false} WithoutSessionReads(ids: seq<SessionId>, id: SessionId)
    ensures forall x :: x in WithoutSession(ids, id) <==> x in ids && x != id
  {
    if ids != [] {
      WithoutSessionReads(ids[1..], id);
      assert ids == [ids[0]] + ids[1..];
    }
  }

  lemma UnbindKeeps(g: Gateway, id: SessionId)
    requires Inv(g) && Enabled(g, Unbind(id))
    ensures Inv(Next(g, Unbind(id)))
  {
    hide AllFor;
    var g' := Next(g, Unbind(id));
    forall b ensures forall x :: x in SessionsOf(g', b) <==> x in SessionsOf(g, b) && x != id {
      UnbindLists(g, id, b);
    }
    forall a, x | x in SessionsOf(g', a) ensures BoundTo(g', x, a) {
      assert BoundTo(g, x, a);
    }
    forall k | k in g'.orderOwner ensures BoundTo(g', g'.orderOwner[k], k.accountId) {
      assert BoundTo(g, g.orderOwner[k], k.accountId);
    }
    forall a | a in g'.pending ensures AllClosed(g', a) {
      assert AllClosed(g, a);
      forall x | x in SessionsOf(g', a) ensures !Live(g', x) {
        assert !Live(g, x);
      }
    }
  }

  /** Unbinding takes the session out of every account's list; it was in its own account's only. */
  lemma UnbindLists(g: Gateway, id: SessionId, b: AccountId)
    requires ListsOk(g) && Enabled(g, Unbind(id))
    ensures forall x :: x in SessionsOf(Next(g, Unbind(id)), b) <==> x in SessionsOf(g, b) && x != id
  {
    WithoutSessionReads(SessionsOf(g, b), id);
    if id in SessionsOf(g, b) {
      assert BoundTo(g, id, b);
    }
  }

  lemma WriteKeeps(g: Gateway, step: Step)
    requires Inv(g) && Enabled(g, step) && (step.WriteBacklog? || step.WriteOutbound?)
    ensures Inv(Next(g, step))
  {
    SameRouting(g, Next(g, step));
    assert MailOk(g.sessions[step.id]);
  }

  lemma StepKeeps(g: Gateway, step: Step)
    requires Inv(g) && Enabled(g, step)
    ensures Inv(Next(g, step))
  {
    hide Inv, Enabled, RouteAll, UpdateOwnership, ReportsOf;
    match step
    case Connect(id) => ConnectKeeps(g, id);
    case Bind(id, a) => BindKeeps(g, id, a);
    case Claim(id, cid) => ClaimKeeps(g, id, cid);
    case Close(id) => CloseKeeps(g, id);
    case Unbind(id) => UnbindKeeps(g, id);
    case Route(ev, stillHeld) =>
      ReportsAddressed(ev);
      RouteAllKeeps(g, ReportsOf(ev));
      OwnershipKeeps(RouteAll(g, ReportsOf(ev)), ev, stillHeld);
    case WriteBacklog(_) => WriteKeeps(g, step);
    case WriteOutbound(_) => WriteKeeps(g, step);
  }

  ghost predicate Schedule(g: Gateway, steps: seq<Step>)
    decreases |steps|
  {
    steps == [] || (Enabled(g, steps[0]) && Schedule(Next(g, steps[0]), steps[1..]))
  }

  ghost function After(g: Gateway, steps: seq<Step>): Gateway
    requires Schedule(g, steps)
    decreases |steps|
  {
    if steps == [] then g else After(Next(g, steps[0]), steps[1..])
  }

  lemma {:induction false} ScheduleKeeps(g: Gateway, steps: seq<Step>)
    requires Inv(g) && Schedule(g, steps)
    ensures Inv(After(g, steps))
    decreases |steps|
  {
    hide Inv, Next, Enabled;
    if steps != [] {
      StepKeeps(g, steps[0]);
      ScheduleKeeps(Next(g, steps[0]), steps[1..]);
    }
  }

  /** In every reachable state: whatever waits for a session, live or replayed, names the account that session is bound
      to; no routing map names a session that has unbound or belongs to another account; and an account has retained
      reports only while every session listed for it is closed. */
  lemma ReportsReachOnlyTheirAccount(outboundCapacity: nat, pendingCapacity: nat, steps: seq<Step>)
    requires Schedule(Init(outboundCapacity, pendingCapacity), steps)
    ensures var g := After(Init(outboundCapacity, pendingCapacity), steps);
            && (forall id, m :: id in g.sessions && (m in g.sessions[id].outbound || m in g.sessions[id].backlog) ==>
                  g.sessions[id].bound == Some(m.accountId))
            && (forall a, id :: id in SessionsOf(g, a) ==> BoundTo(g, id, a))
            && (forall k :: k in g.orderOwner ==> BoundTo(g, g.orderOwner[k], k.accountId))
            && (forall a, m :: a in g.pending && m in g.pending[a] ==> m.accountId == a)
            && (forall a, id :: a in g.pending && id in SessionsOf(g, a) ==> !Live(g, id))
  {
    hide Next, Enabled, Schedule, After;
    ScheduleKeeps(Init(outboundCapacity, pendingCapacity), steps);
    var g := After(Init(outboundCapacity, pendingCapacity), steps);
    forall id, m | id in g.sessions && (m in g.sessions[id].outbound || m in g.sessions[id].backlog)
      ensures g.sessions[id].bound == Some(m.accountId)
    {
      assert MailOk(g.sessions[id]);
    }
    forall a, m | a in g.pending && m in g.pending[a] ensures m.accountId == a {
      assert AllFor(g.pending[a], a);
    }
    forall a, id | a in g.pending && id in SessionsOf(g, a) ensures !Live(g, id) {
      assert AllClosed(g, a);
    }
  }

  /** A binding, once made, is never changed: no step rebinds a session. */
  lemma BindingIsForever(g: Gateway, step: Step, id: SessionId)
    requires Enabled(g, step) && id in g.sessions && g.sessions[id].bound.Some?
    ensures id in Next(g, step).sessions && Next(g, step).sessions[id].bound == g.sessions[id].bound
  {
    if step.Route? {
      RouteAllKeepsBindings(g, ReportsOf(step.event), id);
    }
  }

  lemma {:induction false} RouteAllKeepsBindings(g: Gateway, reports: seq<Report>, id: SessionId)
    requires id in g.sessions
    ensures id in RouteAll(g, reports).sessions && RouteAll(g, reports).sessions[id].bound == g.sessions[id].bound
    decreases |reports|
  {
    if reports != [] {
      RouteAllKeepsBindings(RouteOne(g, reports[0]), reports[1..], id);
    }
  }
}
