/** The pool over the queues as they are: every step is one access to the shared ring, one access to a deque, or a
    decision of one thread. It is shown to do nothing the pool over atomic queues does not do. */
module PoolMachines {
  import opened ExchangeTypes
  import opened RingIndexes
  import D = WorkerDeques
  import R = SpmcQueues
  import P = WorkerPools

  type Token = nat

  datatype WorkerPc =
    | AtLoop
    | PoppingOwn(first: bool)
    | PoppingGlobal
    | Pushing(task: Token)
    | Stealing(i: nat)
    | Running(task: Token)
    | Exited

  /** tasks[w][n] is what the n-th push onto deque w published: the deques themselves carry push numbers. */
  datatype Machine = Machine(
    running: bool,
    ring: R.Ring,
    deques: seq<D.Deque>,
    tasks: seq<seq<Token>>,
    workers: seq<WorkerPc>,
    destructor: P.DestructorPc,
    draining: seq<Token>,
    executed: seq<Token>)

  datatype Step =
    | Submit(ringAccess: R.Step)
    | Control(w: nat)
    | Own(w: nat, access: D.Step)
    | Global(w: nat, ringAccess: R.Step)
    | Steal(w: nat, access: D.Step)
    | DestroyControl
    | DestroyGlobal(ringAccess: R.Step)
    | DestroyDeque(access: D.Step)

  function Init(threads: nat, globalCapacity: nat, localCapacity: nat): Machine {
    Machine(true, R.Init(globalCapacity), seq(threads, _ => D.Init(localCapacity)), seq(threads, _ => []),
            seq(threads, _ => AtLoop), P.NotStarted, [], [])
  }

  predicate Shaped(m: Machine) {
    && |m.deques| == |m.workers| && |m.tasks| == |m.workers|
    && m.ring.buffer != [] && forall w :: 0 <= w < |m.deques| ==> m.deques[w].buffer != []
  }

  // ---------- which accesses belong to which operation ----------

  predicate ByProducer(a: R.Step) {
    a.PushCheck? || a.PushStore? || a.PushPublish?
  }

  predicate ByConsumer(a: R.Step, k: nat) {
    (a.PopStart? || a.PopReadBottom? || a.PopReadItem? || a.PopRace?) && a.consumer == k
  }

  predicate ByPush(a: D.Step) {
    a.PushLoad? || a.PushCheck? || a.PushStore? || a.PushPublish?
  }

  predicate ByPop(a: D.Step) {
    !ByPush(a) && !D.ByThief(a)
  }

  /** The i-th peer of worker w, counting from its neighbour. */
  function Victim(m: Machine, w: nat, i: nat): nat
    requires |m.workers| > 0
  {
    (w + i) % |m.workers|
  }

  predicate Enabled(m: Machine, step: Step)
    requires Shaped(m)
  {
    match step
    case Submit(a) => m.destructor.NotStarted? && ByProducer(a) && R.Enabled(m.ring, a)
    case Control(w) =>
      && w < |m.workers|
      && (m.workers[w].AtLoop? || m.workers[w].Running? || (m.workers[w].Stealing? && m.workers[w].i >= |m.workers|))
    case Own(w, a) =>
      && w < |m.workers| && D.Enabled(m.deques[w], a)
      && ((m.workers[w].PoppingOwn? && ByPop(a)) || (m.workers[w].Pushing? && ByPush(a)))
    case Global(w, a) =>
      w < |m.workers| && m.workers[w].PoppingGlobal? && ByConsumer(a, w) && R.Enabled(m.ring, a)
    case Steal(w, a) =>
      && w < |m.workers| && m.workers[w].Stealing? && m.workers[w].i < |m.workers|
      && D.ByThief(a) && a.thief == w && D.Enabled(m.deques[Victim(m, w, m.workers[w].i)], a)
    case DestroyControl =>
      (match m.destructor
       case NotStarted => m.ring.producer.Idle?
       case Joining(i) => i < |m.workers| ==> m.workers[i].Exited?
       case DrainingGlobal => m.draining != []
       case DrainingDeques(i) => m.draining != [] || i >= |m.deques|
       case Done => false)
    case DestroyGlobal(a) =>
      m.destructor.DrainingGlobal? && m.draining == [] && ByConsumer(a, |m.workers|) && R.Enabled(m.ring, a)
    case DestroyDeque(a) =>
      && m.destructor.DrainingDeques? && m.destructor.i < |m.deques| && m.draining == []
      && ByPop(a) && D.Enabled(m.deques[m.destructor.i], a)
  }

  // ---------- what a step does ----------

  function At(m: Machine, w: nat, pc: WorkerPc): Machine
    requires w < |m.workers|
  {
    m.(workers := m.workers[w := pc])
  }

  function Task(tasks: seq<Token>, n: nat): Token {
    if n < |tasks| then tasks[n] else 0
  }

  /** The access with which pop returns. */
  predicate Returns(a: D.Step) {
    a.PopEmpty? || a.PopTake? || a.PopFinish?
  }

  /** What it returns. */
  function Returned(d: D.Deque, a: D.Step): Option<nat>
    requires d.buffer != [] && Returns(a) && D.Enabled(d, a)
  {
    match a
    case PopEmpty => None
    case PopTake => Some(d.buffer[D.Slot(d, d.owner.b)])
    case PopFinish => if d.owner.won then Some(d.buffer[D.Slot(d, d.owner.b)]) else None
  }

  function OwnStep(m: Machine, w: nat, a: D.Step): Machine
    requires Shaped(m) && Enabled(m, Own(w, a))
  {
    var d := m.deques[w];
    var m' := m.(deques := m.deques[w := D.Next(d, a)]);
    match m.workers[w]
    case PoppingOwn(first) =>
      if !Returns(a) then m'
      else if Returned(d, a).Some? then At(m', w, Running(Task(m.tasks[w], Returned(d, a).value)))
      else At(m', w, if first then PoppingGlobal else AtLoop)
    case Pushing(x) =>
      if a.PushPublish? then At(m'.(tasks := m.tasks[w := m.tasks[w] + [x]]), w, PoppingOwn(false))
      else if a.PushCheck? && D.Next(d, a).owner.Idle? then At(m', w, Running(x))
      else m'
  }

  function GlobalStep(m: Machine, w: nat, a: R.Step): Machine
    requires Shaped(m) && Enabled(m, Global(w, a))
  {
    var m' := m.(ring := R.Next(m.ring, a));
    match a
    case PopReadBottom(k) => if R.PcOf(m'.ring, k).Away? then At(m', w, Stealing(1)) else m'
    case PopRace(k, _) => if R.PcOf(m'.ring, k).Away? then At(m', w, Pushing(R.PcOf(m.ring, k).item)) else m'
    case _ => m'
  }

  function StealStep(m: Machine, w: nat, a: D.Step): Machine
    requires Shaped(m) && Enabled(m, Steal(w, a))
  {
    var i := m.workers[w].i;
    var v := Victim(m, w, i);
    var d := m.deques[v];
    var m' := m.(deques := m.deques[v := D.Next(d, a)]);
    match a
    case StealReadBottom(k) => if D.PcOf(D.Next(d, a), k).Away? then At(m', w, Stealing(i + 1)) else m'
    case StealRace(k) =>
      if d.top == D.PcOf(d, k).t then At(m', w, Running(Task(m.tasks[v], D.PcOf(d, k).item)))
      else At(m', w, Stealing(i + 1))
    case _ => m'
  }

  function DestroyDequeStep(m: Machine, a: D.Step): Machine
    requires Shaped(m) && Enabled(m, DestroyDeque(a))
  {
    var i := m.destructor.i;
    var d := m.deques[i];
    var m' := m.(deques := m.deques[i := D.Next(d, a)]);
    if !Returns(a) then m'
    else if Returned(d, a).Some? then m'.(draining := [Task(m.tasks[i], Returned(d, a).value)])
    else m'.(destructor := P.DrainingDeques(i + 1))
  }

  function DestroyGlobalStep(m: Machine, a: R.Step): Machine
    requires Shaped(m) && Enabled(m, DestroyGlobal(a))
  {
    var m' := m.(ring := R.Next(m.ring, a));
    match a
    case PopReadBottom(k) => if R.PcOf(m'.ring, k).Away? then m'.(destructor := P.DrainingDeques(0)) else m'
    case PopRace(k, _) => if R.PcOf(m'.ring, k).Away? then m'.(draining := [R.PcOf(m.ring, k).item]) else m'
    case _ => m'
  }

  function ControlStep(m: Machine, w: nat): Machine
    requires Shaped(m) && Enabled(m, Control(w))
  {
    match m.workers[w]
    case AtLoop => At(m, w, if m.running then PoppingOwn(true) else Exited)
    case Running(x) => At(m.(executed := m.executed + [x]), w, AtLoop)
    case _ => At(m, w, AtLoop)
  }

  function DestroyControlStep(m: Machine): Machine
    requires Shaped(m) && Enabled(m, DestroyControl)
  {
    match m.destructor
    case NotStarted => m.(running := false, destructor := P.Joining(0))
    case Joining(i) => m.(destructor := if i < |m.workers| then P.Joining(i + 1) else P.DrainingGlobal)
    case _ =>
      if m.draining != [] then m.(executed := m.executed + m.draining, draining := []) else m.(destructor := P.Done)
  }

  function Next(m: Machine, step: Step): Machine
    requires Shaped(m) && Enabled(m, step)
  {
    match step
    case Submit(a) => m.(ring := R.Next(m.ring, a))
    case Control(w) => ControlStep(m, w)
    case Own(w, a) => OwnStep(m, w, a)
    case Global(w, a) => GlobalStep(m, w, a)
    case Steal(w, a) => StealStep(m, w, a)
    case DestroyControl => DestroyControlStep(m)
    case DestroyGlobal(a) => DestroyGlobalStep(m, a)
    case DestroyDeque(a) => DestroyDequeStep(m, a)
  }

  // ---------- how far a pop has come ----------

  datatype Progress =
    | Undecided
    | Won(item: nat)
    | Empty

  function ProgressOf(d: D.Deque): Progress
    requires d.buffer != []
  {
    match d.owner
    case PopSawTop(b, t) => if b > t then Won(d.buffer[D.Slot(d, b)]) else if b < t then Empty else Undecided
    case PopRaced(b, _, won) => if won then Won(d.buffer[D.Slot(d, b)]) else Empty
    case PopRestored(b, won) => if won then Won(d.buffer[D.Slot(d, b)]) else Empty
    case _ => Undecided
  }

  predicate MidPop(d: D.Deque) {
    d.owner.PopLoaded? || d.owner.PopPublished? || d.owner.PopSawTop? || d.owner.PopRaced? || d.owner.PopRestored?
  }

  predicate MidPush(d: D.Deque) {
    d.owner.PushLoaded? || d.owner.PushChecked? || d.owner.PushStored?
  }

  /** A pop is decided at the access that takes effect, and returns what was decided. */
  lemma PopDecides(d: D.Deque, a: D.Step)
    requires D.Inv(d) && ByPop(a) && D.Enabled(d, a)
    ensures var d', effect := D.Next(d, a), D.EffectOf(d, a);
            && d'.buffer == d.buffer && d'.pushed == d.pushed
            && (if Returns(a)
                then d'.owner.Idle? && effect.Silent?
                     && ProgressOf(d) == (if Returned(d, a).Some? then Won(Returned(d, a).value) else Empty)
                else
                  && MidPop(d')
                  && (if ProgressOf(d).Undecided?
                      then ProgressOf(d') == (match effect
                                              case Popped(x) => Won(x)
                                              case FoundEmpty => Empty
                                              case _ => Undecided)
                           && (effect.Silent? || effect.Popped? || effect.FoundEmpty?)
                      else effect.Silent? && ProgressOf(d') == ProgressOf(d)))
  {
    hide D.Conserved, D.ThievesOk;
  }

  lemma PushDecides(d: D.Deque, a: D.Step)
    requires D.Inv(d) && ByPush(a) && D.Enabled(d, a)
    ensures var d', effect := D.Next(d, a), D.EffectOf(d, a);
            && |d'.buffer| == |d.buffer|
            && (effect == (if a.PushPublish? then D.Pushed(d.pushed) else D.Silent))
            && d'.pushed == d.pushed + (if a.PushPublish? then 1 else 0)
            && (a.PushPublish? ==> d'.owner.Idle? && |D.Queue(d)| < |d.buffer|)
            && (d'.owner.Idle? || MidPush(d'))
            && (d'.owner.Idle? ==> a.PushPublish? || a.PushCheck?)
            && ProgressOf(d') == Undecided
  {
    hide D.Conserved, D.ThievesOk;
  }

  lemma ThiefDecides(d: D.Deque, a: D.Step)
    requires D.Inv(d) && D.ByThief(a) && D.Enabled(d, a)
    ensures var d', effect := D.Next(d, a), D.EffectOf(d, a);
            && d'.buffer == d.buffer && d'.pushed == d.pushed && d'.owner == d.owner
            && ProgressOf(d') == ProgressOf(d)
            && (effect == if a.StealRace? && d.top == D.PcOf(d, a.thief).t then D.Stolen(D.PcOf(d, a.thief).item)
                          else D.Silent)
  {
    hide D.Conserved, D.ThievesOk;
  }

  // ---------- the pool over atomic queues behind it ----------

  /** The tasks that a queue of push numbers stands for. */
  function TasksIn(tasks: seq<Token>, q: seq<nat>): (r: seq<Token>)
    ensures |r| == |q|
  {
    seq(|q|, i requires 0 <= i < |q| => Task(tasks, q[i]))
  }

  /** A worker's pop counts as done once it is decided. */
  function WorkerSeen(pc: WorkerPc, d: D.Deque, tasks: seq<Token>): P.WorkerPc
    requires d.buffer != []
  {
    match pc
    case AtLoop => P.AtLoop
    case PoppingOwn(first) =>
      (match ProgressOf(d)
       case Undecided => if first then P.AtOwn else P.AfterRepublish
       case Won(n) => P.Running(Task(tasks, n))
       case Empty => if first then P.AtGlobal else P.AtLoop)
    case PoppingGlobal => P.AtGlobal
    case Pushing(x) => P.Republishing(x)
    case Stealing(i) => P.Stealing(i)
    case Running(x) => P.Running(x)
    case Exited => P.Exited
  }

  predicate AtDeque(m: Machine) {
    m.destructor.DrainingDeques? && m.destructor.i < |m.deques|
  }

  /** And so does the destructor's. */
  function DestructorSeen(m: Machine): P.DestructorPc
    requires Shaped(m)
  {
    if AtDeque(m) && ProgressOf(m.deques[m.destructor.i]).Empty? then P.DrainingDeques(m.destructor.i + 1)
    else m.destructor
  }

  function DrainingSeen(m: Machine): seq<Token>
    requires Shaped(m)
  {
    if AtDeque(m) && ProgressOf(m.deques[m.destructor.i]).Won?
    then [Task(m.tasks[m.destructor.i], ProgressOf(m.deques[m.destructor.i]).item)]
    else m.draining
  }

  predicate InBounds(m: Machine) {
    Shaped(m) && R.BoundsOk(m.ring) && forall w :: 0 <= w < |m.deques| ==> D.BoundsOk(m.deques[w])
  }

  function Seen(m: Machine, localCapacity: nat): P.Pool
    requires InBounds(m)
  {
    P.Pool(m.running, R.Queue(m.ring), |m.ring.buffer|,
           seq(|m.deques|, w requires 0 <= w < |m.deques| => TasksIn(m.tasks[w], D.Queue(m.deques[w]))),
           localCapacity,
           seq(|m.workers|, w requires 0 <= w < |m.workers| => WorkerSeen(m.workers[w], m.deques[w], m.tasks[w])),
           DestructorSeen(m), DrainingSeen(m), m.ring.bottom, m.executed)
  }

  // ---------- invariant ----------

  /** Only the thread that owns a deque is ever in the middle of a push or a pop on it. */
  predicate OwnerIs(m: Machine, w: nat)
    requires Shaped(m) && w < |m.workers|
  {
    var d := m.deques[w];
    || d.owner.Idle?
    || (m.workers[w].PoppingOwn? && MidPop(d))
    || (m.workers[w].Pushing? && MidPush(d))
    || (AtDeque(m) && m.destructor.i == w && m.draining == [] && m.workers[w].Exited? && MidPop(d))
  }

  ghost predicate DequeOk(m: Machine, w: nat, localCapacity: nat)
    requires Shaped(m) && w < |m.workers|
  {
    && D.Inv(m.deques[w]) && |m.deques[w].buffer| == localCapacity
    && |m.tasks[w]| == m.deques[w].pushed && OwnerIs(m, w)
  }

  ghost predicate DequesOk(m: Machine, localCapacity: nat)
    requires Shaped(m)
  {
    forall w :: 0 <= w < |m.workers| ==> DequeOk(m, w, localCapacity)
  }

  predicate Quiet(m: Machine) {
    && (!m.destructor.NotStarted? ==> m.ring.producer.Idle?)
    && (m.destructor.DrainingGlobal? || m.destructor.DrainingDeques? || m.destructor.Done? || m.draining == [])
    && (m.destructor.Done? ==> m.draining == []) && |m.draining| <= 1
    && (m.destructor.DrainingGlobal? || m.destructor.DrainingDeques? || m.destructor.Done? ==>
          forall w :: 0 <= w < |m.workers| ==> m.workers[w].Exited?)
    && (m.destructor.Joining? ==>
          m.destructor.i <= |m.workers| && forall w :: 0 <= w < m.destructor.i ==> m.workers[w].Exited?)
  }

  ghost predicate Inv(m: Machine, localCapacity: nat) {
    Shaped(m) && R.Inv(m.ring) && DequesOk(m, localCapacity) && Quiet(m)
  }

  lemma InvInBounds(m: Machine, localCapacity: nat)
    requires Inv(m, localCapacity)
    ensures InBounds(m)
  {
    hide R.CellsOk, R.ConsumersOk, R.TakenOk, D.OwnerOk, D.ThievesOk, D.Conserved, D.BoundsOk;
    forall w | 0 <= w < |m.deques| ensures D.BoundsOk(m.deques[w]) {
      assert DequeOk(m, w, localCapacity);
    }
  }

  // ---------- push numbers stand for tasks ----------

  /** A number still queued, or won by a pop, has been pushed. */
  lemma NumbersPushed(d: D.Deque)
    requires D.Inv(d)
    ensures forall i :: 0 <= i < |D.Queue(d)| ==> D.Queue(d)[i] < d.pushed
  {
    hide D.OwnerOk, D.ThievesOk, D.Queue, D.Out, D.AllTokens;
    forall i | 0 <= i < |D.Queue(d)| ensures D.Queue(d)[i] < d.pushed {
      var x := D.Queue(d)[i];
      D.TokensOnce(d.pushed, x);
      assert x in D.Queue(d);
      assert multiset(D.Queue(d))[x] > 0;
      assert (multiset(D.Out(d)) + multiset(D.Queue(d)))[x] > 0;
    }
  }

  lemma TasksGrow(tasks: seq<Token>, x: Token, q: seq<nat>)
    requires forall i :: 0 <= i < |q| ==> q[i] < |tasks|
    ensures TasksIn(tasks + [x], q) == TasksIn(tasks, q)
    ensures TasksIn(tasks + [x], q + [|tasks|]) == TasksIn(tasks, q) + [x]
  {
  }

  /** What an atomic operation on push numbers is on tasks. */
  lemma TasksFollow(tasks: seq<Token>, q: seq<nat>, effect: D.Effect, q': seq<nat>)
    requires D.Atomic(q, effect, q') && !effect.Pushed?
    ensures var ts, ts' := TasksIn(tasks, q), TasksIn(tasks, q');
            match effect
            case Silent => ts' == ts
            case Popped(n) => ts != [] && ts' == ts[..|ts| - 1] && ts[|ts| - 1] == Task(tasks, n)
            case FoundEmpty => ts == [] && ts' == []
            case Stolen(n) => ts != [] && ts' == ts[1..] && ts[0] == Task(tasks, n)
            case _ => true
  {
    var ts, ts' := TasksIn(tasks, q), TasksIn(tasks, q');
    match effect
    case Popped(n) => assert ts == ts' + [Task(tasks, n)];
    case Stolen(n) => assert ts == [Task(tasks, n)] + ts';
    case _ =>
  }

  // ---------- each step, as a step of the pool over atomic queues ----------

  ghost predicate Follows(s: P.Pool, s': P.Pool) {
    s' == s || exists step :: P.Shaped(s) && P.Enabled(s, step) && P.Next(s, step) == s'
  }

  lemma FollowsBy(s: P.Pool, s': P.Pool, step: P.Step)
    requires P.Shaped(s) && P.Enabled(s, step) && P.Next(s, step) == s'
    ensures Follows(s, s')
  {
  }

  /** Deque v and worker w changed, and nothing else. */
  predicate OnlyChanged(m: Machine, m': Machine, v: nat, w: nat) {
    && v < |m.workers| && w < |m.workers| && v < |m'.deques| && v < |m'.tasks| && w < |m'.workers|
    && m' == m.(deques := m'.deques, tasks := m'.tasks, workers := m'.workers)
    && |m.deques| == |m.workers| && |m.tasks| == |m.workers|
    && m'.deques == m.deques[v := m'.deques[v]]
    && m'.tasks == m.tasks[v := m'.tasks[v]]
    && m'.workers == m.workers[w := m'.workers[w]]
  }

  lemma SeenUpdate(m: Machine, m': Machine, v: nat, w: nat, cap: nat)
    requires InBounds(m) && InBounds(m') && OnlyChanged(m, m', v, w) && !m.destructor.DrainingDeques?
    requires v == w || WorkerSeen(m.workers[v], m'.deques[v], m'.tasks[v])
                         == WorkerSeen(m.workers[v], m.deques[v], m.tasks[v])
    ensures Seen(m', cap)
              == Seen(m, cap).(deques := Seen(m, cap).deques[v := TasksIn(m'.tasks[v], D.Queue(m'.deques[v]))],
                               workers := Seen(m, cap).workers[w := WorkerSeen(m'.workers[w], m'.deques[w], m'.tasks[w])])
  {
    hide R.Queue, R.BoundsOk, D.LogicalBottom, D.Queue, TasksIn, WorkerSeen;
    var s, s' := Seen(m, cap), Seen(m', cap);
    assert D.BoundsOk(m'.deques[v]);
    assert s'.deques == s.deques[v := TasksIn(m'.tasks[v], D.Queue(m'.deques[v]))];
    assert s'.workers == s.workers[w := WorkerSeen(m'.workers[w], m'.deques[w], m'.tasks[w])];
  }

  lemma DequeIs(m: Machine, w: nat, cap: nat)
    requires Inv(m, cap) && w < |m.workers|
    ensures DequeOk(m, w, cap)
  {
    hide R.Inv, DequeOk;
  }

  /** A deque takes one step of its own; the pool sees the atomic operation. */
  lemma DequeMoves(m: Machine, v: nat, a: D.Step, cap: nat)
    requires Inv(m, cap) && v < |m.workers| && D.Enabled(m.deques[v], a)
    ensures var d := m.deques[v]; var d' := D.Next(d, a);
            && D.Inv(d) && D.Inv(d') && D.BoundsOk(d) && D.BoundsOk(d')
            && D.Atomic(D.Queue(d), D.EffectOf(d, a), D.Queue(d'))
            && |d.buffer| == cap && |m.tasks[v]| == d.pushed
  {
    hide R.Inv, D.Atomic, D.EffectOf, D.Queue, D.Next, D.Enabled, D.OwnerOk, D.ThievesOk, D.Conserved;
    DequeIs(m, v, cap);
    D.StepKeeps(m.deques[v], a);
    D.StepRefines(m.deques[v], a);
  }

  lemma DequeStaysInBounds(m: Machine, m': Machine, v: nat, w: nat, cap: nat)
    requires Inv(m, cap) && OnlyChanged(m, m', v, w) && D.Inv(m'.deques[v])
    ensures InBounds(m) && InBounds(m')
  {
    hide R.CellsOk, R.ConsumersOk, R.TakenOk, D.OwnerOk, D.ThievesOk, D.Conserved, D.LogicalBottom;
    InvInBounds(m, cap);
    assert D.BoundsOk(m'.deques[v]);
    forall x | 0 <= x < |m'.deques| ensures D.BoundsOk(m'.deques[x]) {
      assert x != v ==> m'.deques[x] == m.deques[x];
    }
  }

  lemma WorkerNotDone(m: Machine, w: nat, cap: nat)
    requires Inv(m, cap) && w < |m.workers| && !m.workers[w].Exited?
    ensures !m.destructor.DrainingGlobal? && !m.destructor.DrainingDeques? && !m.destructor.Done? && !AtDeque(m)
  {
    hide R.Inv, DequesOk;
  }

  /** A worker's pop, as the pool sees it. */
  lemma PopFollows(m: Machine, w: nat, a: D.Step, cap: nat)
    requires Inv(m, cap) && Enabled(m, Own(w, a)) && m.workers[w].PoppingOwn?
    ensures InBounds(m) && InBounds(OwnStep(m, w, a))
    ensures Follows(Seen(m, cap), Seen(OwnStep(m, w, a), cap))
  {
    hide R.Inv, D.Inv, D.Atomic, D.EffectOf, D.Queue, D.Next, D.Enabled, TasksIn, DequesOk, Follows, Quiet, Returned,
         ProgressOf, InBounds, D.LogicalBottom;
    DequeMoves(m, w, a, cap);
    var m' := OwnStep(m, w, a);
    var d, d', ts, effect := m.deques[w], D.Next(m.deques[w], a), m.tasks[w], D.EffectOf(m.deques[w], a);
    PopDecides(d, a);
    WorkerNotDone(m, w, cap);
    DequeStaysInBounds(m, m', w, w, cap);
    SeenUpdate(m, m', w, w, cap);
    TasksFollow(ts, D.Queue(d), effect, D.Queue(d'));
    SeenAt(m, w, cap);
    if Returns(a) || !ProgressOf(d).Undecided? || effect.Silent? {
      SeenSame(Seen(m, cap), Seen(m', cap), w, w);
    } else {
      AbstractPop(Seen(m, cap), Seen(m', cap), w, m.workers[w].first);
    }
  }

  lemma SeenAt(m: Machine, w: nat, cap: nat)
    requires InBounds(m) && w < |m.workers|
    ensures w < |Seen(m, cap).deques| && w < |Seen(m, cap).workers|
    ensures |Seen(m, cap).deques| == |m.workers| && |Seen(m, cap).workers| == |m.workers|
    ensures Seen(m, cap).deques[w] == TasksIn(m.tasks[w], D.Queue(m.deques[w]))
    ensures Seen(m, cap).workers[w] == WorkerSeen(m.workers[w], m.deques[w], m.tasks[w])
  {
    hide R.Queue, R.BoundsOk, D.BoundsOk, D.Queue, TasksIn, WorkerSeen;
  }

  /** Writing back what was there. */
  lemma SeenSame(s: P.Pool, s': P.Pool, v: nat, w: nat)
    requires v < |s.deques| && w < |s.workers|
    requires s' == s.(deques := s.deques[v := s.deques[v]], workers := s.workers[w := s.workers[w]])
    ensures Follows(s, s')
  {
    assert s.deques[v := s.deques[v]] == s.deques;
    assert s.workers[w := s.workers[w]] == s.workers;
  }

  lemma AbstractPop(s: P.Pool, s': P.Pool, w: nat, first: bool)
    requires P.Shaped(s) && w < |s.workers| && s.workers[w] == if first then P.AtOwn else P.AfterRepublish
    requires var q := s.deques[w];
             s' == if q == [] then s.(deques := s.deques[w := []],
                                      workers := s.workers[w := if first then P.AtGlobal else P.AtLoop])
                   else s.(deques := s.deques[w := q[..|q| - 1]], workers := s.workers[w := P.Running(q[|q| - 1])])
    ensures Follows(s, s')
  {
    assert s.deques[w] == [] ==> s.deques[w := []] == s.deques;
    FollowsBy(s, s', P.Work(w, false));
  }

  lemma PushFollows(m: Machine, w: nat, a: D.Step, cap: nat)
    requires Inv(m, cap) && Enabled(m, Own(w, a)) && m.workers[w].Pushing?
    ensures InBounds(m) && InBounds(OwnStep(m, w, a))
    ensures Follows(Seen(m, cap), Seen(OwnStep(m, w, a), cap))
  {
    hide R.Inv, D.Inv, D.EffectOf, D.Queue, D.Next, D.Enabled, TasksIn, DequesOk, Follows, Quiet, ProgressOf, InBounds,
         D.LogicalBottom;
    DequeMoves(m, w, a, cap);
    var m' := OwnStep(m, w, a);
    var d, d', ts, x := m.deques[w], D.Next(m.deques[w], a), m.tasks[w], m.workers[w].task;
    PushDecides(d, a);
    WorkerNotDone(m, w, cap);
    DequeStaysInBounds(m, m', w, w, cap);
    SeenUpdate(m, m', w, w, cap);
    SeenAt(m, w, cap);
    var s, s' := Seen(m, cap), Seen(m', cap);
    if a.PushPublish? {
      NumbersPushed(d);
      TasksGrow(ts, x, D.Queue(d));
      AbstractPush(s, s', w, x);
    } else if a.PushCheck? && d'.owner.Idle? {
      assert s.deques[w := s.deques[w]] == s.deques;
      FollowsBy(s, s', P.Work(w, true));
    } else {
      SeenSame(s, s', w, w);
    }
  }

  lemma AbstractPush(s: P.Pool, s': P.Pool, w: nat, x: Token)
    requires P.Shaped(s) && w < |s.workers| && s.workers[w] == P.Republishing(x) && |s.deques[w]| < s.localCapacity
    requires s' == s.(deques := s.deques[w := s.deques[w] + [x]], workers := s.workers[w := P.AfterRepublish])
    ensures Follows(s, s')
  {
    FollowsBy(s, s', P.Work(w, false));
  }

  /** A steal ends by running what it stole, or by going on to the next peer; until then nothing but the deque moves. */
  lemma StealIs(m: Machine, w: nat, a: D.Step)
    requires Shaped(m) && Enabled(m, Steal(w, a)) && D.BoundsOk(m.deques[Victim(m, w, m.workers[w].i)])
    ensures var i := m.workers[w].i; var v := Victim(m, w, i);
            var m', effect := StealStep(m, w, a), D.EffectOf(m.deques[v], a);
            && OnlyChanged(m, m', v, w) && m'.deques[v] == D.Next(m.deques[v], a) && m'.tasks == m.tasks
            && (effect.Stolen? ==> m'.workers[w] == Running(Task(m.tasks[v], effect.item)))
            && (!effect.Stolen? ==> m'.workers[w] == m.workers[w] || m'.workers[w] == Stealing(i + 1))
  {
    hide D.Next, D.BoundsOk;
    StealEffect(m.deques[Victim(m, w, m.workers[w].i)], a);
  }

  lemma StealEffect(d: D.Deque, a: D.Step)
    requires D.BoundsOk(d) && D.ByThief(a) && D.Enabled(d, a)
    ensures D.EffectOf(d, a)
              == if a.StealRace? && d.top == D.PcOf(d, a.thief).t then D.Stolen(D.PcOf(d, a.thief).item) else D.Silent
  {
  }

  lemma StealSees(m: Machine, w: nat, a: D.Step, cap: nat)
    requires Inv(m, cap) && Enabled(m, Steal(w, a))
    ensures InBounds(m) && InBounds(StealStep(m, w, a))
    ensures var v, s, m' := Victim(m, w, m.workers[w].i), Seen(m, cap), StealStep(m, w, a);
            && v < |s.deques| && w < |s.workers| && s.workers[w] == P.Stealing(m.workers[w].i)
            && Shaped(m') && |m'.deques| == |m.deques| && |m'.workers| == |m.workers| && D.BoundsOk(m'.deques[v])
            && s.deques[v] == TasksIn(m.tasks[v], D.Queue(m.deques[v]))
            && Seen(m', cap)
                 == s.(deques := s.deques[v := TasksIn(m.tasks[v], D.Queue(m'.deques[v]))],
                       workers := s.workers[w := WorkerSeen(m'.workers[w], m'.deques[w], m.tasks[w])])
  {
    hide R.Inv, D.Inv, D.Atomic, D.EffectOf, D.Queue, D.Next, D.Enabled, TasksIn, DequesOk, Quiet, ProgressOf,
         InBounds, D.LogicalBottom, D.PcOf, StealStep, Seen;
    var v := Victim(m, w, m.workers[w].i);
    DequeMoves(m, v, a, cap);
    StealIs(m, w, a);
    ThiefDecides(m.deques[v], a);
    WorkerNotDone(m, w, cap);
    DequeStaysInBounds(m, StealStep(m, w, a), v, w, cap);
    BoundsShape(StealStep(m, w, a));
    SeenUpdate(m, StealStep(m, w, a), v, w, cap);
    SeenAt(m, v, cap);
    SeenAt(m, w, cap);
  }

  lemma StealFollows(m: Machine, w: nat, a: D.Step, cap: nat)
    requires Inv(m, cap) && Enabled(m, Steal(w, a))
    ensures InBounds(m) && InBounds(StealStep(m, w, a))
    ensures Follows(Seen(m, cap), Seen(StealStep(m, w, a), cap))
  {
    hide R.Inv, D.Inv, D.Atomic, D.EffectOf, D.Queue, D.Next, D.Enabled, TasksIn, DequesOk, Follows, Quiet, ProgressOf,
         InBounds, D.LogicalBottom, D.PcOf, StealStep, OnlyChanged, Seen;
    var v, m' := Victim(m, w, m.workers[w].i), StealStep(m, w, a);
    DequeMoves(m, v, a, cap);
    StealIs(m, w, a);
    StealSees(m, w, a, cap);
    ThiefDecides(m.deques[v], a);
    SeenShaped(m, cap);
    TasksFollow(m.tasks[v], D.Queue(m.deques[v]), D.EffectOf(m.deques[v], a), D.Queue(m'.deques[v]));
    StealSeen(Seen(m, cap), Seen(m', cap), w, m.workers[w].i, WorkerSeen(m'.workers[w], m'.deques[w], m.tasks[w]));
  }

  lemma BoundsShape(m: Machine)
    requires InBounds(m)
    ensures Shaped(m)
  {
  }

  lemma SeenShaped(m: Machine, cap: nat)
    requires InBounds(m)
    ensures P.Shaped(Seen(m, cap)) && |Seen(m, cap).workers| == |m.workers|
  {
    hide R.BoundsOk, D.BoundsOk, TasksIn, WorkerSeen;
  }

  lemma StealSeen(s: P.Pool, s': P.Pool, w: nat, i: nat, pc: P.WorkerPc)
    requires P.Shaped(s) && w < |s.workers| && s.workers[w] == P.Stealing(i) && i < |s.workers|
    requires var v := (w + i) % |s.workers|;
             if pc.Running? then
               s.deques[v] != [] && pc.task == s.deques[v][0]
               && s' == s.(deques := s.deques[v := s.deques[v][1..]], workers := s.workers[w := pc])
             else (pc == P.Stealing(i) || pc == P.Stealing(i + 1))
                  && s' == s.(deques := s.deques[v := s.deques[v]], workers := s.workers[w := pc])
    ensures Follows(s, s')
  {
    hide Follows;
    var v := (w + i) % |s.workers|;
    assert s.deques[v := s.deques[v]] == s.deques;
    if pc.Running? {
      AbstractSteal(s, s', w, i);
    } else if pc == P.Stealing(i) {
      SeenSame(s, s', v, w);
    } else {
      FollowsBy(s, s', P.Work(w, true));
    }
  }

  lemma AbstractSteal(s: P.Pool, s': P.Pool, w: nat, i: nat)
    requires P.Shaped(s) && w < |s.workers| && s.workers[w] == P.Stealing(i) && i < |s.workers|
    requires var v := (w + i) % |s.workers|;
             s.deques[v] != []
             && s' == s.(deques := s.deques[v := s.deques[v][1..]], workers := s.workers[w := P.Running(s.deques[v][0])])
    ensures Follows(s, s')
  {
    FollowsBy(s, s', P.Work(w, false));
  }

  // ---------- the ring ----------

  /** Only the ring changed, and one worker or nobody. */
  lemma SeenRing(m: Machine, m': Machine, cap: nat)
    requires InBounds(m) && InBounds(m') && m' == m.(ring := m'.ring) && |m'.ring.buffer| == |m.ring.buffer|
    ensures Seen(m', cap) == Seen(m, cap).(global := R.Queue(m'.ring), submitted := m'.ring.bottom)
  {
    hide R.Queue, R.BoundsOk, D.BoundsOk, D.Queue, TasksIn, WorkerSeen;
  }

  lemma SeenPc(m: Machine, w: nat, pc: WorkerPc, cap: nat)
    requires InBounds(m) && w < |m.workers|
    ensures InBounds(At(m, w, pc))
    ensures Seen(At(m, w, pc), cap)
              == Seen(m, cap).(workers := Seen(m, cap).workers[w := WorkerSeen(pc, m.deques[w], m.tasks[w])])
  {
    hide R.Queue, R.BoundsOk, D.BoundsOk, D.Queue, TasksIn, WorkerSeen;
    var s, s' := Seen(m, cap), Seen(At(m, w, pc), cap);
    assert s'.deques == s.deques;
    assert s'.workers == s.workers[w := WorkerSeen(pc, m.deques[w], m.tasks[w])];
  }

  /** The ring takes one step of its own. */
  lemma RingMoves(m: Machine, a: R.Step, cap: nat)
    requires Inv(m, cap) && R.Enabled(m.ring, a)
    ensures R.Inv(m.ring) && R.BoundsOk(m.ring) && R.Inv(R.Next(m.ring, a))
    ensures InBounds(m) && InBounds(m.(ring := R.Next(m.ring, a)))
    ensures |R.Next(m.ring, a).buffer| == |m.ring.buffer|
    ensures var q, q', effect := R.Queue(m.ring), R.Queue(R.Next(m.ring, a)), R.EffectOf(m.ring, a);
            && (effect.Silent? ==> q' == q)
            && (effect.Pushed? ==> q' == q + [effect.item])
            && (effect.Popped? ==> q == [effect.item] + q')
  {
    hide R.CellsOk, R.ConsumersOk, R.TakenOk, D.BoundsOk, D.Inv, R.Queue;
    InvInBounds(m, cap);
    R.StepKeeps(m.ring, a);
    R.StepRefines(m.ring, a);
  }

  lemma SubmitFollows(m: Machine, a: R.Step, cap: nat)
    requires Inv(m, cap) && Enabled(m, Submit(a))
    ensures InBounds(m) && InBounds(Next(m, Submit(a)))
    ensures Follows(Seen(m, cap), Seen(Next(m, Submit(a)), cap))
  {
    hide R.CellsOk, R.ConsumersOk, R.TakenOk, D.Inv, DequesOk, Follows, Quiet, InBounds, TasksIn, WorkerSeen, D.BoundsOk,
         D.Queue, ProgressOf;
    RingMoves(m, a, cap);
    var m' := Next(m, Submit(a));
    SeenRing(m, m', cap);
    if a.PushPublish? {
      FollowsBy(Seen(m, cap), Seen(m', cap), P.Submit);
    } else {
      Stutters(Seen(m, cap));
    }
  }

  lemma Stutters(s: P.Pool)
    ensures Follows(s, s)
  {
  }

  lemma GlobalFollows(m: Machine, w: nat, a: R.Step, cap: nat)
    requires Inv(m, cap) && Enabled(m, Global(w, a))
    ensures InBounds(m) && InBounds(GlobalStep(m, w, a))
    ensures Follows(Seen(m, cap), Seen(GlobalStep(m, w, a), cap))
  {
    hide R.Inv, D.Inv, DequesOk, Follows, Quiet, InBounds, TasksIn, D.BoundsOk, D.Queue, ProgressOf, R.Queue;
    RingMoves(m, a, cap);
    SeenAt(m, w, cap);
    var m1 := m.(ring := R.Next(m.ring, a));
    var m' := GlobalStep(m, w, a);
    SeenRing(m, m1, cap);
    if m' != m1 {
      SeenPc(m1, w, m'.workers[w], cap);
    }
    ConsumerDecides(m.ring, a, w);
    var s, s' := Seen(m, cap), Seen(m', cap);
    if m' != m1 {
      AbstractTake(s, s', w);
    } else {
      Stutters(s);
    }
  }

  /** Only a successful race takes an item, and only an empty ring turns a consumer away. */
  lemma ConsumerDecides(r: R.Ring, a: R.Step, k: nat)
    requires R.Inv(r) && R.Enabled(r, a) && ByConsumer(a, k)
    ensures var r', effect := R.Next(r, a), R.EffectOf(r, a);
            && r'.bottom == r.bottom && r'.producer == r.producer
            && !effect.Pushed?
            && (effect.Popped? <==> a.PopRace? && R.PcOf(r', k).Away?)
            && (effect.Popped? ==> effect.item == R.PcOf(r, k).item)
            && (a.PopReadBottom? && R.PcOf(r', k).Away? ==> R.Queue(r) == [])
  {
    hide R.CellsOk, R.TakenOk;
    if a.PopReadBottom? && R.PcOf(R.Next(r, a), k).Away? {
      R.EmptyMeansEmpty(r, k);
    }
  }

  lemma AbstractTake(s: P.Pool, s': P.Pool, w: nat)
    requires P.Shaped(s) && w < |s.workers| && s.workers[w] == P.AtGlobal
    requires if s.global == [] then s' == s.(workers := s.workers[w := P.Stealing(1)])
             else s' == s.(global := s.global[1..], workers := s.workers[w := P.Republishing(s.global[0])])
    ensures Follows(s, s')
  {
    FollowsBy(s, s', P.Work(w, false));
  }

  // ---------- decisions ----------

  lemma ControlFollows(m: Machine, w: nat, cap: nat)
    requires Inv(m, cap) && Enabled(m, Control(w))
    ensures InBounds(m) && InBounds(ControlStep(m, w))
    ensures Follows(Seen(m, cap), Seen(ControlStep(m, w), cap))
  {
    hide R.Inv, D.Inv, Follows, Quiet, InBounds, TasksIn, D.BoundsOk, D.Queue, R.Queue, DequesOk;
    InvInBounds(m, cap);
    DequeIs(m, w, cap);
    WorkerNotDone(m, w, cap);
    SeenAt(m, w, cap);
    var m' := ControlStep(m, w);
    SeenPc(m, w, m'.workers[w], cap);
    SeenExecuted(At(m, w, m'.workers[w]), m', cap);
    FollowsBy(Seen(m, cap), Seen(m', cap), P.Work(w, false));
  }

  lemma SeenExecuted(m: Machine, m': Machine, cap: nat)
    requires InBounds(m) && m' == m.(executed := m'.executed)
    ensures InBounds(m') && Seen(m', cap) == Seen(m, cap).(executed := m'.executed)
  {
    hide R.Queue, R.BoundsOk, D.BoundsOk, D.Queue, TasksIn, WorkerSeen;
  }

  // ---------- the destructor ----------

  /** Everything but what the destructor itself is about. */
  lemma SeenDestructor(m: Machine, m': Machine, cap: nat)
    requires InBounds(m) && m' == m.(running := m'.running, destructor := m'.destructor, draining := m'.draining,
                                     executed := m'.executed)
    ensures InBounds(m')
    ensures Seen(m', cap) == Seen(m, cap).(running := m'.running, executed := m'.executed,
                                           destructor := DestructorSeen(m'), draining := DrainingSeen(m'))
  {
    hide R.Queue, R.BoundsOk, D.BoundsOk, D.Queue, TasksIn, WorkerSeen, DestructorSeen, DrainingSeen;
  }

  /** Between pops the destructor has nothing decided. */
  lemma NoPopUnderWay(m: Machine, cap: nat, w: nat)
    requires Inv(m, cap) && w < |m.workers|
    requires m.workers[w].Exited? && (m.draining != [] || !(AtDeque(m) && m.destructor.i == w))
    ensures m.deques[w].owner.Idle? && ProgressOf(m.deques[w]) == Undecided
  {
    hide R.Inv, D.Inv;
    assert DequeOk(m, w, cap);
  }

  lemma AllExited(m: Machine, cap: nat)
    requires Inv(m, cap)
    requires m.destructor.DrainingGlobal? || m.destructor.DrainingDeques?
    ensures forall w :: 0 <= w < |m.workers| ==> m.workers[w].Exited?
  {
    hide R.Inv, DequesOk;
  }

  /** One step of the destructor over atomic queues. */
  ghost predicate DestroysTo(s: P.Pool, s': P.Pool) {
    P.Shaped(s) && P.Enabled(s, P.Destroy) && P.Next(s, P.Destroy) == s'
  }

  lemma DestroyControlFollows(m: Machine, cap: nat)
    requires Inv(m, cap) && Enabled(m, DestroyControl)
    ensures InBounds(m) && InBounds(DestroyControlStep(m))
    ensures DestroysTo(Seen(m, cap), Seen(DestroyControlStep(m), cap))
  {
    hide R.Inv, D.Inv, DestroysTo, InBounds, TasksIn, D.BoundsOk, D.Queue, R.Queue, DequesOk, Seen, ProgressOf;
    var m' := DestroyControlStep(m);
    InvInBounds(m, cap);
    SeenDestructor(m, m, cap);
    SeenDestructor(m, m', cap);
    SeenShaped(m, cap);
    if m.destructor.DrainingDeques? && m.destructor.i < |m.deques| {
      AllExited(m, cap);
      NoPopUnderWay(m, cap, m.destructor.i);
    }
    if m.destructor.Joining? && m.destructor.i < |m.workers| {
      SeenExit(m, m.destructor.i, cap);
    }
    SeenCounts(m, cap);
    AbstractDestroy(Seen(m, cap), Seen(m', cap));
  }

  lemma SeenExit(m: Machine, w: nat, cap: nat)
    requires InBounds(m) && w < |m.workers| && m.workers[w].Exited?
    ensures w < |Seen(m, cap).workers| && Seen(m, cap).workers[w].Exited?
  {
    hide R.Queue, R.BoundsOk, D.BoundsOk, D.Queue, TasksIn;
  }

  lemma SeenCounts(m: Machine, cap: nat)
    requires InBounds(m)
    ensures |Seen(m, cap).deques| == |m.deques| && Seen(m, cap).executed == m.executed
    ensures Seen(m, cap).running == m.running
  {
    hide R.Queue, R.BoundsOk, D.BoundsOk, D.Queue, TasksIn;
  }

  /** One of the destructor's decisions, on the pool over atomic queues. */
  lemma AbstractDestroy(s: P.Pool, s': P.Pool)
    requires P.Shaped(s)
    requires s.draining != [] || s.destructor.NotStarted? || s.destructor.Joining?
             || (s.destructor.DrainingDeques? && s.destructor.i >= |s.deques|)
    requires s.destructor.Joining? && s.destructor.i < |s.workers| ==> s.workers[s.destructor.i].Exited?
    requires !s.destructor.Done?
    requires s' == if s.draining != [] then s.(executed := s.executed + s.draining, draining := [])
                   else if s.destructor.NotStarted? then s.(running := false, destructor := P.Joining(0))
                   else if s.destructor.Joining? then
                     s.(destructor := if s.destructor.i < |s.workers| then P.Joining(s.destructor.i + 1)
                                      else P.DrainingGlobal)
                   else s.(destructor := P.Done)
    ensures DestroysTo(s, s')
  {

  }

  lemma DestroyGlobalFollows(m: Machine, a: R.Step, cap: nat)
    requires Inv(m, cap) && Enabled(m, DestroyGlobal(a))
    ensures InBounds(m) && InBounds(DestroyGlobalStep(m, a))
    ensures if DestroyGlobalStep(m, a) == m.(ring := R.Next(m.ring, a))
            then Seen(DestroyGlobalStep(m, a), cap) == Seen(m, cap)
            else DestroysTo(Seen(m, cap), Seen(DestroyGlobalStep(m, a), cap))
  {
    hide R.Inv, D.Inv, DequesOk, DestroysTo, Quiet, InBounds, TasksIn, D.BoundsOk, D.Queue, ProgressOf, R.Queue, Seen;
    RingMoves(m, a, cap);
    var m1 := m.(ring := R.Next(m.ring, a));
    var m' := DestroyGlobalStep(m, a);
    SeenRing(m, m1, cap);
    SeenDestructor(m, m, cap);
    SeenDestructor(m1, m', cap);
    SeenShaped(m, cap);
    SeenGlobal(m, cap);
    ConsumerDecides(m.ring, a, |m.workers|);
    if m' != m1 {
      if |m.workers| > 0 {
        AllExited(m, cap);
        NoPopUnderWay(m, cap, 0);
      }
      AbstractDrain(Seen(m, cap), Seen(m', cap));
    }
  }

  lemma SeenGlobal(m: Machine, cap: nat)
    requires InBounds(m)
    ensures Seen(m, cap).global == R.Queue(m.ring) && Seen(m, cap).submitted == m.ring.bottom
  {
    hide R.Queue, R.BoundsOk, D.BoundsOk, D.Queue, TasksIn;
  }

  lemma AbstractDrain(s: P.Pool, s': P.Pool)
    requires P.Shaped(s) && s.destructor.DrainingGlobal? && s.draining == []
    requires s' == if s.global == [] then s.(destructor := P.DrainingDeques(0))
                   else s.(global := s.global[1..], draining := [s.global[0]])
    ensures DestroysTo(s, s')
  {

  }

  /** Once the workers are gone a deque's changes show in the deque and in the destructor alone. */
  lemma SeenDrained(m: Machine, m': Machine, i: nat, cap: nat)
    requires InBounds(m) && i < |m.deques| && |m'.deques| == |m.deques| && D.BoundsOk(m'.deques[i])
    requires m' == m.(deques := m.deques[i := m'.deques[i]], destructor := m'.destructor, draining := m'.draining)
    requires forall w :: 0 <= w < |m.workers| ==> m.workers[w].Exited?
    ensures InBounds(m')
    ensures i < |Seen(m, cap).deques| && Seen(m, cap).deques[i] == TasksIn(m.tasks[i], D.Queue(m.deques[i]))
    ensures Seen(m', cap)
              == Seen(m, cap).(deques := Seen(m, cap).deques[i := TasksIn(m.tasks[i], D.Queue(m'.deques[i]))],
                               destructor := DestructorSeen(m'), draining := DrainingSeen(m'))
  {
    hide R.Queue, R.BoundsOk, D.LogicalBottom, D.Queue, TasksIn, DestructorSeen, DrainingSeen, ProgressOf;
    var s, s' := Seen(m, cap), Seen(m', cap);
    assert s'.deques == s.deques[i := TasksIn(m.tasks[i], D.Queue(m'.deques[i]))];
    assert s'.workers == s.workers;
  }

  lemma DrainedOwner(m: Machine, cap: nat)
    requires Inv(m, cap) && AtDeque(m) && m.draining == []
    ensures forall w :: 0 <= w < |m.workers| && w != m.destructor.i ==> ProgressOf(m.deques[w]) == Undecided
  {
    hide R.Inv, DequesOk, Quiet, ProgressOf;
    AllExited(m, cap);
    forall w | 0 <= w < |m.workers| && w != m.destructor.i ensures ProgressOf(m.deques[w]) == Undecided {
      NoPopUnderWay(m, cap, w);
    }
  }

  /** The access at which a pop takes effect. */
  predicate Decides(d: D.Deque, a: D.Step)
    requires d.buffer != [] && D.Enabled(d, a) && D.Next(d, a).buffer != []
  {
    !Returns(a) && ProgressOf(d).Undecided? && !ProgressOf(D.Next(d, a)).Undecided?
  }

  lemma DestroyDequeFollows(m: Machine, a: D.Step, cap: nat)
    requires Inv(m, cap) && Enabled(m, DestroyDeque(a))
    ensures InBounds(m) && InBounds(DestroyDequeStep(m, a))
    ensures if Decides(m.deques[m.destructor.i], a) then DestroysTo(Seen(m, cap), Seen(DestroyDequeStep(m, a), cap))
            else Seen(DestroyDequeStep(m, a), cap) == Seen(m, cap)
  {
    hide R.Inv, D.Inv, D.Atomic, D.EffectOf, D.Queue, D.Next, D.Enabled, TasksIn, DequesOk, DestroysTo, Quiet, Returned,
         ProgressOf, InBounds, D.LogicalBottom, Seen;
    var i := m.destructor.i;
    InvInBounds(m, cap);
    DequeMoves(m, i, a, cap);
    var m' := DestroyDequeStep(m, a);
    var d, d', ts, effect := m.deques[i], D.Next(m.deques[i], a), m.tasks[i], D.EffectOf(m.deques[i], a);
    PopDecides(d, a);
    AllExited(m, cap);
    DrainedOwner(m, cap);
    SeenDestructor(m, m, cap);
    SeenDrained(m, m', i, cap);
    SeenShaped(m, cap);
    TasksFollow(ts, D.Queue(d), effect, D.Queue(d'));
    IdleUndecided(d');
    var s, s' := Seen(m, cap), Seen(m', cap);
    assert s.deques[i := s.deques[i]] == s.deques;
    if Decides(d, a) {
      AbstractDrainDeque(s, s', i);
    }
  }

  lemma IdleUndecided(d: D.Deque)
    requires d.buffer != []
    ensures d.owner.Idle? ==> ProgressOf(d) == Undecided
  {
  }

  lemma AbstractDrainDeque(s: P.Pool, s': P.Pool, i: nat)
    requires P.Shaped(s) && s.destructor == P.DrainingDeques(i) && i < |s.deques| && s.draining == []
    requires var q := s.deques[i];
             s' == if q == [] then s.(deques := s.deques[i := []], destructor := P.DrainingDeques(i + 1))
                   else s.(deques := s.deques[i := q[..|q| - 1]], draining := [q[|q| - 1]])
    ensures DestroysTo(s, s')
  {
    assert s.deques[i] == [] ==> s.deques[i := []] == s.deques;

  }

  /** Every access and every decision of the machine is a step of the pool over atomic queues, or changes nothing that
      pool has. */
  lemma StepFollows(m: Machine, step: Step, cap: nat)
    requires Shaped(m) && Inv(m, cap) && Enabled(m, step)
    ensures InBounds(m) && InBounds(Next(m, step))
    ensures Follows(Seen(m, cap), Seen(Next(m, step), cap))
  {
    hide Inv, InBounds, Follows, DestroysTo, Seen, OwnStep, GlobalStep, StealStep, ControlStep, DestroyControlStep,
         DestroyGlobalStep, DestroyDequeStep;
    match step
    case Submit(a) => SubmitFollows(m, a, cap);
    case Control(w) => ControlFollows(m, w, cap);
    case Own(w, a) =>
      if m.workers[w].PoppingOwn? {
        PopFollows(m, w, a, cap);
      } else {
        PushFollows(m, w, a, cap);
      }
    case Global(w, a) => GlobalFollows(m, w, a, cap);
    case Steal(w, a) => StealFollows(m, w, a, cap);
    case DestroyControl =>
      DestroyControlFollows(m, cap);
      DestroyFollows(Seen(m, cap), Seen(DestroyControlStep(m), cap));
    case DestroyGlobal(a) =>
      DestroyGlobalFollows(m, a, cap);
      DestroyFollows(Seen(m, cap), Seen(DestroyGlobalStep(m, a), cap));
    case DestroyDeque(a) =>
      DestroyDequeFollows(m, a, cap);
      DestroyFollows(Seen(m, cap), Seen(DestroyDequeStep(m, a), cap));
  }

  lemma DestroyFollows(s: P.Pool, s': P.Pool)
    requires s' == s || DestroysTo(s, s')
    ensures Follows(s, s')
  {
    if s' != s {
      FollowsBy(s, s', P.Destroy);
    }
  }

  // ---------- the invariant is kept ----------

  /** A deque nobody touched is as good as before. */
  lemma DequeUntouched(m: Machine, m': Machine, x: nat, cap: nat)
    requires Shaped(m) && Shaped(m') && x < |m.workers| && |m'.workers| == |m.workers| && DequeOk(m, x, cap)
    requires m'.deques[x] == m.deques[x] && m'.tasks[x] == m.tasks[x]
    requires m.deques[x].owner.Idle? || (m'.workers[x] == m.workers[x] && !AtDeque(m))
    ensures DequeOk(m', x, cap)
  {
    hide D.Inv;
  }

  /** A thread that is neither pushing nor popping leaves its deque's owner idle. */
  lemma OwnerIdle(m: Machine, w: nat, cap: nat)
    requires Inv(m, cap) && w < |m.workers| && !m.workers[w].PoppingOwn? && !m.workers[w].Pushing? && !AtDeque(m)
    ensures m.deques[w].owner.Idle?
  {
    hide R.Inv, D.Inv;
    assert DequeOk(m, w, cap);
  }

  /** One worker moved on, with its own deque or another's. */
  lemma WorkerKeeps(m: Machine, m': Machine, v: nat, w: nat, cap: nat)
    requires Inv(m, cap) && w < |m.workers| && v < |m.workers| && !m.workers[w].Exited?
    requires |m'.deques| == |m.deques| && |m'.tasks| == |m.tasks| && |m'.workers| == |m.workers|
    requires m'.destructor == m.destructor && m'.draining == m.draining
    requires forall x :: 0 <= x < |m.workers| && x != v ==> m'.deques[x] == m.deques[x] && m'.tasks[x] == m.tasks[x]
    requires forall x :: 0 <= x < |m.workers| && x != w ==> m'.workers[x] == m.workers[x]
    requires R.Inv(m'.ring) && (!m.destructor.NotStarted? ==> m'.ring.producer.Idle?)
    requires Shaped(m') && DequeOk(m', v, cap)
    requires v == w || m.deques[w].owner.Idle?
    ensures Inv(m', cap)
  {
    hide R.Inv, D.Inv, DequeOk;
    WorkerNotDone(m, w, cap);
    forall x | 0 <= x < |m'.workers| ensures DequeOk(m', x, cap) {
      assert DequeOk(m, x, cap);
      if x != v {
        DequeUntouched(m, m', x, cap);
      }
    }
  }

  lemma OwnKeeps(m: Machine, w: nat, a: D.Step, cap: nat)
    requires Inv(m, cap) && Enabled(m, Own(w, a))
    ensures Inv(OwnStep(m, w, a), cap)
  {
    hide R.Inv, D.Inv, D.Atomic, D.EffectOf, D.Queue, D.Next, D.Enabled, DequesOk, Quiet, Returned, ProgressOf,
         D.LogicalBottom;
    var m' := OwnStep(m, w, a);
    DequeMoves(m, w, a, cap);
    DequeIs(m, w, cap);
    if m.workers[w].PoppingOwn? {
      PopDecides(m.deques[w], a);
    } else {
      PushDecides(m.deques[w], a);
    }
    InvBuffers(m'.deques[w]);
    RingQuiet(m, cap);
    WorkerKeeps(m, m', w, w, cap);
  }

  lemma InvBuffers(d: D.Deque)
    requires D.Inv(d)
    ensures d.buffer != []
  {
  }

  lemma RingQuiet(m: Machine, cap: nat)
    requires Inv(m, cap)
    ensures R.Inv(m.ring) && (!m.destructor.NotStarted? ==> m.ring.producer.Idle?)
  {
    hide R.Inv, DequesOk;
  }

  lemma StealKeeps(m: Machine, w: nat, a: D.Step, cap: nat)
    requires Inv(m, cap) && Enabled(m, Steal(w, a))
    ensures Inv(StealStep(m, w, a), cap)
  {
    hide R.Inv, D.Inv, D.Atomic, D.EffectOf, D.Queue, D.Next, D.Enabled, DequesOk, Quiet, ProgressOf, D.LogicalBottom,
         D.PcOf;
    var v := Victim(m, w, m.workers[w].i);
    var m' := StealStep(m, w, a);
    WorkerNotDone(m, w, cap);
    DequeMoves(m, v, a, cap);
    DequeIs(m, v, cap);
    ThiefDecides(m.deques[v], a);
    OwnerIdle(m, w, cap);
    InvBuffers(m'.deques[v]);
    RingQuiet(m, cap);
    WorkerKeeps(m, m', v, w, cap);
  }

  lemma ControlKeeps(m: Machine, w: nat, cap: nat)
    requires Inv(m, cap) && Enabled(m, Control(w))
    ensures Inv(ControlStep(m, w), cap)
  {
    hide R.Inv, D.Inv, DequesOk, Quiet;
    WorkerNotDone(m, w, cap);
    DequeIs(m, w, cap);
    OwnerIdle(m, w, cap);
    RingQuiet(m, cap);
    WorkerKeeps(m, ControlStep(m, w), w, w, cap);
  }

  lemma GlobalKeeps(m: Machine, w: nat, a: R.Step, cap: nat)
    requires Inv(m, cap) && Enabled(m, Global(w, a))
    ensures Inv(GlobalStep(m, w, a), cap)
  {
    hide R.Inv, D.Inv, R.Next, R.Enabled, R.PcOf, DequesOk, Quiet, D.BoundsOk;
    WorkerNotDone(m, w, cap);
    DequeIs(m, w, cap);
    OwnerIdle(m, w, cap);
    RingMoves(m, a, cap);
    RingQuiet(m, cap);
    ConsumerDecides(m.ring, a, w);
    RingBuffers(R.Next(m.ring, a));
    WorkerKeeps(m, GlobalStep(m, w, a), w, w, cap);
  }

  lemma RingBuffers(r: R.Ring)
    requires R.Inv(r)
    ensures r.buffer != []
  {
  }

  /** The ring moved, or the destructor did. */
  lemma DestructorKeeps(m: Machine, m': Machine, cap: nat)
    requires Inv(m, cap) && Shaped(m') && m'.deques == m.deques && m'.tasks == m.tasks && m'.workers == m.workers
    requires R.Inv(m'.ring) && Quiet(m')
    requires !AtDeque(m) || forall w :: 0 <= w < |m.workers| ==> m.deques[w].owner.Idle?
    ensures Inv(m', cap)
  {
    hide R.Inv, D.Inv, DequeOk, Quiet;
    forall x | 0 <= x < |m'.workers| ensures DequeOk(m', x, cap) {
      assert DequeOk(m, x, cap);
      DequeUntouched(m, m', x, cap);
    }
  }

  lemma SubmitKeeps(m: Machine, a: R.Step, cap: nat)
    requires Inv(m, cap) && Enabled(m, Submit(a))
    ensures Inv(Next(m, Submit(a)), cap)
  {
    hide R.Inv, D.Inv, R.Next, R.Enabled, DequesOk, D.BoundsOk;
    RingMoves(m, a, cap);
    RingBuffers(R.Next(m.ring, a));
    DestructorKeeps(m, Next(m, Submit(a)), cap);
  }

  lemma AllIdle(m: Machine, cap: nat)
    requires Inv(m, cap) && (m.destructor.DrainingGlobal? || m.destructor.DrainingDeques?)
    requires m.draining != [] || !AtDeque(m)
    ensures forall w :: 0 <= w < |m.workers| ==> m.deques[w].owner.Idle?
  {
    hide R.Inv, DequesOk, Quiet, ProgressOf;
    AllExited(m, cap);
    forall w | 0 <= w < |m.workers| ensures m.deques[w].owner.Idle? {
      NoPopUnderWay(m, cap, w);
    }
  }

  lemma DestroyControlKeeps(m: Machine, cap: nat)
    requires Inv(m, cap) && Enabled(m, DestroyControl)
    ensures Inv(DestroyControlStep(m), cap)
  {
    hide R.Inv, D.Inv, DequesOk;
    if m.destructor.DrainingGlobal? || m.destructor.DrainingDeques? {
      AllIdle(m, cap);
    }
    DestructorKeeps(m, DestroyControlStep(m), cap);
  }

  lemma DestroyGlobalKeeps(m: Machine, a: R.Step, cap: nat)
    requires Inv(m, cap) && Enabled(m, DestroyGlobal(a))
    ensures Inv(DestroyGlobalStep(m, a), cap)
  {
    hide R.Inv, D.Inv, R.Next, R.Enabled, R.PcOf, DequesOk, D.BoundsOk;
    RingMoves(m, a, cap);
    ConsumerDecides(m.ring, a, |m.workers|);
    RingBuffers(R.Next(m.ring, a));
    AllIdle(m, cap);
    DestructorKeeps(m, DestroyGlobalStep(m, a), cap);
  }

  lemma DestroyDequeKeeps(m: Machine, a: D.Step, cap: nat)
    requires Inv(m, cap) && Enabled(m, DestroyDeque(a))
    ensures Inv(DestroyDequeStep(m, a), cap)
  {
    hide R.Inv, D.Inv, D.Atomic, D.EffectOf, D.Queue, D.Next, D.Enabled, DequesOk, Returned, ProgressOf, D.LogicalBottom;
    var i := m.destructor.i;
    var m' := DestroyDequeStep(m, a);
    DequeMoves(m, i, a, cap);
    PopDecides(m.deques[i], a);
    InvBuffers(m'.deques[i]);
    AllExited(m, cap);
    forall x | 0 <= x < |m'.workers| ensures DequeOk(m', x, cap) {
      DequeIs(m, x, cap);
      if x != i {
        NoPopUnderWay(m, cap, x);
        DequeUntouched(m, m', x, cap);
      }
    }
    DequesAll(m', cap);
  }

  lemma DequesAll(m: Machine, cap: nat)
    requires Shaped(m) && forall w :: 0 <= w < |m.workers| ==> DequeOk(m, w, cap)
    ensures DequesOk(m, cap)
  {
    hide DequeOk;
  }

  lemma StepKeeps(m: Machine, step: Step, cap: nat)
    requires Inv(m, cap) && Enabled(m, step)
    ensures Inv(Next(m, step), cap)
  {
    hide Inv, OwnStep, GlobalStep, StealStep, ControlStep, DestroyControlStep, DestroyGlobalStep, DestroyDequeStep;
    match step
    case Submit(a) => SubmitKeeps(m, a, cap);
    case Control(w) => ControlKeeps(m, w, cap);
    case Own(w, a) => OwnKeeps(m, w, a, cap);
    case Global(w, a) => GlobalKeeps(m, w, a, cap);
    case Steal(w, a) => StealKeeps(m, w, a, cap);
    case DestroyControl => DestroyControlKeeps(m, cap);
    case DestroyGlobal(a) => DestroyGlobalKeeps(m, a, cap);
    case DestroyDeque(a) => DestroyDequeKeeps(m, a, cap);
  }

  // ---------- every interleaving ----------

  /** In order itself, and seen as a pool that is. */
  ghost predicate Sound(m: Machine, cap: nat, x: Token) {
    Inv(m, cap) && InBounds(m) && P.Inv(Seen(m, cap), x)
  }

  lemma FollowsKeeps(s: P.Pool, s': P.Pool, x: Token)
    requires P.Inv(s, x) && Follows(s, s')
    ensures P.Inv(s', x)
  {
    hide P.Inv, P.Next, P.Enabled;
    if s' != s {
      var step :| P.Shaped(s) && P.Enabled(s, step) && P.Next(s, step) == s';
      P.StepKeeps(s, step, x);
    }
  }

  lemma StepKeepsSound(m: Machine, step: Step, cap: nat, x: Token)
    requires Sound(m, cap, x) && Shaped(m) && Enabled(m, step)
    ensures Sound(Next(m, step), cap, x)
  {
    hide Inv, InBounds, P.Inv, Seen, Follows, Next, Enabled;
    StepKeeps(m, step, cap);
    StepFollows(m, step, cap);
    FollowsKeeps(Seen(m, cap), Seen(Next(m, step), cap), x);
  }

  ghost predicate Schedule(m: Machine, steps: seq<Step>)
    decreases |steps|
  {
    steps == [] || (Shaped(m) && Enabled(m, steps[0]) && Schedule(Next(m, steps[0]), steps[1..]))
  }

  ghost function After(m: Machine, steps: seq<Step>): Machine
    requires Schedule(m, steps)
    decreases |steps|
  {
    if steps == [] then m else After(Next(m, steps[0]), steps[1..])
  }

  lemma {:induction false} ScheduleKeeps(m: Machine, steps: seq<Step>, cap: nat, x: Token)
    requires Sound(m, cap, x) && Schedule(m, steps)
    ensures Sound(After(m, steps), cap, x)
    decreases |steps|
  {
    hide Next, Sound, Enabled;
    if steps != [] {
      StepKeepsSound(m, steps[0], cap, x);
      ScheduleKeeps(Next(m, steps[0]), steps[1..], cap, x);
    }
  }

  lemma InitOk(threads: nat, globalCapacity: nat, localCapacity: nat, x: Token)
    requires globalCapacity > 0 && localCapacity > 0
    ensures Sound(Init(threads, globalCapacity, localCapacity), localCapacity, x)
  {
    hide R.Inv, D.Inv, P.Inv, D.Queue, R.Queue, TasksIn;
    var m := Init(threads, globalCapacity, localCapacity);
    R.InitOk(globalCapacity);
    D.InitOk(localCapacity);
    InvInBounds(m, localCapacity);
    NothingYet(globalCapacity, localCapacity);
    P.InitOk(threads, globalCapacity, localCapacity, x);
    var s, s' := Seen(m, localCapacity), P.Init(threads, globalCapacity, localCapacity);
    assert s.deques == s'.deques;
    assert s.workers == s'.workers;
  }

  lemma NothingYet(globalCapacity: nat, localCapacity: nat)
    requires globalCapacity > 0 && localCapacity > 0
    ensures R.BoundsOk(R.Init(globalCapacity)) && R.Queue(R.Init(globalCapacity)) == []
    ensures D.BoundsOk(D.Init(localCapacity)) && TasksIn([], D.Queue(D.Init(localCapacity))) == []
  {
  }

  /** However every access of every thread interleaves: no task is executed twice, none that was not submitted is
      executed, and when the destructor has returned each submitted task has been executed exactly once. */
  lemma ExecutedExactlyOnce(threads: nat, globalCapacity: nat, localCapacity: nat, steps: seq<Step>, x: Token)
    requires globalCapacity > 0 && localCapacity > 0
    requires Schedule(Init(threads, globalCapacity, localCapacity), steps)
    ensures var m := After(Init(threads, globalCapacity, localCapacity), steps);
            && multiset(m.executed)[x] <= (if x < m.ring.bottom then 1 else 0)
            && (m.destructor.Done? ==> multiset(m.executed)[x] == if x < m.ring.bottom then 1 else 0)
  {
    hide Inv, InBounds, Seen, Schedule, After, P.Inv, Init;
    InitOk(threads, globalCapacity, localCapacity, x);
    ScheduleKeeps(Init(threads, globalCapacity, localCapacity), steps, localCapacity, x);
    var m := After(Init(threads, globalCapacity, localCapacity), steps);
    SeenCounts(m, localCapacity);
    SeenGlobal(m, localCapacity);
    if m.destructor.Done? {
      SeenDone(m, localCapacity);
    }
    P.OnceEach(Seen(m, localCapacity), x);
  }

  lemma SeenDone(m: Machine, cap: nat)
    requires InBounds(m) && m.destructor.Done?
    ensures Seen(m, cap).destructor.Done?
  {
    hide R.BoundsOk, D.BoundsOk, TasksIn, WorkerSeen, R.Queue, D.Queue;
  }

  // ---------- nobody is stuck ----------

  /** A worker that has not left its loop always has a next access or decision to make, whatever the others do. */
  lemma WorkerCanMove(m: Machine, w: nat, cap: nat)
    requires Inv(m, cap) && w < |m.workers| && !m.workers[w].Exited?
    ensures exists step :: Enabled(m, step) && Mover(step) == w
  {
    hide R.Inv, D.Inv, DequesOk, Quiet;
    DequeIs(m, w, cap);
    WorkerNotDone(m, w, cap);
    var d := m.deques[w];
    match m.workers[w]
    case PoppingOwn(_) => assert Enabled(m, Own(w, NextPop(d)));
    case Pushing(_) =>
      TopIsNatural(d);
      assert Enabled(m, Own(w, NextPush(d)));
    case PoppingGlobal => assert Enabled(m, Global(w, NextTake(m.ring, w)));
    case Stealing(i) =>
      if i < |m.workers| {
        assert Enabled(m, Steal(w, NextSteal(m.deques[Victim(m, w, i)], w)));
      } else {
        assert Enabled(m, Control(w));
      }
    case AtLoop => assert Enabled(m, Control(w));
    case Running(_) => assert Enabled(m, Control(w));
  }

  function Mover(step: Step): int {
    if step.Control? || step.Own? || step.Global? || step.Steal? then step.w else -1
  }

  lemma TopIsNatural(d: D.Deque)
    requires D.Inv(d)
    ensures d.top >= 0
  {
  }

  function NextPop(d: D.Deque): D.Step {
    match d.owner
    case PopLoaded(_) => D.PopPublish
    case PopPublished(_) => D.PopReadTop
    case PopSawTop(b, t) => if b < t then D.PopEmpty else if b > t then D.PopTake else D.PopRace
    case PopRaced(_, _, _) => D.PopRestore
    case PopRestored(_, _) => D.PopFinish
    case _ => D.PopLoad
  }

  function NextPush(d: D.Deque): D.Step {
    match d.owner
    case PushLoaded(_) => D.PushCheck(d.top)
    case PushChecked(_) => D.PushStore
    case PushStored(_) => D.PushPublish
    case _ => D.PushLoad
  }

  function NextTake(r: R.Ring, k: nat): R.Step {
    match R.PcOf(r, k)
    case Away => R.PopStart(k, r.top)
    case AtPosition(_) => R.PopReadBottom(k)
    case SawRoom(_) => R.PopReadItem(k)
    case SawItem(_, _) => R.PopRace(k, false)
  }

  function NextSteal(d: D.Deque, k: nat): D.Step {
    match D.PcOf(d, k)
    case Away => D.StealReadTop(k)
    case SawTop(_) => D.StealReadBottom(k)
    case SawBottom(_) => D.StealReadItem(k)
    case SawItem(_, _) => D.StealRace(k)
  }

  /** Why a worker may go past a deque it tried to steal from: the item it looked at has been claimed, or there was
      none, or a pop under way has drawn bottom_ back over the only one. */
  predicate StealCause(d: D.Deque, a: D.Step)
    requires D.BoundsOk(d) && D.ByThief(a) && D.Enabled(d, a)
  {
    match a
    case StealReadBottom(k) =>
      D.PcOf(d, k).t < d.top || D.Queue(d) == [] || (|D.Queue(d)| == 1 && D.PopUndecided(d))
    case StealRace(k) => D.PcOf(d, k).t < d.top
    case _ => false
  }

  /** A worker goes past a peer's deque only for cause, one peer at a time, and otherwise runs the front task of it. */
  lemma StealsForCause(m: Machine, w: nat, a: D.Step, cap: nat)
    requires Inv(m, cap) && Enabled(m, Steal(w, a))
    ensures var i := m.workers[w].i; var v := Victim(m, w, i); var d, pc' := m.deques[v], StealStep(m, w, a).workers[w];
            && D.BoundsOk(d)
            && (|| pc' == m.workers[w]
                || (a.StealRace? && D.Queue(d) != [] && pc' == Running(Task(m.tasks[v], D.Queue(d)[0])))
                || (StealCause(d, a) && pc' == Stealing(i + 1)))
  {
    hide R.Inv, D.Inv, D.Queue, D.Atomic, DequesOk, Quiet, D.Next, D.LogicalBottom, D.Enabled;
    var v := Victim(m, w, m.workers[w].i);
    DequeMoves(m, v, a, cap);
    StealIs(m, w, a);
    StealEffect(m.deques[v], a);
    StealsFront(m.deques[v], a);
  }

  lemma StealsFront(d: D.Deque, a: D.Step)
    requires D.Inv(d) && D.ByThief(a) && D.Enabled(d, a)
    ensures var d' := D.Next(d, a); var k := a.thief;
            && (a.StealReadBottom? && D.PcOf(d', k).Away? ==> StealCause(d, a))
            && (a.StealRace? && d.top != D.PcOf(d, k).t ==> StealCause(d, a))
            && (a.StealRace? && d.top == D.PcOf(d, k).t ==> D.Queue(d) != [] && D.Queue(d)[0] == D.PcOf(d, k).item)
  {
    hide D.Conserved;
  }

  /** A worker goes past the shared ring only when that is empty, and otherwise takes its front item. */
  lemma TakesForCause(m: Machine, w: nat, a: R.Step, cap: nat)
    requires Inv(m, cap) && Enabled(m, Global(w, a))
    ensures R.BoundsOk(m.ring)
    ensures var pc', q := GlobalStep(m, w, a).workers[w], R.Queue(m.ring);
            || pc' == PoppingGlobal
            || (q != [] && pc' == Pushing(q[0]))
            || (q == [] && pc' == Stealing(1))
  {
    hide R.CellsOk, R.TakenOk, R.ConsumersOk, D.Inv, DequesOk, Quiet, R.Queue;
    ConsumerDecides(m.ring, a, w);
    R.StepRefines(m.ring, a);
  }

  /** A worker goes past its own deque only when its pop found nothing, and otherwise runs what the pop won. */
  lemma PopsForCause(m: Machine, w: nat, a: D.Step, cap: nat)
    requires Inv(m, cap) && Enabled(m, Own(w, a)) && m.workers[w].PoppingOwn?
    ensures var pc' := OwnStep(m, w, a).workers[w];
            match ProgressOf(m.deques[w])
            case Undecided => pc' == m.workers[w]
            case Won(n) => pc' == m.workers[w] || pc' == Running(Task(m.tasks[w], n))
            case Empty => pc' == m.workers[w] || pc' == if m.workers[w].first then PoppingGlobal else AtLoop
  {
    hide R.Inv, D.Inv, D.Queue, D.Next, D.Enabled, DequesOk, Quiet, Returned, ProgressOf, D.LogicalBottom;
    DequeMoves(m, w, a, cap);
    PopDecides(m.deques[w], a);
  }

  /** A worker keeps a task to itself only when its deque has no room by the top_ it saw, and otherwise queues it. */
  lemma PushesForCause(m: Machine, w: nat, a: D.Step, cap: nat)
    requires Inv(m, cap) && Enabled(m, Own(w, a)) && m.workers[w].Pushing?
    ensures D.BoundsOk(m.deques[w]) && D.BoundsOk(OwnStep(m, w, a).deques[w])
    ensures var x, d, m' := m.workers[w].task, m.deques[w], OwnStep(m, w, a);
            || m'.workers[w] == m.workers[w]
            || (D.Queue(m'.deques[w]) == D.Queue(d) + [d.pushed] && m'.tasks[w] == m.tasks[w] + [x]
                && m'.workers[w] == PoppingOwn(false))
            || (a.PushCheck? && d.bottom - a.staleTop >= |d.buffer| && m'.workers[w] == Running(x))
  {
    hide R.Inv, D.Inv, D.Queue, D.Next, D.Enabled, D.EffectOf, DequesOk, Quiet, D.LogicalBottom;
    DequeMoves(m, w, a, cap);
    PushDecides(m.deques[w], a);
    if a.PushCheck? {
      RefusedByStale(m.deques[w], a);
    }
  }

  lemma RefusedByStale(d: D.Deque, a: D.Step)
    requires D.Inv(d) && a.PushCheck? && D.Enabled(d, a)
    ensures D.Next(d, a).owner.Idle? <==> d.bottom - a.staleTop >= |d.buffer|
  {
    hide D.Conserved, D.ThievesOk;
  }

  // ---------- the destructor ends ----------

  /** Once destruction has begun the destructor can always move, unless it waits for a worker to leave its loop. */
  lemma DestructorCanMove(m: Machine, cap: nat)
    requires Inv(m, cap) && !m.destructor.NotStarted? && !m.destructor.Done?
    requires m.destructor.Joining? && m.destructor.i < |m.workers| ==> m.workers[m.destructor.i].Exited?
    ensures exists step :: Enabled(m, step) && ByDestructor(step)
  {
    hide R.Inv, D.Inv, Quiet;
    match m.destructor
    case DrainingGlobal =>
      if m.draining == [] {
        assert Enabled(m, DestroyGlobal(NextTake(m.ring, |m.workers|)));
      } else {
        assert Enabled(m, DestroyControl);
      }
    case DrainingDeques(i) =>
      if m.draining == [] && i < |m.deques| {
        AllExited(m, cap);
        assert DequeOk(m, i, cap);
        assert Enabled(m, DestroyDeque(NextPop(m.deques[i])));
      } else {
        assert Enabled(m, DestroyControl);
      }
    case Joining(_) => assert Enabled(m, DestroyControl);
  }

  predicate ByDestructor(step: Step) {
    step.DestroyControl? || step.DestroyGlobal? || step.DestroyDeque?
  }

  /** A compare-and-swap that fails for no reason is the one access that brings nobody further. */
  predicate Spurious(step: Step) {
    step.DestroyGlobal? && step.ringAccess.PopRace? && step.ringAccess.spuriousFailure
  }

  /** How far consumer k still is from the end of its pop: a round from an old position comes before one from top_. */
  function TakePhase(r: R.Ring, k: nat): nat {
    match R.PcOf(r, k)
    case Away => 7
    case AtPosition(pos) => if pos == r.top then 3 else 6
    case SawRoom(pos) => if pos == r.top then 2 else 5
    case SawItem(pos, _) => if pos == r.top then 1 else 4
  }

  /** How far an owner's pop is from its end; one that has found nothing is before one on the next deque. */
  function PopPhase(d: D.Deque): nat {
    match d.owner
    case PopLoaded(_) => 6
    case PopPublished(_) => 5
    case PopSawTop(b, t) => if b < t then 14 else 4
    case PopRaced(_, _, won) => if won then 3 else 13
    case PopRestored(_, won) => if won then 2 else 12
    case _ => 7
  }

  function Phase(m: Machine): nat {
    if m.draining != [] then 0
    else
      match m.destructor
      case DrainingGlobal => TakePhase(m.ring, |m.workers|)
      case DrainingDeques(i) => if i < |m.deques| then PopPhase(m.deques[i]) else 0
      case _ => 0
  }

  predicate PastJoin(m: Machine) {
    m.destructor.DrainingGlobal? || m.destructor.DrainingDeques? || m.destructor.Done?
  }

  /** What the destructor has left to do: what is left on the pool over atomic queues, and then the pop it is in. */
  function LeftToDo(m: Machine, cap: nat): (int, nat)
    requires InBounds(m)
  {
    (P.LeftToDo(Seen(m, cap)), Phase(m))
  }

  predicate Less(a: (int, nat), b: (int, nat)) {
    0 <= a.0 && (a.0 < b.0 || (a.0 == b.0 && a.1 < b.1))
  }

  lemma TakeShrinks(m: Machine, a: R.Step)
    requires Shaped(m) && R.Inv(m.ring) && Enabled(m, DestroyGlobal(a)) && !Spurious(DestroyGlobal(a))
    requires DestroyGlobalStep(m, a) == m.(ring := R.Next(m.ring, a))
    ensures Phase(DestroyGlobalStep(m, a)) < Phase(m)
  {
    hide R.CellsOk, R.TakenOk, R.BoundsOk;
    R.ConsumerIs(m.ring, a);
  }

  lemma PopShrinks(m: Machine, a: D.Step, cap: nat)
    requires Inv(m, cap) && Enabled(m, DestroyDeque(a)) && D.Inv(m.deques[m.destructor.i])
    requires D.Next(m.deques[m.destructor.i], a).buffer != [] && !Decides(m.deques[m.destructor.i], a)
    ensures Phase(DestroyDequeStep(m, a)) < Phase(m)
  {
    hide R.Inv, D.Conserved, D.ThievesOk, D.BoundsOk, Quiet;
    var i := m.destructor.i;
    if i + 1 < |m.deques| {
      AllExited(m, cap);
      NoPopUnderWay(m, cap, i + 1);
    }
  }

  lemma PoolShrinks(s: P.Pool, s': P.Pool)
    requires P.PhasesOk(s) && P.PastJoin(s) && DestroysTo(s, s')
    ensures P.Shaped(s') && 0 <= P.LeftToDo(s') < P.LeftToDo(s)
  {
    hide P.PhasesOk, P.LeftToDo, P.DestructorStep;
    P.DrainShrinks(s);
    P.PhasesShape(s');
  }

  lemma SeenPastJoin(m: Machine, cap: nat)
    requires InBounds(m)
    ensures PastJoin(m) <==> P.PastJoin(Seen(m, cap))
  {
    hide R.BoundsOk, D.BoundsOk, TasksIn, WorkerSeen, R.Queue, D.Queue, ProgressOf;
  }

  lemma NothingLess(s: P.Pool)
    requires P.PhasesOk(s) && P.PastJoin(s)
    ensures P.Shaped(s) && P.LeftToDo(s) >= 0
  {
    hide P.QueuedIn;
  }

  /** Every access and every decision of the draining destructor leaves less to do, so the drain ends. */
  lemma DrainShrinks(m: Machine, step: Step, cap: nat, x: Token)
    requires Sound(m, cap, x) && PastJoin(m) && ByDestructor(step) && Shaped(m) && Enabled(m, step) && !Spurious(step)
    ensures InBounds(Next(m, step)) && Less(LeftToDo(Next(m, step), cap), LeftToDo(m, cap))
  {
    hide Seen, InBounds, DestroysTo, P.LeftToDo, P.PhasesOk, P.Conserved, DestroyControlStep, DestroyGlobalStep,
         DestroyDequeStep, Phase, Decides, D.Next, R.Next, D.Inv, R.Inv, DequesOk, Quiet, D.Enabled;
    SeenPastJoin(m, cap);
    NothingLess(Seen(m, cap));
    match step
    case DestroyControl =>
      DestroyControlFollows(m, cap);
      PoolShrinks(Seen(m, cap), Seen(DestroyControlStep(m), cap));
    case DestroyGlobal(a) =>
      DestroyGlobalFollows(m, a, cap);
      if DestroyGlobalStep(m, a) == m.(ring := R.Next(m.ring, a)) {
        TakeShrinks(m, a);
      } else {
        PoolShrinks(Seen(m, cap), Seen(DestroyGlobalStep(m, a), cap));
      }
    case DestroyDeque(a) =>
      DequeMoves(m, m.destructor.i, a, cap);
      DestroyDequeFollows(m, a, cap);
      if Decides(m.deques[m.destructor.i], a) {
        PoolShrinks(Seen(m, cap), Seen(DestroyDequeStep(m, a), cap));
      } else {
        PopShrinks(m, a, cap);
      }
    case _ =>
  }
}
