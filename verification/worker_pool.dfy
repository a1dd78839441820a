/** The work-stealing pool over atomic queues: submission, the worker loop, and the destructor's drain, interleaved any
    way at all. Tokens number the successful submissions. */
module WorkerPools {
  import opened ExchangeTypes

  type Token = nat

  datatype WorkerPc =
    | AtLoop
    | AtOwn
    | AtGlobal
    | Republishing(task: Token)
    | AfterRepublish
    | Stealing(i: nat)
    | Running(task: Token)
    | Exited

  datatype DestructorPc =
    | NotStarted
    | Joining(i: nat)
    | DrainingGlobal
    | DrainingDeques(i: nat)
    | Done

  datatype Pool = Pool(
    running: bool,
    global: seq<Token>,
    globalCapacity: nat,
    deques: seq<seq<Token>>,
    localCapacity: nat,
    workers: seq<WorkerPc>,
    destructor: DestructorPc,
    draining: seq<Token>,
    submitted: nat,
    executed: seq<Token>)

  /** `refused` lets a push find no room, or a steal lose its race, for no visible reason. */
  datatype Step =
    | Submit
    | Work(w: nat, refused: bool)
    | Destroy

  function Init(threads: nat, globalCapacity: nat, localCapacity: nat): Pool {
    Pool(true, [], globalCapacity, seq(threads, _ => []), localCapacity, seq(threads, _ => AtLoop), NotStarted, [], 0, [])
  }

  /** Submission must not race destruction, and spins while the queue is full. */
  predicate Enabled(s: Pool, step: Step) {
    match step
    case Submit => s.destructor.NotStarted? && |s.global| < s.globalCapacity
    case Work(w, _) => w < |s.workers| && !s.workers[w].Exited?
    case Destroy =>
      && !s.destructor.Done?
      && (s.destructor.Joining? && s.destructor.i < |s.workers| ==> s.workers[s.destructor.i].Exited?)
  }

  predicate Shaped(s: Pool) {
    |s.deques| == |s.workers|
  }

  function At(s: Pool, w: nat, pc: WorkerPc): Pool
    requires w < |s.workers|
  {
    s.(workers := s.workers[w := pc])
  }

  /** pop on one's own deque: the back. */
  function PopOwn(s: Pool, w: nat, ifEmpty: WorkerPc): Pool
    requires Shaped(s) && w < |s.workers|
  {
    var q := s.deques[w];
    if q == [] then At(s, w, ifEmpty)
    else At(s.(deques := s.deques[w := q[..|q| - 1]]), w, Running(q[|q| - 1]))
  }

  function WorkerStep(s: Pool, w: nat, refused: bool): Pool
    requires Shaped(s) && w < |s.workers| && !s.workers[w].Exited?
  {
    match s.workers[w]
    case AtLoop => At(s, w, if s.running then AtOwn else Exited)
    case AtOwn => PopOwn(s, w, AtGlobal)
    case AtGlobal =>
      if s.global == [] then At(s, w, Stealing(1))
      else At(s.(global := s.global[1..]), w, Republishing(s.global[0]))
    case Republishing(x) =>
      if refused || |s.deques[w]| >= s.localCapacity then At(s, w, Running(x))
      else At(s.(deques := s.deques[w := s.deques[w] + [x]]), w, AfterRepublish)
    case AfterRepublish => PopOwn(s, w, AtLoop)
    case Stealing(i) =>
      if i >= |s.workers| then At(s, w, AtLoop)
      else
        var v := (w + i) % |s.workers|;
        if refused || s.deques[v] == [] then At(s, w, Stealing(i + 1))
        else At(s.(deques := s.deques[v := s.deques[v][1..]]), w, Running(s.deques[v][0]))
    case Running(x) => At(s.(executed := s.executed + [x]), w, AtLoop)
  }

  /** Stop, join each worker in turn, drain the global queue, then each deque; every task popped is executed. */
  function DestructorStep(s: Pool): Pool
    requires Shaped(s) && Enabled(s, Destroy)
  {
    if s.draining != [] then s.(executed := s.executed + s.draining, draining := [])
    else
      match s.destructor
      case NotStarted => s.(running := false, destructor := Joining(0))
      case Joining(i) => s.(destructor := if i < |s.workers| then Joining(i + 1) else DrainingGlobal)
      case DrainingGlobal =>
        if s.global == [] then s.(destructor := DrainingDeques(0))
        else s.(global := s.global[1..], draining := [s.global[0]])
      case DrainingDeques(i) =>
        if i >= |s.deques| then s.(destructor := Done)
        else
          var q := s.deques[i];
          if q == [] then s.(destructor := DrainingDeques(i + 1))
          else s.(deques := s.deques[i := q[..|q| - 1]], draining := [q[|q| - 1]])
  }

  function Next(s: Pool, step: Step): Pool
    requires Shaped(s) && Enabled(s, step)
  {
    match step
    case Submit => s.(global := s.global + [s.submitted], submitted := s.submitted + 1)
    case Work(w, refused) => WorkerStep(s, w, refused)
    case Destroy => DestructorStep(s)
  }

  // ---------- where every task is ----------

  /** How often task x occurs in a queue. */
  function Occurs(q: seq<Token>, x: Token): nat {
    multiset(q)[x]
  }

  function InHand(pc: WorkerPc, x: Token): nat {
    if (pc.Republishing? || pc.Running?) && pc.task == x then 1 else 0
  }

  function InHands(workers: seq<WorkerPc>, x: Token): nat {
    if workers == [] then 0 else InHand(workers[0], x) + InHands(workers[1..], x)
  }

  function InDeques(deques: seq<seq<Token>>, x: Token): nat {
    if deques == [] then 0 else Occurs(deques[0], x) + InDeques(deques[1..], x)
  }

  lemma {:induction false} HandsUpdate(workers: seq<WorkerPc>, w: nat, pc: WorkerPc, x: Token)
    requires w < |workers|
    ensures InHands(workers[w := pc], x) + InHand(workers[w], x) == InHands(workers, x) + InHand(pc, x)
  {
    var workers' := workers[w := pc];
    if w == 0 {
      assert workers'[1..] == workers[1..];
    } else {
      assert workers'[1..] == workers[1..][w - 1 := pc];
      HandsUpdate(workers[1..], w - 1, pc, x);
    }
  }

  lemma {:induction false} DequesUpdate(deques: seq<seq<Token>>, w: nat, q: seq<Token>, x: Token)
    requires w < |deques|
    ensures InDeques(deques[w := q], x) + Occurs(deques[w], x) == InDeques(deques, x) + Occurs(q, x)
  {
    var deques' := deques[w := q];
    if w == 0 {
      assert deques'[1..] == deques[1..];
    } else {
      assert deques'[1..] == deques[1..][w - 1 := q];
      DequesUpdate(deques[1..], w - 1, q, x);
    }
  }

  /** How often task x occurs anywhere: executed, queued, or in some hand. */
  function Everywhere(s: Pool, x: Token): nat {
    Occurs(s.executed, x) + Occurs(s.global, x) + InDeques(s.deques, x) + InHands(s.workers, x) + Occurs(s.draining, x)
  }

  /** A submitted task is in exactly one place, once; no other task is anywhere. */
  predicate Conserved(s: Pool, x: Token) {
    Everywhere(s, x) == if x < s.submitted then 1 else 0
  }

  /** How far the destructor is tells what is already empty. */
  predicate PhasesOk(s: Pool) {
    && Shaped(s)
    && (s.running <==> s.destructor.NotStarted?)
    && (s.destructor.Joining? ==>
          s.destructor.i <= |s.workers| && forall w :: 0 <= w < s.destructor.i ==> s.workers[w].Exited?)
    && (PastJoin(s) ==> forall w :: 0 <= w < |s.workers| ==> s.workers[w].Exited?)
    && (s.destructor.DrainingDeques? || s.destructor.Done? ==> s.global == [])
    && (s.destructor.DrainingDeques? ==>
          s.destructor.i <= |s.deques| && forall w :: 0 <= w < s.destructor.i ==> s.deques[w] == [])
    && (s.destructor.Done? ==> (forall w :: 0 <= w < |s.deques| ==> s.deques[w] == []) && s.draining == [])
    && (!PastJoin(s) ==> s.draining == []) && |s.draining| <= 1
  }

  predicate PastJoin(s: Pool) {
    s.destructor.DrainingGlobal? || s.destructor.DrainingDeques? || s.destructor.Done?
  }

  predicate Inv(s: Pool, x: Token) {
    PhasesOk(s) && Conserved(s, x)
  }

  lemma FrontOf(q: seq<Token>, x: Token)
    requires q != []
    ensures Occurs(q, x) == (if q[0] == x then 1 else 0) + Occurs(q[1..], x)
  {
    assert q == [q[0]] + q[1..];
  }

  lemma BackOf(q: seq<Token>, x: Token)
    requires q != []
    ensures Occurs(q, x) == Occurs(q[..|q| - 1], x) + (if q[|q| - 1] == x then 1 else 0)
  {
    assert q == q[..|q| - 1] + [q[|q| - 1]];
  }

  lemma AddBack(q: seq<Token>, y: Token, x: Token)
    ensures Occurs(q + [y], x) == Occurs(q, x) + (if y == x then 1 else 0)
    ensures Occurs([y], x) == (if y == x then 1 else 0) && Occurs([], x) == 0
  {
  }

  lemma PopOwnConserves(s: Pool, w: nat, ifEmpty: WorkerPc, x: Token)
    requires Shaped(s) && w < |s.workers| && InHand(s.workers[w], x) == 0 && InHand(ifEmpty, x) == 0
    ensures Everywhere(PopOwn(s, w, ifEmpty), x) == Everywhere(s, x)
  {
    hide InHands, InDeques, Occurs;
    var q := s.deques[w];
    if q == [] {
      HandsUpdate(s.workers, w, ifEmpty, x);
    } else {
      BackOf(q, x);
      HandsUpdate(s.workers, w, Running(q[|q| - 1]), x);
      DequesUpdate(s.deques, w, q[..|q| - 1], x);
    }
  }

  lemma WorkerConserves(s: Pool, w: nat, refused: bool, x: Token)
    requires Shaped(s) && w < |s.workers| && !s.workers[w].Exited?
    ensures Everywhere(WorkerStep(s, w, refused), x) == Everywhere(s, x)
  {
    hide InHands, InDeques, Occurs, PopOwn;
    match s.workers[w]
    case AtOwn => PopOwnConserves(s, w, AtGlobal, x);
    case AfterRepublish => PopOwnConserves(s, w, AtLoop, x);
    case AtLoop => HandsUpdate(s.workers, w, if s.running then AtOwn else Exited, x);
    case AtGlobal =>
      if s.global == [] {
        HandsUpdate(s.workers, w, Stealing(1), x);
      } else {
        FrontOf(s.global, x);
        HandsUpdate(s.workers, w, Republishing(s.global[0]), x);
      }
    case Republishing(y) =>
      if refused || |s.deques[w]| >= s.localCapacity {
        HandsUpdate(s.workers, w, Running(y), x);
      } else {
        AddBack(s.deques[w], y, x);
        DequesUpdate(s.deques, w, s.deques[w] + [y], x);
        HandsUpdate(s.workers, w, AfterRepublish, x);
      }
    case Stealing(i) => StealConserves(s, w, refused, x);
    case Running(y) =>
      AddBack(s.executed, y, x);
      HandsUpdate(s.workers, w, AtLoop, x);
  }

  lemma StealConserves(s: Pool, w: nat, refused: bool, x: Token)
    requires Shaped(s) && w < |s.workers| && s.workers[w].Stealing?
    ensures Everywhere(WorkerStep(s, w, refused), x) == Everywhere(s, x)
  {
    hide InHands, InDeques, Occurs, PopOwn;
    var i := s.workers[w].i;
    if i >= |s.workers| {
      HandsUpdate(s.workers, w, AtLoop, x);
    } else {
      var v := (w + i) % |s.workers|;
      if refused || s.deques[v] == [] {
        HandsUpdate(s.workers, w, Stealing(i + 1), x);
      } else {
        FrontOf(s.deques[v], x);
        DequesUpdate(s.deques, v, s.deques[v][1..], x);
        HandsUpdate(s.workers, w, Running(s.deques[v][0]), x);
      }
    }
  }

  lemma DestructorConserves(s: Pool, x: Token)
    requires Shaped(s) && Enabled(s, Destroy) && |s.draining| <= 1
    ensures Everywhere(DestructorStep(s), x) == Everywhere(s, x)
  {
    hide InHands, InDeques, Occurs;
    if s.draining != [] {
      assert s.draining == [s.draining[0]];
      AddBack(s.executed, s.draining[0], x);
    } else if s.destructor.DrainingGlobal? && s.global != [] {
      FrontOf(s.global, x);
      AddBack([], s.global[0], x);
    } else if s.destructor.DrainingDeques? && s.destructor.i < |s.deques| && s.deques[s.destructor.i] != [] {
      var q := s.deques[s.destructor.i];
      BackOf(q, x);
      AddBack([], q[|q| - 1], x);
      DequesUpdate(s.deques, s.destructor.i, q[..|q| - 1], x);
    }
  }

  lemma StepConserves(s: Pool, step: Step, x: Token)
    requires Inv(s, x) && Enabled(s, step)
    ensures Conserved(Next(s, step), x)
  {
    hide InHands, InDeques, WorkerStep, DestructorStep, Occurs;
    match step
    case Submit => AddBack(s.global, s.submitted, x);
    case Work(w, refused) =>
      WorkerConserves(s, w, refused, x);
      SubmittedStays(s, step);
    case Destroy =>
      DestructorConserves(s, x);
      SubmittedStays(s, step);
  }

  lemma SubmittedStays(s: Pool, step: Step)
    requires Shaped(s) && Enabled(s, step) && !step.Submit?
    ensures Next(s, step).submitted == s.submitted
  {
  }

  lemma StepKeepsPhases(s: Pool, step: Step)
    requires PhasesOk(s) && Enabled(s, step)
    ensures PhasesOk(Next(s, step))
  {
  }

  lemma StepKeeps(s: Pool, step: Step, x: Token)
    requires Inv(s, x) && Enabled(s, step)
    ensures Inv(Next(s, step), x)
  {
    hide Next, PhasesOk, Conserved;
    PhasesShape(s);
    StepConserves(s, step, x);
    StepKeepsPhases(s, step);
  }

  lemma PhasesShape(s: Pool)
    requires PhasesOk(s)
    ensures Shaped(s)
  {
  }

  ghost predicate Schedule(s: Pool, steps: seq<Step>)
    decreases |steps|
  {
    steps == [] || (Shaped(s) && Enabled(s, steps[0]) && Schedule(Next(s, steps[0]), steps[1..]))
  }

  ghost function After(s: Pool, steps: seq<Step>): Pool
    requires Schedule(s, steps)
    decreases |steps|
  {
    if steps == [] then s else After(Next(s, steps[0]), steps[1..])
  }

  lemma {:induction false} ScheduleKeeps(s: Pool, steps: seq<Step>, x: Token)
    requires Inv(s, x) && Schedule(s, steps)
    ensures Inv(After(s, steps), x)
    decreases |steps|
  {
    hide Next, PhasesOk, Conserved;
    if steps != [] {
      StepKeeps(s, steps[0], x);
      ScheduleKeeps(Next(s, steps[0]), steps[1..], x);
    }
  }

  lemma {:induction false} NothingInHand(workers: seq<WorkerPc>, x: Token)
    requires forall w :: 0 <= w < |workers| ==> InHand(workers[w], x) == 0
    ensures InHands(workers, x) == 0
  {
    if workers != [] {
      NothingInHand(workers[1..], x);
    }
  }

  lemma {:induction false} NothingQueued(deques: seq<seq<Token>>, x: Token)
    requires forall w :: 0 <= w < |deques| ==> deques[w] == []
    ensures InDeques(deques, x) == 0
  {
    if deques != [] {
      NothingQueued(deques[1..], x);
    }
  }

  lemma InitOk(threads: nat, globalCapacity: nat, localCapacity: nat, x: Token)
    ensures Inv(Init(threads, globalCapacity, localCapacity), x)
  {
    var s := Init(threads, globalCapacity, localCapacity);
    NothingInHand(s.workers, x);
    NothingQueued(s.deques, x);
  }

  /** However workers, thieves, submitter and destructor interleave: no task is ever executed twice, and when the
      destructor has returned every task whose submission succeeded has been executed exactly once, and nothing else
      has. */
  lemma ExecutedExactlyOnce(threads: nat, globalCapacity: nat, localCapacity: nat, steps: seq<Step>, x: Token)
    requires Schedule(Init(threads, globalCapacity, localCapacity), steps)
    ensures var s := After(Init(threads, globalCapacity, localCapacity), steps);
            && multiset(s.executed)[x] <= (if x < s.submitted then 1 else 0)
            && (s.destructor.Done? ==> multiset(s.executed)[x] == if x < s.submitted then 1 else 0)
  {
    hide Next, Schedule, After, Inv;
    InitOk(threads, globalCapacity, localCapacity, x);
    ScheduleKeeps(Init(threads, globalCapacity, localCapacity), steps, x);
    OnceEach(After(Init(threads, globalCapacity, localCapacity), steps), x);
  }

  lemma OnceEach(s: Pool, x: Token)
    requires Inv(s, x)
    ensures multiset(s.executed)[x] <= (if x < s.submitted then 1 else 0)
    ensures s.destructor.Done? ==> multiset(s.executed)[x] == if x < s.submitted then 1 else 0
  {
    hide InHands, InDeques;
    if s.destructor.Done? {
      NothingInHand(s.workers, x);
      NothingQueued(s.deques, x);
    }
  }

  // ---------- the destructor finishes ----------

  function QueuedIn(deques: seq<seq<Token>>): nat {
    if deques == [] then 0 else |deques[0]| + QueuedIn(deques[1..])
  }

  lemma {:induction false} QueuedInUpdate(deques: seq<seq<Token>>, w: nat, q: seq<Token>)
    requires w < |deques|
    ensures QueuedIn(deques[w := q]) == QueuedIn(deques) - |deques[w]| + |q|
  {
    var deques' := deques[w := q];
    if w == 0 {
      assert deques'[1..] == deques[1..];
    } else {
      assert deques'[1..] == deques[1..][w - 1 := q];
      QueuedInUpdate(deques[1..], w - 1, q);
    }
  }

  /** What is left for the destructor to do once the workers are gone. */
  function LeftToDo(s: Pool): int
    requires Shaped(s)
  {
    var tasks := 2 * (|s.global| + QueuedIn(s.deques)) + |s.draining|;
    match s.destructor
    case DrainingGlobal => tasks + |s.deques| + 2
    case DrainingDeques(i) => tasks + (|s.deques| - i) + 1
    case _ => tasks
  }

  /** Every step of the drain leaves less to do, so the drain ends. */
  lemma DrainShrinks(s: Pool)
    requires PhasesOk(s) && PastJoin(s) && Enabled(s, Destroy)
    ensures PhasesOk(DestructorStep(s))
    ensures 0 <= LeftToDo(DestructorStep(s)) < LeftToDo(s)
  {
    hide QueuedIn;
    StepKeepsPhases(s, Destroy);
    if s.draining == [] && s.destructor.DrainingDeques? && s.destructor.i < |s.deques| {
      var q := s.deques[s.destructor.i];
      if q != [] {
        QueuedInUpdate(s.deques, s.destructor.i, q[..|q| - 1]);
      }
    }
  }

  // ---------- no queued task is passed by ----------

  ghost predicate NoneExited(s: Pool) {
    s.running ==> forall w :: 0 <= w < |s.workers| ==> !s.workers[w].Exited?
  }

  lemma {:induction false} NoneExitedOverRuns(s: Pool, steps: seq<Step>)
    requires NoneExited(s) && Schedule(s, steps)
    ensures NoneExited(After(s, steps))
    decreases |steps|
  {
    if steps != [] {
      assert NoneExited(Next(s, steps[0]));
      NoneExitedOverRuns(Next(s, steps[0]), steps[1..]);
    }
  }

  /** No worker leaves its loop before the destructor has begun. */
  lemma WorkersStay(threads: nat, globalCapacity: nat, localCapacity: nat, steps: seq<Step>, w: nat)
    requires Schedule(Init(threads, globalCapacity, localCapacity), steps)
    requires var s := After(Init(threads, globalCapacity, localCapacity), steps);
             s.running && w < |s.workers|
    ensures !After(Init(threads, globalCapacity, localCapacity), steps).workers[w].Exited?
  {
    hide Schedule, After;
    NoneExitedOverRuns(Init(threads, globalCapacity, localCapacity), steps);
  }

  /** Some task is queued, in the global queue or in anyone's deque. */
  predicate SomethingQueued(s: Pool) {
    s.global != [] || exists v :: 0 <= v < |s.deques| && s.deques[v] != []
  }

  /** `n` steps of worker w alone, with every push and every race won. */
  function Alone(w: nat, n: nat): seq<Step> {
    if n == 0 then [] else [Work(w, false)] + Alone(w, n - 1)
  }

  /** In n steps of its own, nobody else moving, worker w executes task x and no other. */
  ghost predicate Executes(s: Pool, w: nat, n: nat, x: Token) {
    Schedule(s, Alone(w, n)) && After(s, Alone(w, n)).executed == s.executed + [x]
  }

  /** The deque of the k-th worker round the ring from w. */
  function Neighbour(s: Pool, w: nat, k: nat): seq<Token>
    requires Shaped(s) && w < |s.workers|
  {
    s.deques[(w + k) % |s.workers|]
  }

  /** The j-th worker round the ring from w is the nearest one with anything queued. */
  predicate NearestVictim(s: Pool, w: nat, j: nat) {
    && Shaped(s) && w < |s.workers| && 1 <= j < |s.workers|
    && Neighbour(s, w, j) != []
    && forall k: nat :: 1 <= k < j ==> Neighbour(s, w, k) == []
  }

  /** What worker w ought to run next: the newest of its own tasks; failing that the oldest submitted one; failing that
      the oldest task of its nearest neighbour that has one. */
  ghost predicate DueNext(s: Pool, w: nat, x: Token)
    requires Shaped(s) && w < |s.workers|
  {
    if s.deques[w] != [] then x == s.deques[w][|s.deques[w]| - 1]
    else if s.global != [] then x == s.global[0]
    else exists j: nat :: NearestVictim(s, w, j) && x == Neighbour(s, w, j)[0]
  }

  lemma OneStepMore(s: Pool, w: nat, n: nat, x: Token)
    requires Shaped(s) && w < |s.workers| && !s.workers[w].Exited? && s.workers[w] != Running(x)
    requires WorkerStep(s, w, false).executed == s.executed && Executes(WorkerStep(s, w, false), w, n, x)
    ensures Executes(s, w, n + 1, x)
  {
    hide WorkerStep;
    var first, rest := Work(w, false), Alone(w, n);
    assert Alone(w, n + 1) == [first] + rest;
    assert ([first] + rest)[0] == first && ([first] + rest)[1..] == rest;
    assert Next(s, first) == WorkerStep(s, w, false);
  }

  lemma RunsWhatItHas(s: Pool, w: nat, x: Token)
    requires Shaped(s) && w < |s.workers| && s.workers[w] == Running(x)
    ensures Executes(s, w, 1, x)
  {
    assert Alone(w, 0) == [] && Alone(w, 1) == [Work(w, false)];
    var s' := Next(s, Work(w, false));
    assert [Work(w, false)][1..] == [];
    assert Schedule(s', []) && After(s', []) == s';
  }

  lemma RunsItsOwn(s: Pool, w: nat)
    requires Shaped(s) && w < |s.workers| && s.workers[w].AtOwn? && s.deques[w] != []
    ensures Executes(s, w, 2, s.deques[w][|s.deques[w]| - 1])
  {
    hide Executes;
    var x := s.deques[w][|s.deques[w]| - 1];
    RunsWhatItHas(WorkerStep(s, w, false), w, x);
    OneStepMore(s, w, 1, x);
  }

  /** A task taken from the global queue goes through the worker's own deque, if there is room, and comes back. */
  lemma RunsSubmitted(s: Pool, w: nat) returns (n: nat)
    requires Shaped(s) && w < |s.workers| && s.workers[w].AtGlobal? && s.deques[w] == [] && s.global != []
    ensures Executes(s, w, n, s.global[0])
  {
    hide Executes;
    var x := s.global[0];
    var s1 := WorkerStep(s, w, false);
    var s2 := WorkerStep(s1, w, false);
    if s.localCapacity == 0 {
      RunsWhatItHas(s2, w, x);
      n := 1;
    } else {
      assert s2.deques[w] == [x];
      var s3 := WorkerStep(s2, w, false);
      RunsWhatItHas(s3, w, x);
      OneStepMore(s2, w, 1, x);
      n := 2;
    }
    OneStepMore(s1, w, n, x);
    OneStepMore(s, w, n + 1, x);
    n := n + 2;
  }

  lemma {:induction false} Steals(s: Pool, w: nat, i: nat, j: nat)
    requires w < |s.workers| && s.workers[w] == Stealing(i) && 1 <= i <= j && NearestVictim(s, w, j)
    ensures Executes(s, w, j - i + 2, Neighbour(s, w, j)[0])
    decreases j - i
  {
    hide Executes;
    var x := Neighbour(s, w, j)[0];
    var s1 := WorkerStep(s, w, false);
    if i == j {
      RunsWhatItHas(s1, w, x);
      OneStepMore(s, w, 1, x);
    } else {
      assert Neighbour(s, w, i) == [];
      assert forall k: nat :: Neighbour(s1, w, k) == Neighbour(s, w, k);
      Steals(s1, w, i + 1, j);
      OneStepMore(s, w, j - i + 1, x);
    }
  }

  lemma {:induction false} SomeVictim(s: Pool, w: nat, i: nat) returns (j: nat)
    requires Shaped(s) && w < |s.workers| && 1 <= i <= |s.workers|
    requires forall k: nat :: 1 <= k < i ==> Neighbour(s, w, k) == []
    requires exists k: nat :: i <= k < |s.workers| && Neighbour(s, w, k) != []
    ensures NearestVictim(s, w, j)
    decreases |s.workers| - i
  {
    if Neighbour(s, w, i) != [] {
      j := i;
    } else {
      j := SomeVictim(s, w, i + 1);
    }
  }

  /** Every other deque is some number of places round the ring. */
  lemma RoundTheRing(w: nat, v: nat, n: nat) returns (k: nat)
    requires w < n && v < n && v != w
    ensures 1 <= k < n && (w + k) % n == v
  {
    k := if v > w then v - w else v + n - w;
  }

  /** While any task is queued, a worker at its loop that is left alone executes one: the one it is due to. */
  lemma LoneWorkerGetsOn(s: Pool, w: nat) returns (n: nat, x: Token)
    requires Shaped(s) && s.running && w < |s.workers| && s.workers[w].AtLoop? && SomethingQueued(s)
    ensures DueNext(s, w, x) && Executes(s, w, n, x)
  {
    hide Executes, NearestVictim;
    var s1 := WorkerStep(s, w, false);
    if s.deques[w] != [] {
      x := s.deques[w][|s.deques[w]| - 1];
      RunsItsOwn(s1, w);
      n := 2;
    } else {
      var s2 := WorkerStep(s1, w, false);
      if s.global != [] {
        x := s.global[0];
        n := RunsSubmitted(s2, w);
      } else {
        n, x := StealsOn(s, s2, w);
      }
      OneStepMore(s1, w, n, x);
      n := n + 1;
    }
    OneStepMore(s, w, n, x);
    n := n + 1;
  }

  lemma StealsOn(s: Pool, s2: Pool, w: nat) returns (n: nat, x: Token)
    requires Shaped(s) && w < |s.workers| && s.deques[w] == [] && s.global == [] && SomethingQueued(s)
    requires s2 == At(s, w, AtGlobal)
    ensures DueNext(s, w, x) && Executes(s2, w, n, x)
  {
    hide Executes;
    var v :| 0 <= v < |s.deques| && s.deques[v] != [];
    var k := RoundTheRing(w, v, |s.workers|);
    assert Neighbour(s, w, k) != [];
    var j := SomeVictim(s, w, 1);
    x := Neighbour(s, w, j)[0];
    var s3 := WorkerStep(s2, w, false);
    assert forall k: nat :: Neighbour(s3, w, k) == Neighbour(s, w, k);
    Steals(s3, w, 1, j);
    n := j + 2;
    OneStepMore(s2, w, j + 1, x);
  }
}
