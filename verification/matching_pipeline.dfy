/** The submit side, the queue and the matching thread of the pipeline, interleaved at every access to the queue. */
module MatchingPipelines {
  import opened ExchangeTypes
  import opened MatchingModel
  import opened MatchingInvariants
  import opened MatchingTheorems
  import opened CommandTheorems
  import opened RingIndexes
  import Q = SpscQueues

  datatype SubmitterPc =
    | Idle
    | Sizing(command: Command, head: nat)
    | Sequencing(command: Command)
    | Pushing

  datatype MatcherPc =
    | Popping
    | Processing(command: Command)

  datatype Pipeline = Pipeline(
    ring: Q.Ring<Command>,
    nextSequence: nat,
    submitter: SubmitterPc,
    matcher: MatcherPc,
    rejected: nat,
    processed: seq<Command>,
    engine: EngineState,
    events: seq<Event>)

  datatype Step =
    | Submit(command: Command)
    | CheckRoom
    | Sequence
    | Push(access: Q.Step<Command>)
    | Pop(access: Q.Step<Command>)
    | Process

  function Init(capacity: nat, start: EngineState): Pipeline {
    Pipeline(Q.Init(capacity), 1, Idle, Popping, 0, [], start, [])
  }

  predicate IsPush(access: Q.Step<Command>) {
    access.ReadTail? || access.Construct? || access.MarkHighWater? || access.PublishHead?
  }

  predicate IsPop(access: Q.Step<Command>) {
    access.ReadHead? || access.TakeItem? || access.PublishTail?
  }

  predicate Enabled(s: Pipeline, step: Step) {
    && s.ring.storage != []
    && match step
       case Submit(_) => s.submitter.Idle?
       case CheckRoom => s.submitter.Sizing?
       case Sequence => s.submitter.Sequencing? && s.ring.producer.Idle?
       case Push(access) => s.submitter.Pushing? && IsPush(access) && Q.Enabled(s.ring, access)
       case Pop(access) => s.matcher.Popping? && IsPop(access) && Q.Enabled(s.ring, access)
       case Process => s.matcher.Processing? && Locates(s.engine)
  }

  /** The sequencer overwrites whatever number the command carried. */
  function Numbered(cmd: Command, n: nat): Command {
    cmd.(commandSequence := n)
  }

  function Next(s: Pipeline, step: Step): Pipeline
    requires Enabled(s, step)
  {
    match step
    case Submit(cmd) => s.(submitter := Sizing(cmd, s.ring.head))
    case CheckRoom =>
      if Q.Difference(s.submitter.head, s.ring.tail) >= |s.ring.storage| then
        s.(submitter := Idle, rejected := s.rejected + 1)
      else s.(submitter := Sequencing(s.submitter.command))
    case Sequence =>
      s.(ring := Q.Next(s.ring, Q.Offer(Numbered(s.submitter.command, s.nextSequence))),
         nextSequence := s.nextSequence + 1, submitter := Pushing)
    case Push(access) =>
      var ring := Q.Next(s.ring, access);
      s.(ring := ring,
         submitter := if ring.producer.Idle? then Idle else Pushing,
         rejected := if access.ReadTail? && ring.producer.Idle? then s.rejected + 1 else s.rejected)
    case Pop(access) =>
      var ring := Q.Next(s.ring, access);
      s.(ring := ring, matcher := if access.PublishTail? then Processing(s.ring.consumer.value) else Popping)
    case Process =>
      var r := MatchingModel.Process(s.engine, s.matcher.command);
      s.(processed := s.processed + [s.matcher.command], matcher := Popping, engine := r.state,
         events := s.events + r.events)
  }

  // ---------- invariant ----------

  ghost predicate NumbersOk(cmds: seq<Command>) {
    forall i :: 0 <= i < |cmds| ==> cmds[i].commandSequence == i + 1
  }

  /** The submit side: the numbers handed out are those pushed, plus the one in flight, for which there is room. */
  ghost predicate SubmitterOk(s: Pipeline)
    requires Q.CountsOk(s.ring)
  {
    && NumbersOk(s.ring.pushed)
    && (!s.submitter.Pushing? ==> s.ring.producer.Idle? && s.nextSequence == |s.ring.pushed| + 1)
    && (s.submitter.Sizing? ==> s.submitter.head == s.ring.head)
    && (s.submitter.Sequencing? ==> Q.Occupancy(s.ring) < |s.ring.storage|)
    && (s.submitter.Pushing? ==>
          && !s.ring.producer.Idle?
          && s.nextSequence == |s.ring.pushed| + 2
          && s.ring.producer.item.commandSequence == |s.ring.pushed| + 1
          && (s.ring.producer.Offered? ==> Q.Occupancy(s.ring) < |s.ring.storage|))
  }

  ghost predicate MatcherOk(s: Pipeline) {
    match s.matcher
    case Popping => s.processed == s.ring.popped
    case Processing(cmd) => s.ring.popped == s.processed + [cmd] && s.ring.consumer.Resting?
  }

  /** The engine has done exactly what running the processed commands in order does. */
  ghost predicate EngineOk(s: Pipeline, start: EngineState) {
    && WellFormed(start)
    && s.engine == Run(start, s.processed).state && s.events == Run(start, s.processed).events
  }

  ghost predicate Inv(s: Pipeline, start: EngineState) {
    Q.Inv(s.ring) && SubmitterOk(s) && MatcherOk(s) && EngineOk(s, start)
  }

  lemma RingKeeps(s: Pipeline, step: Step)
    requires Q.Inv(s.ring) && Enabled(s, step)
    ensures Q.Inv(Next(s, step).ring)
  {
    hide Q.Inv, Q.Next;
    match step
    case Sequence => Q.StepKeeps(s.ring, Q.Offer(Numbered(s.submitter.command, s.nextSequence)));
    case Push(access) => Q.StepKeeps(s.ring, access);
    case Pop(access) => Q.StepKeeps(s.ring, access);
    case _ =>
  }

  /** Room seen by size() is still there when the push looks again: only the consumer has moved. */
  lemma SubmitterKeeps(s: Pipeline, step: Step)
    requires Q.Inv(s.ring) && SubmitterOk(s) && Enabled(s, step) && Q.Inv(Next(s, step).ring)
    ensures SubmitterOk(Next(s, step))
    ensures step.Push? && step.access.ReadTail? ==> !Next(s, step).ring.producer.Idle?
  {
    hide Q.QueuedOk, Q.FreeOk, Q.RegistersOk, Q.Difference;
    Q.HeadSlot(s.ring);
  }

  lemma MatcherKeeps(s: Pipeline, step: Step)
    requires Q.Inv(s.ring) && MatcherOk(s) && Enabled(s, step)
    ensures MatcherOk(Next(s, step))
  {
    hide Q.QueuedOk, Q.FreeOk, Q.RegistersOk, Q.Difference, MatchingModel.Process;
  }

  lemma EngineKeeps(s: Pipeline, step: Step, start: EngineState)
    requires EngineOk(s, start) && Enabled(s, step)
    ensures EngineOk(Next(s, step), start)
  {
    hide WellFormed, MatchingModel.Process, Locates, Run, Q.Next;
    if step.Process? {
      RunOneMore(start, s.processed, s.matcher.command);
    }
  }

  lemma StepKeeps(s: Pipeline, step: Step, start: EngineState)
    requires Inv(s, start) && Enabled(s, step)
    ensures Inv(Next(s, step), start)
  {
    hide Next, Enabled, Q.Inv, SubmitterOk, MatcherOk, EngineOk;
    RingKeeps(s, step);
    SubmitterKeeps(s, step);
    MatcherKeeps(s, step);
    EngineKeeps(s, step, start);
  }

  ghost predicate Schedule(s: Pipeline, steps: seq<Step>)
    decreases |steps|
  {
    steps == [] || (Enabled(s, steps[0]) && Schedule(Next(s, steps[0]), steps[1..]))
  }

  ghost function After(s: Pipeline, steps: seq<Step>): Pipeline
    requires Schedule(s, steps)
    decreases |steps|
  {
    if steps == [] then s else After(Next(s, steps[0]), steps[1..])
  }

  lemma {:induction false} ScheduleKeeps(s: Pipeline, steps: seq<Step>, start: EngineState)
    requires Inv(s, start) && Schedule(s, steps)
    ensures Inv(After(s, steps), start)
    decreases |steps|
  {
    hide Next, Enabled, Inv;
    if steps != [] {
      StepKeeps(s, steps[0], start);
      ScheduleKeeps(Next(s, steps[0]), steps[1..], start);
    }
  }

  lemma InitOk(capacity: nat, start: EngineState)
    requires 0 < capacity < Q.WORD && PowerOfTwo(capacity) && WellFormed(start)
    ensures Inv(Init(capacity, start), start)
  {
    hide WellFormed, Q.Inv;
    Q.InitOk<Command>(capacity);
    InitCounts(capacity);
  }

  lemma InitCounts(capacity: nat)
    requires Q.Inv(Q.Init<Command>(capacity))
    ensures Q.CountsOk(Q.Init<Command>(capacity))
  {
  }

  /** In every interleaving the commands processed carry the numbers 1 to k, in order and without a gap, and the engine
      and the events are exactly what running those commands one after another gives. */
  lemma ProcessedInSequence(capacity: nat, start: EngineState, steps: seq<Step>)
    requires 0 < capacity < Q.WORD && PowerOfTwo(capacity) && WellFormed(start)
    requires Schedule(Init(capacity, start), steps)
    ensures var s := After(Init(capacity, start), steps);
            && (forall i :: 0 <= i < |s.processed| ==> s.processed[i].commandSequence == i + 1)
            && |s.processed| <= |s.ring.pushed| && s.processed == s.ring.pushed[..|s.processed|]
            && s.engine == Run(start, s.processed).state && s.events == Run(start, s.processed).events
  {
    hide Next, Enabled, WellFormed, Run, Schedule, After, Q.QueuedOk, Q.FreeOk, Q.RegistersOk;
    InitOk(capacity, start);
    ScheduleKeeps(Init(capacity, start), steps, start);
    var s := After(Init(capacity, start), steps);
    assert s.processed == s.ring.pushed[..|s.processed|];
    assert forall i :: 0 <= i < |s.processed| ==> s.processed[i] == s.ring.pushed[i];
  }

  /** submit() never reaches its second refusal: the push that follows a successful size check always finds room. */
  lemma RecheckNeverFails(capacity: nat, start: EngineState, steps: seq<Step>)
    requires 0 < capacity < Q.WORD && PowerOfTwo(capacity) && WellFormed(start)
    requires Schedule(Init(capacity, start), steps)
    requires Enabled(After(Init(capacity, start), steps), Push(Q.ReadTail))
    ensures var s := After(Init(capacity, start), steps);
            Next(s, Push(Q.ReadTail)).submitter.Pushing? && Next(s, Push(Q.ReadTail)).rejected == s.rejected
  {
    hide WellFormed, Run, Schedule, After, Q.Inv, SubmitterOk, Q.Next;
    InitOk(capacity, start);
    ScheduleKeeps(Init(capacity, start), steps, start);
    var s := After(Init(capacity, start), steps);
    RingKeeps(s, Push(Q.ReadTail));
    SubmitterKeeps(s, Push(Q.ReadTail));
  }

  // ---------- nothing submitted is forgotten ----------

  /** submit() refuses a command exactly when the ring holds as many as it can. */
  lemma RefusedExactlyWhenFull(s: Pipeline, start: EngineState)
    requires Inv(s, start) && Enabled(s, CheckRoom)
    ensures var s' := Next(s, CheckRoom);
            && (s'.submitter.Idle? <==> |s.ring.pushed| - |s.ring.popped| == |s.ring.storage|)
            && (s'.submitter.Idle? <==> s'.rejected == s.rejected + 1)
            && (!s'.submitter.Idle? ==> s'.submitter == Sequencing(s.submitter.command))
  {
    hide Q.QueuedOk, Q.FreeOk, Q.RegistersOk, Q.Difference, EngineOk, MatcherOk;
    Q.HeadSlot(s.ring);
  }

  lemma FirstStep(s: Pipeline, step: Step, rest: seq<Step>)
    requires Enabled(s, step) && Schedule(Next(s, step), rest)
    ensures Schedule(s, [step] + rest) && After(s, [step] + rest) == After(Next(s, step), rest)
  {
    hide Next, Enabled;
    assert ([step] + rest)[0] == step && ([step] + rest)[1..] == rest;
  }

  lemma NoSteps(s: Pipeline)
    ensures Schedule(s, []) && After(s, []) == s
  {
  }

  /** The accesses that take the matching thread from where it stands in a pop to the end of its next command. */
  function MatcherSteps(pc: Q.ConsumerPc<Command>): seq<Step> {
    match pc
    case Took(_) => [Pop(Q.PublishTail)] + [Process]
    case SawHead => [Pop(Q.TakeItem)] + ([Pop(Q.PublishTail)] + [Process])
    case Resting => [Pop(Q.ReadHead)] + ([Pop(Q.TakeItem)] + ([Pop(Q.PublishTail)] + [Process]))
  }

  /** The steps run, and the next command in the queue is processed. */
  ghost predicate GetsOn(s: Pipeline, steps: seq<Step>) {
    && |s.processed| < |s.ring.pushed|
    && Schedule(s, steps)
    && After(s, steps).processed == s.processed + [s.ring.pushed[|s.processed|]]
  }

  lemma GetsOnAfter(s: Pipeline, access: Q.Step<Command>, rest: seq<Step>)
    requires Enabled(s, Pop(access)) && GetsOn(Next(s, Pop(access)), rest)
    ensures Next(s, Pop(access)).ring.pushed == s.ring.pushed && Next(s, Pop(access)).processed == s.processed
    ensures GetsOn(s, [Pop(access)] + rest)
  {
    hide Schedule, After;
    FirstStep(s, Pop(access), rest);
  }

  lemma EngineLocates(s: Pipeline, start: EngineState)
    requires EngineOk(s, start)
    ensures Locates(s.engine)
  {
    SoundMeansLocates(s.engine);
  }

  lemma ProcessesWhatItHas(s: Pipeline, start: EngineState)
    requires Inv(s, start) && s.matcher.Processing?
    ensures GetsOn(s, [Process])
  {
    hide Q.QueuedOk, Q.FreeOk, Q.RegistersOk, Q.Difference, Schedule, After, MatchingModel.Process, Locates, EngineOk;
    EngineLocates(s, start);
    NoSteps(Next(s, Process));
    FirstStep(s, Process, []);
    assert [Process] + [] == [Process];
  }

  /** What a matcher in the middle of a pop can count on. */
  lemma PopCanMove(s: Pipeline, start: EngineState)
    requires Inv(s, start) && s.matcher.Popping?
    ensures s.ring.storage != []
    ensures s.ring.consumer.Took? ==> Enabled(s, Pop(Q.PublishTail))
    ensures s.ring.consumer.SawHead? ==> Enabled(s, Pop(Q.TakeItem)) && Next(s, Pop(Q.TakeItem)).ring.consumer.Took?
    ensures s.ring.consumer.Resting? && |s.processed| < |s.ring.pushed| ==>
              Enabled(s, Pop(Q.ReadHead)) && Next(s, Pop(Q.ReadHead)).ring.consumer.SawHead?
  {
    hide Q.QueuedOk, Q.FreeOk, Q.RegistersOk, Q.Difference, EngineOk, SubmitterOk;
    Q.SlotsAreOwned(s.ring);
    if s.ring.consumer.Resting? {
      Q.EmptyExactly(s.ring);
    }
  }

  lemma GetsOnFromTook(s: Pipeline, start: EngineState)
    requires Inv(s, start) && s.matcher.Popping? && s.ring.consumer.Took?
    ensures GetsOn(s, MatcherSteps(s.ring.consumer))
  {
    hide Inv, GetsOn, Schedule, After;
    PopCanMove(s, start);
    StepKeeps(s, Pop(Q.PublishTail), start);
    ProcessesWhatItHas(Next(s, Pop(Q.PublishTail)), start);
    GetsOnAfter(s, Q.PublishTail, [Process]);
  }

  lemma GetsOnFromSawHead(s: Pipeline, start: EngineState)
    requires Inv(s, start) && s.matcher.Popping? && s.ring.consumer.SawHead?
    ensures GetsOn(s, MatcherSteps(s.ring.consumer))
  {
    hide Inv, GetsOn, Schedule, After;
    PopCanMove(s, start);
    StepKeeps(s, Pop(Q.TakeItem), start);
    GetsOnFromTook(Next(s, Pop(Q.TakeItem)), start);
    GetsOnAfter(s, Q.TakeItem, [Pop(Q.PublishTail)] + [Process]);
  }

  /** A matching thread that is popping while a command is queued always gets to it: its own accesses, and nobody
      else's, end with the next command in submission order processed. */
  lemma MatcherGetsOn(s: Pipeline, start: EngineState)
    requires Inv(s, start) && s.matcher.Popping? && |s.processed| < |s.ring.pushed|
    ensures Schedule(s, MatcherSteps(s.ring.consumer))
    ensures After(s, MatcherSteps(s.ring.consumer)).processed == s.processed + [s.ring.pushed[|s.processed|]]
  {
    hide Inv, Schedule, After;
    match s.ring.consumer
    case Took(_) => GetsOnFromTook(s, start);
    case SawHead => GetsOnFromSawHead(s, start);
    case Resting =>
      PopCanMove(s, start);
      StepKeeps(s, Pop(Q.ReadHead), start);
      GetsOnFromSawHead(Next(s, Pop(Q.ReadHead)), start);
      GetsOnAfter(s, Q.ReadHead, [Pop(Q.TakeItem)] + ([Pop(Q.PublishTail)] + [Process]));
  }

  const PUSH_STEPS: seq<Step> :=
    [Push(Q.ReadTail)] + ([Push(Q.Construct)] + ([Push(Q.MarkHighWater)] + ([Push(Q.PublishHead)] + [])))

  /** The steps of one submit() that finds room. */
  function SubmitSteps(cmd: Command): seq<Step> {
    [Submit(cmd)] + ([CheckRoom] + ([Sequence] + PUSH_STEPS))
  }

  /** A push that is under way and has room publishes its item. */
  lemma PushGoesThrough(s: Pipeline)
    requires Q.Inv(s.ring) && s.submitter.Pushing? && s.ring.producer.Offered?
    requires |s.ring.pushed| - |s.ring.popped| < |s.ring.storage|
    ensures Schedule(s, PUSH_STEPS)
    ensures var s' := After(s, PUSH_STEPS);
            && s'.ring.pushed == s.ring.pushed + [s.ring.producer.item]
            && s'.submitter.Idle? && s'.rejected == s.rejected
  {
    hide Q.QueuedOk, Q.FreeOk, Q.RegistersOk, Q.Difference, Schedule, After;
    Q.FullExactly(s.ring);
    var s1 := Next(s, Push(Q.ReadTail));
    var s2 := Next(s1, Push(Q.Construct));
    var s3 := Next(s2, Push(Q.MarkHighWater));
    var s4 := Next(s3, Push(Q.PublishHead));
    NoSteps(s4);
    FirstStep(s3, Push(Q.PublishHead), []);
    FirstStep(s2, Push(Q.MarkHighWater), [Push(Q.PublishHead)] + []);
    FirstStep(s1, Push(Q.Construct), [Push(Q.MarkHighWater)] + ([Push(Q.PublishHead)] + []));
    FirstStep(s, Push(Q.ReadTail), [Push(Q.Construct)] + ([Push(Q.MarkHighWater)] + ([Push(Q.PublishHead)] + [])));
  }

  /** A command submitted while there is room is queued behind all others, under the next number. */
  lemma SubmitGoesThrough(s: Pipeline, start: EngineState, cmd: Command)
    requires Inv(s, start) && s.submitter.Idle? && |s.ring.pushed| - |s.ring.popped| < |s.ring.storage|
    ensures Schedule(s, SubmitSteps(cmd))
    ensures var s' := After(s, SubmitSteps(cmd));
            && s'.ring.pushed == s.ring.pushed + [cmd.(commandSequence := |s.ring.pushed| + 1)]
            && s'.submitter.Idle? && s'.rejected == s.rejected
  {
    hide Q.QueuedOk, Q.FreeOk, Q.RegistersOk, Q.Difference, Schedule, After, EngineOk, MatcherOk;
    Q.HeadSlot(s.ring);
    var s1 := Next(s, Submit(cmd));
    var s2 := Next(s1, CheckRoom);
    RingKeeps(s2, Sequence);
    var s3 := Next(s2, Sequence);
    PushGoesThrough(s3);
    FirstStep(s2, Sequence, PUSH_STEPS);
    FirstStep(s1, CheckRoom, [Sequence] + PUSH_STEPS);
    FirstStep(s, Submit(cmd), [CheckRoom] + ([Sequence] + PUSH_STEPS));
  }
}
