/** The bounded single-producer, multi-consumer ring, one memory access at a time: the producer may see a top_ as old as
    it likes, a consumer may start from one, and a weak compare-and-swap may fail for no reason. */
module SpmcQueues {
  import opened RingIndexes

  type Token = nat

  type ConsumerId = nat

  datatype ProducerPc =
    | Idle
    | Checked
    | Stored

  datatype ConsumerPc =
    | Away
    | AtPosition(pos: nat)
    | SawRoom(pos: nat)
    | SawItem(pos: nat, item: Token)

  datatype Ring = Ring(
    top: nat,
    bottom: nat,
    buffer: seq<Token>,
    producer: ProducerPc,
    consumers: map<ConsumerId, ConsumerPc>,
    taken: seq<Token>)

  datatype Step =
    | PushCheck(staleTop: nat)
    | PushStore
    | PushPublish
    | PopStart(consumer: ConsumerId, stalePosition: nat)
    | PopReadBottom(consumer: ConsumerId)
    | PopReadItem(consumer: ConsumerId)
    | PopRace(consumer: ConsumerId, spuriousFailure: bool)

  function Init(capacity: nat): Ring {
    Ring(0, 0, seq(capacity, _ => 0), Idle, map[], [])
  }

  function PcOf(s: Ring, k: ConsumerId): ConsumerPc {
    if k in s.consumers then s.consumers[k] else Away
  }

  function Slot(s: Ring, i: int): nat
    requires s.buffer != []
  {
    i % |s.buffer|
  }

  predicate Enabled(s: Ring, step: Step) {
    match step
    case PushCheck(stale) => s.producer.Idle? && 0 <= stale <= s.top
    case PushStore => s.producer.Checked?
    case PushPublish => s.producer.Stored?
    case PopStart(k, stale) => PcOf(s, k).Away? && 0 <= stale <= s.top
    case PopReadBottom(k) => PcOf(s, k).AtPosition?
    case PopReadItem(k) => PcOf(s, k).SawRoom?
    case PopRace(k, _) => PcOf(s, k).SawItem?
  }

  /** One access. The n-th push, at index n, writes token n; indices never go back. */
  function Next(s: Ring, step: Step): Ring
    requires s.buffer != [] && Enabled(s, step)
  {
    match step
    case PushCheck(stale) => s.(producer := if s.bottom - stale >= |s.buffer| then Idle else Checked)
    case PushStore =>
      s.(buffer := s.buffer[Slot(s, s.bottom) := s.bottom], producer := Stored)
    case PushPublish => s.(bottom := s.bottom + 1, producer := Idle)
    case PopStart(k, stale) => s.(consumers := s.consumers[k := AtPosition(stale)])
    case PopReadBottom(k) =>
      var pos := PcOf(s, k).pos;
      s.(consumers := s.consumers[k := if pos >= s.bottom then Away else SawRoom(pos)])
    case PopReadItem(k) =>
      var pos := PcOf(s, k).pos;
      s.(consumers := s.consumers[k := SawItem(pos, s.buffer[Slot(s, pos)])])
    case PopRace(k, spurious) =>
      var pos, item := PcOf(s, k).pos, PcOf(s, k).item;
      if s.top == pos && !spurious then
        s.(top := pos + 1, taken := s.taken + [item], consumers := s.consumers[k := Away])
      else
        s.(consumers := s.consumers[k := AtPosition(s.top)])
  }

  // ---------- invariant ----------

  predicate ConsumerOk(s: Ring, pc: ConsumerPc)
  {
    match pc
    case Away => true
    case AtPosition(pos) => 0 <= pos <= s.top
    case SawRoom(pos) => 0 <= pos <= s.top && pos < s.bottom
    case SawItem(pos, item) => 0 <= pos <= s.top && pos < s.bottom && (pos == s.top ==> item == pos)
  }

  ghost predicate ConsumersOk(s: Ring) {
    forall k :: k in s.consumers ==> ConsumerOk(s, s.consumers[k])
  }

  predicate BoundsOk(s: Ring) {
    && s.buffer != []
    && 0 <= s.top <= s.bottom <= s.top + |s.buffer|
    && (!s.producer.Idle? ==> s.bottom - s.top < |s.buffer|)
    && (s.producer.Stored? ==> s.buffer[Slot(s, s.bottom)] == s.bottom)
  }

  /** Cell i holds token i as long as it is queued. */
  ghost predicate CellsOk(s: Ring)
    requires s.buffer != []
  {
    forall i :: s.top <= i < s.bottom ==> s.buffer[Slot(s, i)] == i
  }

  /** What has been taken is exactly the first tokens, in order. */
  predicate TakenOk(s: Ring) {
    |s.taken| == s.top && forall i :: 0 <= i < |s.taken| ==> s.taken[i] == i
  }

  ghost predicate Inv(s: Ring) {
    BoundsOk(s) && CellsOk(s) && ConsumersOk(s) && TakenOk(s)
  }

  /** The producer writes only a cell no queued item occupies. */
  lemma StoreSpares(s: Ring, i: int)
    requires BoundsOk(s) && s.producer.Checked? && s.top <= i < s.bottom
    ensures Slot(s, i) != Slot(s, s.bottom)
  {
    SlotsApart(|s.buffer|, i, s.bottom);
  }

  lemma StepKeepsCells(s: Ring, step: Step)
    requires Inv(s) && Enabled(s, step)
    ensures BoundsOk(Next(s, step)) && CellsOk(Next(s, step))
  {
    hide ConsumersOk, TakenOk;
    ConsumerIs(s, step);
    var s' := Next(s, step);
    forall i | s'.top <= i < s'.bottom ensures s'.buffer[Slot(s', i)] == i {
      assert i < s.bottom ==> s.buffer[Slot(s, i)] == i;
      if step.PushStore? {
        StoreSpares(s, i);
      }
    }
  }

  lemma ConsumerIs(s: Ring, step: Step)
    requires ConsumersOk(s) && Enabled(s, step)
    ensures step.PopStart? || step.PopReadBottom? || step.PopReadItem? || step.PopRace? ==>
              ConsumerOk(s, PcOf(s, step.consumer))
  {
  }

  lemma StepKeepsConsumers(s: Ring, step: Step)
    requires Inv(s) && Enabled(s, step)
    ensures ConsumersOk(Next(s, step)) && TakenOk(Next(s, step))
  {
    ConsumerIs(s, step);
    var s' := Next(s, step);
    forall k | k in s'.consumers ensures ConsumerOk(s', s'.consumers[k]) {
      assert k in s.consumers ==> ConsumerOk(s, s.consumers[k]);
    }
  }

  lemma StepKeeps(s: Ring, step: Step)
    requires Inv(s) && Enabled(s, step)
    ensures Inv(Next(s, step))
  {
    hide Next, CellsOk, ConsumersOk, TakenOk;
    StepKeepsCells(s, step);
    StepKeepsConsumers(s, step);
  }

  predicate Schedule(s: Ring, steps: seq<Step>)
    requires s.buffer != []
    decreases |steps|
  {
    steps == [] || (Enabled(s, steps[0]) && Schedule(Next(s, steps[0]), steps[1..]))
  }

  function After(s: Ring, steps: seq<Step>): Ring
    requires s.buffer != [] && Schedule(s, steps)
    decreases |steps|
  {
    if steps == [] then s else After(Next(s, steps[0]), steps[1..])
  }

  lemma InitOk(capacity: nat)
    requires capacity > 0
    ensures Inv(Init(capacity))
  {
  }

  lemma {:induction false} ScheduleKeeps(s: Ring, steps: seq<Step>)
    requires Inv(s) && Schedule(s, steps)
    ensures Inv(After(s, steps))
    decreases |steps|
  {
    hide Next, CellsOk, ConsumersOk, TakenOk;
    if steps != [] {
      StepKeeps(s, steps[0]);
      ScheduleKeeps(Next(s, steps[0]), steps[1..]);
    }
  }

  /** In every interleaving the consumers together take a prefix of what was pushed: token by token, in push order, each
      once; and the rest is still in the ring. */
  lemma ConsumersTakeAPrefix(capacity: nat, steps: seq<Step>)
    requires capacity > 0 && Schedule(Init(capacity), steps)
    ensures var s := After(Init(capacity), steps);
            && |s.taken| == s.top <= s.bottom <= s.top + capacity
            && (forall i :: 0 <= i < |s.taken| ==> s.taken[i] == i)
            && s.buffer != []
            && (forall i :: s.top <= i < s.bottom ==> s.buffer[Slot(s, i)] == i)
  {
    hide Next, ConsumersOk, Schedule, After;
    InitOk(capacity);
    ScheduleKeeps(Init(capacity), steps);
    CapacityStays(Init(capacity), steps);
  }

  lemma {:induction false} CapacityStays(s: Ring, steps: seq<Step>)
    requires s.buffer != [] && Schedule(s, steps)
    ensures |After(s, steps).buffer| == |s.buffer|
    decreases |steps|
  {
    hide Enabled;
    if steps != [] {
      CapacityStays(Next(s, steps[0]), steps[1..]);
    }
  }

  /** The atomic queue: the tokens from top_ to bottom_. */
  function Queue(s: Ring): seq<Token>
    requires BoundsOk(s)
  {
    seq(s.bottom - s.top, i requires 0 <= i < s.bottom - s.top => s.top + i)
  }

  datatype Effect =
    | Silent
    | Pushed(item: Token)
    | Popped(item: Token)

  function EffectOf(s: Ring, step: Step): Effect
    requires BoundsOk(s) && Enabled(s, step)
  {
    match step
    case PushPublish => Pushed(s.bottom)
    case PopRace(k, spurious) =>
      if s.top == PcOf(s, k).pos && !spurious then Popped(PcOf(s, k).item) else Silent
    case _ => Silent
  }

  /** Each access is a push at the back, a pop at the front, or nothing, of an atomic first-in-first-out queue. */
  lemma StepRefines(s: Ring, step: Step)
    requires Inv(s) && Enabled(s, step)
    ensures BoundsOk(Next(s, step))
    ensures var q, q' := Queue(s), Queue(Next(s, step));
            match EffectOf(s, step)
            case Silent => q' == q
            case Pushed(x) => q' == q + [x]
            case Popped(x) => q == [x] + q'
  {
    hide CellsOk, TakenOk, ConsumersOk;
    StepKeepsCells(s, step);
    ConsumerIs(s, step);
  }

  /** A consumer answers "empty" only when the ring held nothing at or past its position when it looked. */
  lemma EmptyMeansEmpty(s: Ring, k: ConsumerId)
    requires Inv(s) && Enabled(s, PopReadBottom(k)) && Next(s, PopReadBottom(k)).consumers[k].Away?
    ensures Queue(s) == []
  {
    ConsumerIs(s, PopReadBottom(k));
  }

  /** Whatever it has seen of top_, a push that is let through has room; and a push that has seen the latest is refused
      exactly when the ring is full. */
  lemma FreshCheckIsExact(s: Ring, staleTop: nat)
    requires Inv(s) && Enabled(s, PushCheck(staleTop))
    ensures Next(s, PushCheck(staleTop)).producer.Checked? ==> |Queue(s)| < |s.buffer|
    ensures Next(s, PushCheck(s.top)).producer.Idle? <==> |Queue(s)| == |s.buffer|
  {
    hide CellsOk, ConsumersOk, TakenOk;
  }

  /** A consumer whose position is up to date answers "empty" exactly when the ring is. */
  lemma FreshLookIsExact(s: Ring, k: ConsumerId)
    requires Inv(s) && Enabled(s, PopReadBottom(k)) && PcOf(s, k).pos == s.top
    ensures PcOf(Next(s, PopReadBottom(k)), k).Away? <==> Queue(s) == []
    ensures !PcOf(Next(s, PopReadBottom(k)), k).Away? <==> PcOf(Next(s, PopReadBottom(k)), k) == SawRoom(s.top)
  {
    hide CellsOk, ConsumersOk, TakenOk;
  }

  lemma FirstStep(s: Ring, step: Step, rest: seq<Step>)
    requires s.buffer != [] && Enabled(s, step) && Schedule(Next(s, step), rest)
    ensures Schedule(s, [step] + rest) && After(s, [step] + rest) == After(Next(s, step), rest)
  {
    hide Next, Enabled;
    assert ([step] + rest)[0] == step && ([step] + rest)[1..] == rest;
  }

  lemma NoSteps(s: Ring)
    requires s.buffer != []
    ensures Schedule(s, []) && After(s, []) == s
  {
  }

  lemma FrontIsTop(s: Ring)
    requires Inv(s) && Queue(s) != []
    ensures s.buffer != [] && s.top < s.bottom && Queue(s)[0] == s.top
    ensures s.buffer[Slot(s, s.top)] == s.top
  {
    hide ConsumersOk, TakenOk;
  }

  lemma SameSlot(s: Ring, s': Ring)
    requires s.buffer != [] && s'.buffer == s.buffer
    ensures Slot(s', s.top) == Slot(s, s.top) < |s.buffer|
  {
  }

  /** Left alone, a consumer whose position is up to date takes the oldest item of a ring that has one. */
  lemma PopGoesThrough(s: Ring, k: ConsumerId)
    requires Inv(s) && PcOf(s, k) == AtPosition(s.top) && Queue(s) != []
    ensures s.buffer != []
    ensures var steps := [PopReadBottom(k)] + ([PopReadItem(k)] + ([PopRace(k, false)] + []));
            && Schedule(s, steps)
            && After(s, steps).taken == s.taken + [Queue(s)[0]]
  {
    hide Inv, Queue, Schedule, After, Slot;
    FrontIsTop(s);
    var s1 := Next(s, PopReadBottom(k));
    var s2 := Next(s1, PopReadItem(k));
    var s3 := Next(s2, PopRace(k, false));
    SameSlot(s, s1);
    assert s3.taken == s.taken + [s.top];
    NoSteps(s3);
    FirstStep(s2, PopRace(k, false), []);
    FirstStep(s1, PopReadItem(k), [PopRace(k, false)] + []);
    FirstStep(s, PopReadBottom(k), [PopReadItem(k)] + ([PopRace(k, false)] + []));
  }
}
