/** The single-producer, single-consumer ring, one memory access at a time, with indices that wrap at 2^64. */
module SpscQueues {
  import opened ExchangeTypes
  import opened RingIndexes

  const WORD: nat := 0x1_0000_0000_0000_0000

  /** The capacity asked for, rounded up; 0 is treated as 1. */
  method NextPowerOfTwo(n: nat) returns (p: nat)
    ensures PowerOfTwo(p) && n <= p && (p == 1 || p < 2 * n)
  {
    p := 1;
    while p < n
      invariant PowerOfTwo(p) && (p == 1 || p < 2 * n)
      decreases n - p
    {
      p := p * 2;
    }
  }

  /** Unsigned subtraction at the word's width. */
  function Difference(a: nat, b: nat): nat {
    (a - b) % WORD
  }

  /** The wrapped difference of two wrapped counters is their true difference, while that fits a word. */
  lemma TrueDifference(a: nat, b: nat)
    requires b <= a < b + WORD
    ensures Difference(a % WORD, b % WORD) == a - b
  {
    var qa, qb := a / WORD, b / WORD;
    assert a % WORD - b % WORD == (a - b) - WORD * (qa - qb);
  }

  // ---------- the machine ----------

  datatype ProducerPc<T> =
    | Idle
    | Offered(item: T)
    | SawTail(item: T, tail: nat)
    | Constructed(item: T, tail: nat)
    | Marked(item: T)

  datatype ConsumerPc<T> =
    | Resting
    | SawHead
    | Took(value: T)

  /** `pushed` and `popped` record what each side has published; `storage` holds None where nothing is constructed. */
  datatype Ring<T> = Ring(
    head: nat,
    tail: nat,
    storage: seq<Option<T>>,
    highWaterMark: nat,
    producer: ProducerPc<T>,
    consumer: ConsumerPc<T>,
    pushed: seq<T>,
    popped: seq<T>)

  datatype Step<T> =
    | Offer(item: T)
    | ReadTail
    | Construct
    | MarkHighWater
    | PublishHead
    | ReadHead
    | TakeItem
    | PublishTail

  function Init<T>(capacity: nat): Ring<T> {
    Ring(0, 0, seq(capacity, _ => None), 0, Idle, Resting, [], [])
  }

  predicate Enabled<T>(s: Ring<T>, step: Step<T>) {
    match step
    case Offer(_) => s.producer.Idle?
    case ReadTail => s.producer.Offered?
    case Construct => s.producer.SawTail?
    case MarkHighWater => s.producer.Constructed?
    case PublishHead => s.producer.Marked?
    case ReadHead => s.consumer.Resting?
    case TakeItem => s.consumer.SawHead? && s.storage != [] && s.storage[s.tail % |s.storage|].Some?
    case PublishTail => s.consumer.Took?
  }

  function Next<T>(s: Ring<T>, step: Step<T>): Ring<T>
    requires s.storage != [] && Enabled(s, step)
  {
    match step
    case Offer(item) => s.(producer := Offered(item))
    case ReadTail =>
      s.(producer := if Difference(s.head, s.tail) >= |s.storage| then Idle else SawTail(s.producer.item, s.tail))
    case Construct =>
      s.(storage := s.storage[s.head % |s.storage| := Some(s.producer.item)],
         producer := Constructed(s.producer.item, s.producer.tail))
    case MarkHighWater =>
      var occupancy := Difference(s.head + 1, s.producer.tail);
      s.(highWaterMark := if occupancy > s.highWaterMark then occupancy else s.highWaterMark,
         producer := Marked(s.producer.item))
    case PublishHead =>
      s.(head := (s.head + 1) % WORD, producer := Idle, pushed := s.pushed + [s.producer.item])
    case ReadHead => s.(consumer := if s.tail == s.head then Resting else SawHead)
    case TakeItem =>
      s.(storage := s.storage[s.tail % |s.storage| := None],
         consumer := Took(s.storage[s.tail % |s.storage|].value))
    case PublishTail =>
      s.(tail := (s.tail + 1) % WORD, consumer := Resting, popped := s.popped + [s.consumer.value])
  }

  // ---------- invariant ----------

  predicate CapacityOk<T>(s: Ring<T>) {
    && s.storage != [] && |s.storage| < WORD && WORD % |s.storage| == 0
  }

  /** The index words are the true counts, wrapped; the consumer has popped a prefix. */
  ghost predicate CountsOk<T>(s: Ring<T>) {
    && CapacityOk(s)
    && s.head == |s.pushed| % WORD && s.tail == |s.popped| % WORD
    && |s.popped| <= |s.pushed| <= |s.popped| + |s.storage|
    && s.popped == s.pushed[..|s.popped|]
  }

  ghost predicate SlotOk<T>(s: Ring<T>, i: nat, value: Option<T>)
    requires s.storage != []
  {
    s.storage[i % |s.storage|] == value
  }

  /** A queued slot holds what was pushed, unless the consumer has just emptied it. */
  ghost predicate QueuedSlot<T>(s: Ring<T>, i: nat)
    requires s.storage != [] && i < |s.pushed|
  {
    SlotOk(s, i, if s.consumer.Took? && i == |s.popped| then None else Some(s.pushed[i]))
  }

  /** Any other slot is empty, unless the producer has just filled it. */
  ghost predicate FreeSlot<T>(s: Ring<T>, i: nat)
    requires s.storage != []
  {
    SlotOk(s, i, if i == |s.pushed| && (s.producer.Constructed? || s.producer.Marked?)
                 then Some(s.producer.item) else None)
  }

  ghost predicate QueuedOk<T>(s: Ring<T>)
    requires CountsOk(s)
  {
    forall i: nat :: |s.popped| <= i < |s.pushed| ==> QueuedSlot(s, i)
  }

  ghost predicate FreeOk<T>(s: Ring<T>)
    requires CountsOk(s)
  {
    forall i: nat :: |s.pushed| <= i < |s.popped| + |s.storage| ==> FreeSlot(s, i)
  }

  function Occupancy<T>(s: Ring<T>): int {
    |s.pushed| - |s.popped|
  }

  /** Each side's registers describe a slot that is its own to touch. */
  ghost predicate RegistersOk<T>(s: Ring<T>)
    requires CountsOk(s)
  {
    && (s.producer.SawTail? || s.producer.Constructed? ==>
          exists old' :: 0 <= old' <= |s.popped| && s.producer.tail == old' % WORD && |s.pushed| < old' + |s.storage|)
    && (s.producer.Marked? ==> Occupancy(s) < |s.storage|)
    && (s.consumer.SawHead? || s.consumer.Took? ==> |s.popped| < |s.pushed|)
    && (s.consumer.Took? ==> s.consumer.value == s.pushed[|s.popped|])
    && Occupancy(s) <= s.highWaterMark <= |s.storage|
    && (s.producer.Marked? ==> Occupancy(s) < s.highWaterMark)
  }

  ghost predicate Inv<T(!new)>(s: Ring<T>) {
    CountsOk(s) && QueuedOk(s) && FreeOk(s) && RegistersOk(s)
  }

  lemma HeadSlot<T>(s: Ring<T>)
    requires CountsOk(s)
    ensures s.head % |s.storage| == |s.pushed| % |s.storage| && s.tail % |s.storage| == |s.popped| % |s.storage|
    ensures Difference(s.head, s.tail) == Occupancy(s)
  {
    WrapThenMask(|s.pushed|, |s.storage|, WORD);
    WrapThenMask(|s.popped|, |s.storage|, WORD);
    TrueDifference(|s.pushed|, |s.popped|);
  }

  lemma NextIndex(n: nat)
    ensures (n % WORD + 1) % WORD == (n + 1) % WORD
  {
  }

  lemma ProducerKeepsCounts<T(!new)>(s: Ring<T>, step: Step<T>)
    requires Inv(s) && Enabled(s, step)
    ensures CountsOk(Next(s, step))
  {
    hide QueuedOk, FreeOk, SlotOk;
    HeadSlot(s);
    NextIndex(|s.pushed|);
    NextIndex(|s.popped|);
  }

  /** What the registers promise about room and content. */
  lemma RegistersSay<T(!new)>(s: Ring<T>)
    requires CountsOk(s) && RegistersOk(s)
    ensures s.producer.SawTail? || s.producer.Constructed? || s.producer.Marked? ==> Occupancy(s) < |s.storage|
    ensures s.consumer.SawHead? || s.consumer.Took? ==> |s.popped| < |s.pushed|
    ensures s.consumer.Took? ==> s.consumer.value == s.pushed[|s.popped|]
  {
  }

  /** Writing one slot leaves every other slot of the window as it was. */
  lemma OtherSlot<T>(s: Ring<T>, s': Ring<T>, j: nat, i: nat, w: Option<T>, v: Option<T>)
    requires s.storage != [] && s'.storage == s.storage[j % |s.storage| := w] && SlotOk(s, i, v)
    requires i < j < i + |s.storage| || j < i < j + |s.storage|
    ensures SlotOk(s', i, v)
  {
    if i < j {
      SlotsApart(|s.storage|, i, j);
    } else {
      SlotsApart(|s.storage|, j, i);
    }
  }

  lemma StepKeepsQueued<T(!new)>(s: Ring<T>, step: Step<T>)
    requires Inv(s) && Enabled(s, step) && CountsOk(Next(s, step))
    ensures QueuedOk(Next(s, step))
  {
    hide Difference, RegistersOk, FreeSlot;
    HeadSlot(s);
    RegistersSay(s);
    var s' := Next(s, step);
    forall i: nat | |s'.popped| <= i < |s'.pushed| ensures QueuedSlot(s', i) {
      if i < |s.pushed| {
        assert QueuedSlot(s, i);
        if step.Construct? {
          OtherSlot(s, s', |s.pushed|, i, Some(s.producer.item),
                    if s.consumer.Took? && i == |s.popped| then None else Some(s.pushed[i]));
        } else if step.TakeItem? && i > |s.popped| {
          OtherSlot(s, s', |s.popped|, i, None, Some(s.pushed[i]));
        }
      } else {
        JustPublished(s);
      }
    }
  }

  lemma JustPublished<T>(s: Ring<T>)
    requires CountsOk(s) && FreeOk(s) && s.producer.Marked? && RegistersOk(s)
    ensures SlotOk(s, |s.pushed|, Some(s.producer.item))
  {
    hide SlotOk;
    assert FreeSlot(s, |s.pushed|);
  }

  lemma StepKeepsFree<T(!new)>(s: Ring<T>, step: Step<T>)
    requires Inv(s) && Enabled(s, step) && CountsOk(Next(s, step))
    ensures FreeOk(Next(s, step))
  {
    hide Difference, RegistersOk, QueuedSlot;
    HeadSlot(s);
    RegistersSay(s);
    var s' := Next(s, step);
    forall i: nat | |s'.pushed| <= i < |s'.popped| + |s'.storage| ensures FreeSlot(s', i) {
      if i < |s.popped| + |s.storage| {
        assert FreeSlot(s, i);
        var v := if i == |s.pushed| && (s.producer.Constructed? || s.producer.Marked?) then Some(s.producer.item) else None;
        if step.Construct? && i > |s.pushed| {
          OtherSlot(s, s', |s.pushed|, i, Some(s.producer.item), v);
        } else if step.TakeItem? {
          OtherSlot(s, s', |s.popped|, i, None, v);
        }
      } else {
        JustFreed(s);
      }
    }
  }

  lemma JustFreed<T>(s: Ring<T>)
    requires CountsOk(s) && QueuedOk(s) && s.consumer.Took? && RegistersOk(s)
    ensures SlotOk(s, |s.popped| + |s.storage|, None)
  {
    assert QueuedSlot(s, |s.popped|);
    AddMultiple(|s.popped|, |s.storage|, 1);
  }

  lemma StepKeepsRegisters<T(!new)>(s: Ring<T>, step: Step<T>)
    requires Inv(s) && Enabled(s, step) && CountsOk(Next(s, step))
    ensures RegistersOk(Next(s, step))
  {
    HeadSlot(s);
    match step
    case MarkHighWater =>
      var old' :| 0 <= old' <= |s.popped| && s.producer.tail == old' % WORD && |s.pushed| < old' + |s.storage|;
      MarkedOccupancy(s, old');
    case TakeItem => assert QueuedSlot(s, |s.popped|);
    case _ =>
  }

  /** The occupancy the producer records counts its own push against a tail that may since have moved on. */
  lemma MarkedOccupancy<T>(s: Ring<T>, old': nat)
    requires CountsOk(s) && old' <= |s.popped| && |s.pushed| < old' + |s.storage|
    ensures Difference(s.head + 1, old' % WORD) == |s.pushed| + 1 - old'
  {
    hide Difference;
    OneMoreApart(|s.pushed|, old');
  }

  lemma OneMoreApart(a: nat, b: nat)
    requires b <= a && a + 1 < b + WORD
    ensures Difference(a % WORD + 1, b % WORD) == a + 1 - b
  {
    var qa, qb := a / WORD, b / WORD;
    assert a % WORD + 1 - b % WORD == (a + 1 - b) - WORD * (qa - qb);
  }

  lemma StepKeeps<T(!new)>(s: Ring<T>, step: Step<T>)
    requires Inv(s) && Enabled(s, step)
    ensures Inv(Next(s, step))
  {
    hide Next, CountsOk, QueuedOk, FreeOk, RegistersOk;
    ProducerKeepsCounts(s, step);
    StepKeepsQueued(s, step);
    StepKeepsFree(s, step);
    StepKeepsRegisters(s, step);
  }

  lemma InitOk<T(!new)>(capacity: nat)
    requires 0 < capacity < WORD && PowerOfTwo(capacity)
    ensures Inv(Init<T>(capacity))
  {
    WordIsPower();
    PowerDivides(capacity, WORD);
    var s := Init<T>(capacity);
    forall i: nat | i < capacity ensures FreeSlot(s, i) {
      assert 0 <= i % capacity < capacity;
    }
  }

  lemma WordIsPower()
    ensures PowerOfTwo(WORD)
  {
    Doubled(0x1_0000_0000_0000_0000, 0x100_0000_0000_0000);
    Doubled(0x100_0000_0000_0000, 0x1_0000_0000_0000);
    Doubled(0x1_0000_0000_0000, 0x100_0000_0000);
    Doubled(0x100_0000_0000, 0x1_0000_0000);
    Doubled(0x1_0000_0000, 0x100_0000);
    Doubled(0x100_0000, 0x1_0000);
    Doubled(0x1_0000, 0x100);
    Doubled(0x100, 1);
  }

  lemma Doubled(n: nat, m: nat)
    requires m > 0 && n == 256 * m
    ensures PowerOfTwo(m) ==> PowerOfTwo(n)
  {
    hide PowerOfTwo;
    Twice(m);
    Twice(2 * m);
    Twice(4 * m);
    Twice(8 * m);
    Twice(16 * m);
    Twice(32 * m);
    Twice(64 * m);
    Twice(128 * m);
  }

  lemma Twice(m: nat)
    requires m > 0
    ensures PowerOfTwo(m) ==> PowerOfTwo(2 * m)
  {
    assert 2 * m / 2 == m;
  }

  ghost predicate Schedule<T(!new)>(s: Ring<T>, steps: seq<Step<T>>)
    decreases |steps|
  {
    steps == [] || (s.storage != [] && Enabled(s, steps[0]) && Schedule(Next(s, steps[0]), steps[1..]))
  }

  ghost function After<T(!new)>(s: Ring<T>, steps: seq<Step<T>>): Ring<T>
    requires Schedule(s, steps)
    decreases |steps|
  {
    if steps == [] then s else After(Next(s, steps[0]), steps[1..])
  }

  lemma {:induction false} ScheduleKeeps<T(!new)>(s: Ring<T>, steps: seq<Step<T>>)
    requires Inv(s) && Schedule(s, steps)
    ensures Inv(After(s, steps))
    decreases |steps|
  {
    hide Next, CountsOk, QueuedOk, FreeOk, RegistersOk;
    if steps != [] {
      StepKeeps(s, steps[0]);
      ScheduleKeeps(Next(s, steps[0]), steps[1..]);
    }
  }

  /** In every interleaving the consumer has popped a prefix of what was pushed, and occupancy never passes the
      high-water mark nor the mark the capacity, across index wrap-around too. */
  lemma PopsAPrefix<T(!new)>(capacity: nat, steps: seq<Step<T>>)
    requires 0 < capacity < WORD && PowerOfTwo(capacity)
    requires Schedule(Init(capacity), steps)
    ensures var s := After(Init(capacity), steps);
            && |s.popped| <= |s.pushed| && s.popped == s.pushed[..|s.popped|]
            && Occupancy(s) <= s.highWaterMark <= |s.storage|
  {
    hide Next, QueuedOk, FreeOk, Schedule, After;
    InitOk<T>(capacity);
    ScheduleKeeps(Init(capacity), steps);
  }

  /** Neither side touches a slot the other owns: the producer constructs only in an empty slot that no queued item and
      no unfinished pop has, and the consumer, once it has seen an item, always finds it there. */
  lemma SlotsAreOwned<T(!new)>(s: Ring<T>)
    requires Inv(s)
    ensures s.producer.SawTail? ==> s.storage[s.head % |s.storage|] == None
    ensures s.producer.SawTail? && (s.consumer.SawHead? || s.consumer.Took?) ==>
              s.head % |s.storage| != s.tail % |s.storage|
    ensures s.consumer.SawHead? ==> Enabled(s, TakeItem)
  {
    hide Difference, RegistersOk;
    HeadSlot(s);
    RegistersSay(s);
    if s.producer.SawTail? {
      assert FreeSlot(s, |s.pushed|);
      if s.consumer.SawHead? || s.consumer.Took? {
        SlotsApart(|s.storage|, |s.popped|, |s.pushed|);
      }
    }
    if s.consumer.SawHead? {
      assert QueuedSlot(s, |s.popped|);
    }
  }

  // ---------- what each side answers ----------

  /** Two counters no further apart than the ring is long are equal as words only when they are equal. */
  lemma SameWordSameCount<T>(s: Ring<T>)
    requires CountsOk(s)
    ensures s.tail == s.head <==> |s.popped| == |s.pushed|
  {
    TrueDifference(|s.pushed|, |s.popped|);
  }

  /** A pop answers "empty" exactly when everything pushed has been popped. */
  lemma EmptyExactly<T(!new)>(s: Ring<T>)
    requires Inv(s) && Enabled(s, ReadHead)
    ensures Next(s, ReadHead).consumer.Resting? <==> |s.popped| == |s.pushed|
    ensures !Next(s, ReadHead).consumer.Resting? <==> Next(s, ReadHead).consumer.SawHead?
  {
    hide QueuedOk, FreeOk, RegistersOk;
    SameWordSameCount(s);
  }

  /** A push answers "full" exactly when as many items are queued as the ring has slots. */
  lemma FullExactly<T(!new)>(s: Ring<T>)
    requires Inv(s) && Enabled(s, ReadTail)
    ensures Next(s, ReadTail).producer.Idle? <==> |s.pushed| - |s.popped| == |s.storage|
    ensures !Next(s, ReadTail).producer.Idle? <==> Next(s, ReadTail).producer.SawTail?
  {
    hide QueuedOk, FreeOk, RegistersOk, Difference;
    HeadSlot(s);
  }

  lemma FirstStep<T(!new)>(s: Ring<T>, step: Step<T>, rest: seq<Step<T>>)
    requires s.storage != [] && Enabled(s, step) && Schedule(Next(s, step), rest)
    ensures Schedule(s, [step] + rest) && After(s, [step] + rest) == After(Next(s, step), rest)
  {
    hide Next, Enabled;
    assert ([step] + rest)[0] == step && ([step] + rest)[1..] == rest;
  }

  /** A push that is not refused goes through: the producer's own accesses publish the very item offered. */
  lemma PushGoesThrough<T(!new)>(s: Ring<T>, item: T)
    requires Inv(s) && s.producer.Idle? && |s.pushed| - |s.popped| < |s.storage|
    ensures var steps := [Offer(item)] + ([ReadTail] + ([Construct] + ([MarkHighWater] + ([PublishHead] + []))));
            && Schedule(s, steps)
            && After(s, steps).pushed == s.pushed + [item] && After(s, steps).popped == s.popped
  {
    hide QueuedOk, FreeOk, RegistersOk, Difference, Schedule, After;
    var s1 := Next(s, Offer(item));
    StepKeeps(s, Offer(item));
    FullExactly(s1);
    var s2 := Next(s1, ReadTail);
    var s3 := Next(s2, Construct);
    var s4 := Next(s3, MarkHighWater);
    var s5 := Next(s4, PublishHead);
    NoSteps(s5);
    FirstStep(s4, PublishHead, []);
    FirstStep(s3, MarkHighWater, [PublishHead] + []);
    FirstStep(s2, Construct, [MarkHighWater] + ([PublishHead] + []));
    FirstStep(s1, ReadTail, [Construct] + ([MarkHighWater] + ([PublishHead] + [])));
    FirstStep(s, Offer(item), [ReadTail] + ([Construct] + ([MarkHighWater] + ([PublishHead] + []))));
  }

  lemma NoSteps<T(!new)>(s: Ring<T>)
    ensures Schedule(s, []) && After(s, []) == s
  {
  }

  /** A pop that finds something takes it: the consumer's own accesses return the oldest item queued. */
  lemma PopGoesThrough<T(!new)>(s: Ring<T>)
    requires Inv(s) && s.consumer.Resting? && |s.popped| < |s.pushed|
    ensures var steps := [ReadHead] + ([TakeItem] + ([PublishTail] + []));
            && Schedule(s, steps)
            && After(s, steps).popped == s.popped + [s.pushed[|s.popped|]] && After(s, steps).pushed == s.pushed
  {
    hide QueuedOk, FreeOk, RegistersOk, Schedule, After;
    EmptyExactly(s);
    var s1 := Next(s, ReadHead);
    StepKeeps(s, ReadHead);
    SlotsAreOwned(s1);
    var s2 := Next(s1, TakeItem);
    StepKeeps(s1, TakeItem);
    RegistersSay(s2);
    var s3 := Next(s2, PublishTail);
    NoSteps(s3);
    FirstStep(s2, PublishTail, []);
    FirstStep(s1, TakeItem, [PublishTail] + []);
    FirstStep(s, ReadHead, [TakeItem] + ([PublishTail] + []));
  }
}
