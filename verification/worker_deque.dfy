/** The Chase-Lev work-stealing deque, one memory access at a time: one owner, any number of thieves, every
    interleaving. A push may see a top_ as old as it likes. */
module WorkerDeques {
  import opened RingIndexes

  /** Items are told apart by the push that published them: the n-th successful push publishes token n. */
  type Token = nat

  type ThiefId = nat

  /** Where the owner stands between two accesses. */
  datatype OwnerPc =
    | Idle
    | PushLoaded(b: int)
    | PushChecked(b: int)
    | PushStored(b: int)
    | PopLoaded(b: int)
    | PopPublished(b: int)
    | PopSawTop(b: int, t: int)
    | PopRaced(b: int, t: int, won: bool)
    | PopRestored(b: int, won: bool)

  datatype ThiefPc =
    | Away
    | SawTop(t: int)
    | SawBottom(t: int)
    | SawItem(t: int, item: Token)

  datatype Deque = Deque(
    top: int,
    bottom: int,
    buffer: seq<Token>,
    owner: OwnerPc,
    thieves: map<ThiefId, ThiefPc>,
    pushed: nat,
    taken: seq<Token>)

  datatype Step =
    | PushLoad
    | PushCheck(staleTop: int)
    | PushStore
    | PushPublish
    | PopLoad
    | PopPublish
    | PopReadTop
    | PopEmpty
    | PopTake
    | PopRace
    | PopRestore
    | PopFinish
    | StealReadTop(thief: ThiefId)
    | StealReadBottom(thief: ThiefId)
    | StealReadItem(thief: ThiefId)
    | StealRace(thief: ThiefId)

  function Init(capacity: nat): Deque {
    Deque(0, 0, seq(capacity, _ => 0), Idle, map[], 0, [])
  }

  function PcOf(s: Deque, thief: ThiefId): ThiefPc {
    if thief in s.thieves then s.thieves[thief] else Away
  }

  function Slot(s: Deque, i: int): nat
    requires s.buffer != []
  {
    i % |s.buffer|
  }

  predicate Enabled(s: Deque, step: Step) {
    match step
    case PushLoad => s.owner.Idle?
    case PushCheck(stale) => s.owner.PushLoaded? && 0 <= stale <= s.top
    case PushStore => s.owner.PushChecked?
    case PushPublish => s.owner.PushStored?
    case PopLoad => s.owner.Idle?
    case PopPublish => s.owner.PopLoaded?
    case PopReadTop => s.owner.PopPublished?
    case PopEmpty => s.owner.PopSawTop? && s.owner.b < s.owner.t
    case PopTake => s.owner.PopSawTop? && s.owner.b > s.owner.t
    case PopRace => s.owner.PopSawTop? && s.owner.b == s.owner.t
    case PopRestore => s.owner.PopRaced?
    case PopFinish => s.owner.PopRestored?
    case StealReadTop(k) => PcOf(s, k).Away?
    case StealReadBottom(k) => PcOf(s, k).SawTop?
    case StealReadItem(k) => PcOf(s, k).SawBottom?
    case StealRace(k) => PcOf(s, k).SawItem?
  }

  /** One access. A push that finds no room, a pop or a steal that finds nothing, simply returns. */
  function Next(s: Deque, step: Step): Deque
    requires s.buffer != [] && Enabled(s, step)
  {
    match step
    case PushLoad => s.(owner := PushLoaded(s.bottom))
    case PushCheck(stale) => s.(owner := if s.owner.b - stale >= |s.buffer| then Idle else PushChecked(s.owner.b))
    case PushStore => s.(buffer := s.buffer[Slot(s, s.owner.b) := s.pushed], owner := PushStored(s.owner.b))
    case PushPublish => s.(bottom := s.owner.b + 1, owner := Idle, pushed := s.pushed + 1)
    case PopLoad => s.(owner := PopLoaded(s.bottom - 1))
    case PopPublish => s.(bottom := s.owner.b, owner := PopPublished(s.owner.b))
    case PopReadTop => s.(owner := PopSawTop(s.owner.b, s.top))
    case PopEmpty => s.(bottom := s.owner.t, owner := Idle)
    case PopTake => s.(owner := Idle, taken := s.taken + [s.buffer[Slot(s, s.owner.b)]])
    case PopRace =>
      var won := s.top == s.owner.t;
      s.(top := if won then s.owner.t + 1 else s.top, owner := PopRaced(s.owner.b, s.owner.t, won))
    case PopRestore => s.(bottom := s.owner.t + 1, owner := PopRestored(s.owner.b, s.owner.won))
    case PopFinish =>
      s.(owner := Idle, taken := if s.owner.won then s.taken + [s.buffer[Slot(s, s.owner.b)]] else s.taken)
    case StealReadTop(k) => s.(thieves := s.thieves[k := SawTop(s.top)])
    case StealReadBottom(k) =>
      var t := PcOf(s, k).t;
      s.(thieves := s.thieves[k := if s.bottom - t <= 0 then Away else SawBottom(t)])
    case StealReadItem(k) =>
      var t := PcOf(s, k).t;
      s.(thieves := s.thieves[k := SawItem(t, s.buffer[Slot(s, t)])])
    case StealRace(k) =>
      var t, item := PcOf(s, k).t, PcOf(s, k).item;
      var s' := s.(thieves := s.thieves[k := Away]);
      if s.top == t then s'.(top := t + 1, taken := s.taken + [item]) else s'
  }

  // ---------- the deque these accesses implement ----------

  /** One past the last item still up for grabs. While a pop is undecided its cell still counts; once the pop has seen
      a top_ below its cell the cell is the owner's. */
  function LogicalBottom(s: Deque): int {
    match s.owner
    case PopPublished(b) => b + 1
    case PopSawTop(b, t) => if b > t then b else b + 1
    case PopRaced(b, _, _) => b + 1
    case _ => s.bottom
  }

  /** The cell a pop has won but not returned yet. */
  predicate Holds(s: Deque) {
    (s.owner.PopSawTop? && s.owner.b > s.owner.t)
    || (s.owner.PopRaced? && s.owner.won)
    || (s.owner.PopRestored? && s.owner.won)
  }

  function Held(s: Deque): seq<Token>
    requires s.buffer != []
  {
    if Holds(s) then [s.buffer[Slot(s, s.owner.b)]] else []
  }

  /** The tokens in cells lo up to hi. */
  function Cells(s: Deque, lo: int, hi: int): (q: seq<Token>)
    requires s.buffer != [] && lo <= hi
    ensures |q| == hi - lo
    decreases hi - lo
  {
    if lo == hi then [] else [s.buffer[Slot(s, lo)]] + Cells(s, lo + 1, hi)
  }

  /** The abstract deque: front at the thieves' end. */
  function Queue(s: Deque): seq<Token>
    requires s.buffer != [] && s.top <= LogicalBottom(s)
  {
    Cells(s, s.top, LogicalBottom(s))
  }

  /** The owner's registers agree with the shared words. */
  predicate OwnerOk(s: Deque) {
    match s.owner
    case Idle => true
    case PushLoaded(b) => b == s.bottom
    case PushChecked(b) => b == s.bottom && b - s.top < |s.buffer|
    case PushStored(b) => b == s.bottom && b - s.top < |s.buffer| && s.buffer != [] && s.buffer[Slot(s, b)] == s.pushed
    case PopLoaded(b) => b == s.bottom - 1
    case PopPublished(b) => b == s.bottom
    case PopSawTop(b, t) => b == s.bottom && t <= s.top && (b < t ==> t == b + 1 && s.top == t)
    case PopRaced(b, t, _) => b == s.bottom && b == t && s.top == b + 1
    case PopRestored(b, _) => s.bottom == b + 1 && s.top == b + 1
  }

  /** A thief whose compare-and-swap could still succeed has seen an item that is really there. */
  predicate ThiefOk(s: Deque, pc: ThiefPc)
    requires s.buffer != []
  {
    match pc
    case Away => true
    case SawTop(t) => 0 <= t <= s.top
    case SawBottom(t) => 0 <= t <= s.top && (t == s.top ==> t < LogicalBottom(s))
    case SawItem(t, item) =>
      0 <= t <= s.top && (t == s.top ==> t < LogicalBottom(s) && item == s.buffer[Slot(s, t)])
  }

  ghost predicate ThievesOk(s: Deque)
    requires s.buffer != []
  {
    forall k :: k in s.thieves ==> ThiefOk(s, s.thieves[k])
  }

  predicate BoundsOk(s: Deque) {
    && s.buffer != []
    && 0 <= s.top <= LogicalBottom(s) <= s.top + |s.buffer|
  }

  /** Tokens 0 to n - 1, once each. */
  function AllTokens(n: nat): multiset<Token> {
    if n == 0 then multiset{} else AllTokens(n - 1) + multiset{n - 1}
  }

  /** What is out of the deque: returned, or in the owner's hand. */
  function Out(s: Deque): seq<Token>
    requires s.buffer != []
  {
    s.taken + Held(s)
  }

  /** Every token published is taken, held by the owner's pop, or queued: exactly one of these, exactly once. */
  predicate Conserved(s: Deque)
    requires BoundsOk(s)
  {
    multiset(Out(s)) + multiset(Queue(s)) == AllTokens(s.pushed)
  }

  ghost predicate Inv(s: Deque) {
    BoundsOk(s) && OwnerOk(s) && ThievesOk(s) && Conserved(s)
  }

  // ---------- the abstract deque ----------

  /** What an access means to the abstract deque. */
  datatype Effect =
    | Silent
    | Pushed(item: Token)
    | Popped(item: Token)
    | FoundEmpty
    | Stolen(item: Token)

  function EffectOf(s: Deque, step: Step): Effect
    requires BoundsOk(s) && Enabled(s, step)
  {
    match step
    case PushPublish => Pushed(s.pushed)
    case PopReadTop =>
      if s.top < s.owner.b then Popped(s.buffer[Slot(s, s.owner.b)])
      else if s.top > s.owner.b then FoundEmpty
      else Silent
    case PopRace => if s.top == s.owner.t then Popped(s.buffer[Slot(s, s.owner.b)]) else FoundEmpty
    case StealRace(k) => if s.top == PcOf(s, k).t then Stolen(PcOf(s, k).item) else Silent
    case _ => Silent
  }

  /** The atomic deque: push and pop at the back, steal at the front. */
  predicate Atomic(q: seq<Token>, effect: Effect, q': seq<Token>) {
    match effect
    case Silent => q' == q
    case Pushed(x) => q' == q + [x]
    case Popped(x) => q == q' + [x]
    case FoundEmpty => q == [] && q' == []
    case Stolen(x) => q == [x] + q'
  }

  // ---------- cells ----------

  lemma {:induction false} CellsExtend(s: Deque, lo: int, hi: int)
    requires s.buffer != [] && lo <= hi
    ensures Cells(s, lo, hi + 1) == Cells(s, lo, hi) + [s.buffer[Slot(s, hi)]]
    decreases hi - lo
  {
    if lo < hi {
      CellsExtend(s, lo + 1, hi);
    }
  }

  /** Only the cells in between matter. */
  lemma {:induction false} CellsFrame(s: Deque, s': Deque, lo: int, hi: int)
    requires s.buffer != [] && |s'.buffer| == |s.buffer| && lo <= hi
    requires forall i :: lo <= i < hi ==> s'.buffer[Slot(s', i)] == s.buffer[Slot(s, i)]
    ensures Cells(s', lo, hi) == Cells(s, lo, hi)
    decreases hi - lo
  {
    if lo < hi {
      CellsFrame(s, s', lo + 1, hi);
    }
  }

  /** A push's store touches no cell between top_ and its own index. */
  lemma StoreSpares(s: Deque, b: int, x: Token, i: int)
    requires s.buffer != [] && s.top <= i < b && b - s.top < |s.buffer|
    ensures s.buffer[Slot(s, b) := x][Slot(s, i)] == s.buffer[Slot(s, i)]
  {
    SlotsApart(|s.buffer|, i, b);
  }

  // ---------- each access, as an abstract operation ----------

  lemma SameBuffer(s: Deque, s': Deque, lo: int, hi: int)
    requires s.buffer != [] && s'.buffer == s.buffer && lo <= hi
    ensures Cells(s', lo, hi) == Cells(s, lo, hi)
  {
    CellsFrame(s, s', lo, hi);
  }

  lemma OwnerPushes(s: Deque, step: Step)
    requires BoundsOk(s) && OwnerOk(s) && Enabled(s, step)
    requires step.PushLoad? || step.PushCheck? || step.PushStore? || step.PushPublish?
    ensures var s' := Next(s, step);
            BoundsOk(s') && OwnerOk(s') && Atomic(Queue(s), EffectOf(s, step), Queue(s'))
  {
    hide Cells;
    var s' := Next(s, step);
    var lo, hi := s.top, LogicalBottom(s);
    match step
    case PushStore =>
      forall i | lo <= i < hi ensures s'.buffer[Slot(s', i)] == s.buffer[Slot(s, i)] {
        StoreSpares(s, s.owner.b, s.pushed, i);
      }
      CellsFrame(s, s', lo, hi);
    case PushPublish =>
      SameBuffer(s, s', lo, hi + 1);
      CellsExtend(s, lo, hi);
    case _ => SameBuffer(s, s', lo, hi);
  }

  lemma OwnerPops(s: Deque, step: Step)
    requires BoundsOk(s) && OwnerOk(s) && Enabled(s, step)
    requires step.PopLoad? || step.PopPublish? || step.PopReadTop? || step.PopEmpty? || step.PopTake? || step.PopRace?
             || step.PopRestore? || step.PopFinish?
    ensures var s' := Next(s, step);
            BoundsOk(s') && OwnerOk(s') && Atomic(Queue(s), EffectOf(s, step), Queue(s'))
  {
    hide Cells;
    var s' := Next(s, step);
    var lo, hi := s.top, LogicalBottom(s);
    match step
    case PopReadTop =>
      if lo < hi - 1 {
        CellsExtend(s, lo, hi - 1);
        SameBuffer(s, s', lo, hi - 1);
      } else {
        SameBuffer(s, s', lo, hi);
        NoCells(s, hi);
      }
    case PopRace =>
      NoCells(s, hi);
      NoCells(s', hi);
      if s.top == s.owner.t {
        CellsExtend(s, lo, lo);
        NoCells(s, lo);
      }
    case _ => SameBuffer(s, s', lo, hi);
  }

  lemma NoCells(s: Deque, i: int)
    requires s.buffer != []
    ensures Cells(s, i, i) == []
  {
  }

  predicate ByThief(step: Step) {
    step.StealReadTop? || step.StealReadBottom? || step.StealReadItem? || step.StealRace?
  }

  lemma ThiefFact(s: Deque, step: Step)
    requires BoundsOk(s) && ThievesOk(s) && Enabled(s, step) && ByThief(step)
    ensures ThiefOk(s, PcOf(s, step.thief))
  {
    hide LogicalBottom;
  }

  lemma ThiefKeepsOwner(s: Deque, step: Step)
    requires BoundsOk(s) && OwnerOk(s) && Enabled(s, step) && ByThief(step) && ThiefOk(s, PcOf(s, step.thief))
    ensures BoundsOk(Next(s, step)) && OwnerOk(Next(s, step)) && LogicalBottom(Next(s, step)) == LogicalBottom(s)
    ensures Next(s, step).buffer == s.buffer
  {
  }

  lemma ThiefSteps(s: Deque, step: Step)
    requires BoundsOk(s) && OwnerOk(s) && Enabled(s, step) && ByThief(step) && ThiefOk(s, PcOf(s, step.thief))
    ensures var s' := Next(s, step);
            BoundsOk(s') && OwnerOk(s') && Atomic(Queue(s), EffectOf(s, step), Queue(s'))
  {
    hide Cells, OwnerOk, LogicalBottom;
    ThiefKeepsOwner(s, step);
    var s' := Next(s, step);
    var lo, hi := s.top, LogicalBottom(s);
    if step.StealRace? && s.top == PcOf(s, step.thief).t {
      FirstCell(s, lo, hi);
      SameBuffer(s, s', lo + 1, hi);
    } else {
      SameBuffer(s, s', lo, hi);
    }
  }

  lemma FirstCell(s: Deque, lo: int, hi: int)
    requires s.buffer != [] && lo < hi
    ensures Cells(s, lo, hi) == [s.buffer[Slot(s, lo)]] + Cells(s, lo + 1, hi)
  {
  }

  /** No access breaks what a thief has already seen. */
  lemma ThievesStayOk(s: Deque, step: Step)
    requires BoundsOk(s) && OwnerOk(s) && ThievesOk(s) && Enabled(s, step)
    ensures Next(s, step).buffer != [] && ThievesOk(Next(s, step))
  {
    var s' := Next(s, step);
    forall k | k in s'.thieves ensures ThiefOk(s', s'.thieves[k]) {
      assert k in s.thieves ==> ThiefOk(s, s.thieves[k]);
      if step.PushStore? {
        StoreSparesThief(s, PcOf(s, k));
      }
    }
  }

  lemma StoreSparesThief(s: Deque, pc: ThiefPc)
    requires BoundsOk(s) && OwnerOk(s) && s.owner.PushChecked? && ThiefOk(s, pc)
    ensures pc.SawItem? && pc.t == s.top ==>
              s.buffer[Slot(s, s.owner.b) := s.pushed][Slot(s, pc.t)] == s.buffer[Slot(s, pc.t)]
  {
    if pc.SawItem? && pc.t == s.top {
      StoreSpares(s, s.owner.b, s.pushed, pc.t);
    }
  }

  /** Each access implements the atomic deque's push, pop or steal, or nothing at all. */
  lemma StepRefines(s: Deque, step: Step)
    requires Inv(s) && Enabled(s, step)
    ensures BoundsOk(Next(s, step)) && OwnerOk(Next(s, step))
    ensures Atomic(Queue(s), EffectOf(s, step), Queue(Next(s, step)))
  {
    hide Queue, Conserved, ThievesOk, Atomic, EffectOf, OwnerOk, BoundsOk, Next;
    if ByThief(step) {
      ThiefFact(s, step);
      ThiefSteps(s, step);
    } else if step.PushLoad? || step.PushCheck? || step.PushStore? || step.PushPublish? {
      OwnerPushes(s, step);
    } else {
      OwnerPops(s, step);
    }
  }

  // ---------- conservation ----------

  lemma OutAfterOwner(s: Deque, step: Step)
    requires BoundsOk(s) && OwnerOk(s) && Enabled(s, step) && !ByThief(step) && BoundsOk(Next(s, step))
    ensures var effect := EffectOf(s, step);
            && Out(Next(s, step)) == Out(s) + (if effect.Popped? then [effect.item] else [])
            && !effect.Stolen?
  {
    hide LogicalBottom;
  }

  lemma OutAfterThief(s: Deque, step: Step)
    requires BoundsOk(s) && OwnerOk(s) && Enabled(s, step) && ByThief(step) && BoundsOk(Next(s, step))
    ensures var effect := EffectOf(s, step);
            && multiset(Out(Next(s, step))) == multiset(Out(s)) + (if effect.Stolen? then multiset{effect.item} else multiset{})
            && !effect.Popped? && !effect.Pushed?
  {
    hide LogicalBottom;
    var effect := EffectOf(s, step);
    assert Held(Next(s, step)) == Held(s);
    if effect.Stolen? {
      InTheMiddle(s.taken, Held(s), effect.item);
    }
  }

  lemma InTheMiddle(a: seq<Token>, b: seq<Token>, x: Token)
    ensures multiset(a + [x] + b) == multiset(a + b) + multiset{x}
  {
    assert multiset(a + [x] + b) == multiset(a + [x]) + multiset(b);
  }

  /** A popped or stolen item is out; a pushed one carries the next number. */
  lemma HandsAfter(s: Deque, step: Step)
    requires BoundsOk(s) && OwnerOk(s) && Enabled(s, step) && BoundsOk(Next(s, step))
    ensures var s' := Next(s, step); var effect := EffectOf(s, step);
            && multiset(Out(s')) == multiset(Out(s))
                 + (if effect.Popped? || effect.Stolen? then multiset{effect.item} else multiset{})
            && s'.pushed == s.pushed + (if effect.Pushed? then 1 else 0)
            && (effect.Pushed? ==> effect.item == s.pushed)
  {
    hide Out, LogicalBottom, OwnerOk;
    if ByThief(step) {
      OutAfterThief(s, step);
    } else {
      OutAfterOwner(s, step);
    }
  }

  /** What the abstract operation does to the contents. */
  lemma AtomicContents(q: seq<Token>, effect: Effect, q': seq<Token>)
    requires Atomic(q, effect, q')
    ensures multiset(q') + (if effect.Popped? || effect.Stolen? then multiset{effect.item} else multiset{})
              == multiset(q) + (if effect.Pushed? then multiset{effect.item} else multiset{})
  {
    match effect
    case Pushed(x) => assert multiset(q') == multiset(q) + multiset{x};
    case Popped(x) => assert multiset(q) == multiset(q') + multiset{x};
    case Stolen(x) => assert multiset(q) == multiset{x} + multiset(q');
    case _ =>
  }

  lemma OneMore(n: nat)
    ensures AllTokens(n + 1) == AllTokens(n) + multiset{n}
  {
  }

  lemma Balance(hands: multiset<Token>, hands': multiset<Token>, q: multiset<Token>, q': multiset<Token>,
                out: multiset<Token>, into: multiset<Token>, all: multiset<Token>)
    requires hands + q == all && hands' == hands + out && q' + out == q + into
    ensures hands' + q' == all + into
  {
    forall x: Token ensures (hands' + q')[x] == (all + into)[x] {
      assert (hands + q)[x] == all[x];
      assert (q' + out)[x] == (q + into)[x];
    }
  }

  lemma StepConserves(s: Deque, step: Step)
    requires Inv(s) && Enabled(s, step)
    ensures BoundsOk(Next(s, step)) && Conserved(Next(s, step))
  {
    hide Queue, ThievesOk, OwnerOk, Next, Out, EffectOf, LogicalBottom, AllTokens, Atomic;
    StepRefines(s, step);
    HandsAfter(s, step);
    var s', effect := Next(s, step), EffectOf(s, step);
    AtomicContents(Queue(s), effect, Queue(s'));
    OneMore(s.pushed);
    Balance(multiset(Out(s)), multiset(Out(s')), multiset(Queue(s)), multiset(Queue(s')),
            if effect.Popped? || effect.Stolen? then multiset{effect.item} else multiset{},
            if effect.Pushed? then multiset{effect.item} else multiset{}, AllTokens(s.pushed));
  }

  // ---------- every interleaving ----------

  lemma StepKeeps(s: Deque, step: Step)
    requires Inv(s) && Enabled(s, step)
    ensures Inv(Next(s, step))
  {
    hide ThievesOk, OwnerOk, BoundsOk, Next, Conserved;
    StepRefines(s, step);
    StepConserves(s, step);
    ThievesStayOk(s, step);
  }

  lemma InitOk(capacity: nat)
    requires capacity > 0
    ensures Inv(Init(capacity))
  {
  }

  predicate Schedule(s: Deque, steps: seq<Step>)
    requires s.buffer != []
    decreases |steps|
  {
    steps == [] || (Enabled(s, steps[0]) && Schedule(Next(s, steps[0]), steps[1..]))
  }

  function After(s: Deque, steps: seq<Step>): Deque
    requires s.buffer != [] && Schedule(s, steps)
    decreases |steps|
  {
    if steps == [] then s else After(Next(s, steps[0]), steps[1..])
  }

  lemma {:induction false} ScheduleKeeps(s: Deque, steps: seq<Step>)
    requires Inv(s) && Schedule(s, steps)
    ensures Inv(After(s, steps))
    decreases |steps|
  {
    hide ThievesOk, OwnerOk, Next, Conserved;
    if steps != [] {
      StepKeeps(s, steps[0]);
      ScheduleKeeps(Next(s, steps[0]), steps[1..]);
    }
  }

  lemma {:induction false} TokensOnce(n: nat, x: Token)
    ensures AllTokens(n)[x] == if x < n then 1 else 0
  {
    if n > 0 {
      TokensOnce(n - 1, x);
    }
  }

  /** In every interleaving of the owner with any thieves, whatever stale values its pushes see: no item is taken twice,
      and what has been pushed is exactly what has been taken, is in the owner's hand, or is still queued. */
  lemma EveryItemTakenAtMostOnce(capacity: nat, steps: seq<Step>)
    requires capacity > 0 && Schedule(Init(capacity), steps)
    ensures var s := After(Init(capacity), steps);
            && BoundsOk(s)
            && (forall x: Token :: multiset(s.taken)[x] <= 1)
            && (forall x: Token :: x in s.taken ==> x < s.pushed && x !in Held(s) && x !in Queue(s))
            && (forall x: Token :: x < s.pushed ==> x in s.taken || x in Held(s) || x in Queue(s))
  {
    hide ThievesOk, OwnerOk, Next, Queue, Held, Schedule, After, LogicalBottom;
    InitOk(capacity);
    ScheduleKeeps(Init(capacity), steps);
    var s := After(Init(capacity), steps);
    forall x: Token
      ensures multiset(s.taken)[x] <= 1
      ensures x in s.taken ==> x < s.pushed && x !in Held(s) && x !in Queue(s)
      ensures x < s.pushed ==> x in s.taken || x in Held(s) || x in Queue(s)
    {
      TokensOnce(s.pushed, x);
      assert multiset(Out(s)) == multiset(s.taken) + multiset(Held(s));
      Counted(s.taken, Held(s), Queue(s), AllTokens(s.pushed), x);
    }
  }

  lemma Counted(a: seq<Token>, b: seq<Token>, c: seq<Token>, all: multiset<Token>, x: Token)
    requires multiset(a) + multiset(b) + multiset(c) == all && all[x] <= 1
    ensures multiset(a)[x] <= all[x]
    ensures x in a ==> all[x] == 1 && x !in b && x !in c
    ensures all[x] == 1 ==> x in a || x in b || x in c
  {
    assert multiset(a)[x] + multiset(b)[x] + multiset(c)[x] == all[x];
    assert x in a <==> x in multiset(a);
    assert x in b <==> x in multiset(b);
    assert x in c <==> x in multiset(c);
  }

  /** A push writes only a cell whose previous item is already claimed: none of the cells still queued, and never the
      cell a thief that can still win has read. */
  lemma NothingOverwrittenUnclaimed(capacity: nat, steps: seq<Step>, i: int)
    requires capacity > 0 && Schedule(Init(capacity), steps)
    requires Enabled(After(Init(capacity), steps), PushStore)
    requires var s := After(Init(capacity), steps); s.top <= i < LogicalBottom(s)
    ensures var s := After(Init(capacity), steps);
            s.buffer != [] && Slot(s, i) != Slot(s, s.owner.b)
  {
    hide ThievesOk, Next, Queue, Held, Schedule, After, Conserved;
    InitOk(capacity);
    ScheduleKeeps(Init(capacity), steps);
    var s := After(Init(capacity), steps);
    SlotsApart(|s.buffer|, i, s.owner.b);
  }

  /** A stale capacity check can only refuse: whenever it lets a push through there is room, and when it refuses one
      with a fresh top_ the deque is full. */
  lemma StaleCheckIsSafe(s: Deque, staleTop: int)
    requires Inv(s) && Enabled(s, PushCheck(staleTop))
    ensures Next(s, PushCheck(staleTop)).owner.PushChecked? ==> |Queue(s)| < |s.buffer|
    ensures Next(s, PushCheck(s.top)).owner.Idle? <==> |Queue(s)| == |s.buffer|
  {
  }

  /** A steal gives up on a deque only for a reason: an item it looked at has been claimed since, or there was none, or
      a pop under way has drawn bottom_ back over the only one. */
  lemma StealGivesUpExactly(s: Deque, k: ThiefId)
    requires Inv(s) && Enabled(s, StealReadBottom(k)) && PcOf(s, k).t == s.top
    ensures var s' := Next(s, StealReadBottom(k));
            && (PcOf(s', k).Away? <==> |Queue(s)| <= LogicalBottom(s) - s.bottom)
            && (PcOf(s', k).Away? ==> Queue(s) == [] || (|Queue(s)| == 1 && PopUndecided(s)))
            && (!PcOf(s', k).Away? ==> PcOf(s', k) == SawBottom(s.top))
  {
    hide ThievesOk, Cells, Conserved;
  }

  /** A pop has drawn bottom_ back over a cell and has not yet learnt whether the item is its own. */
  predicate PopUndecided(s: Deque) {
    s.owner.PopPublished? || (s.owner.PopSawTop? && s.owner.b <= s.owner.t) || s.owner.PopRaced?
  }

  lemma FirstStep(s: Deque, step: Step, rest: seq<Step>)
    requires s.buffer != [] && Enabled(s, step) && Schedule(Next(s, step), rest)
    ensures Schedule(s, [step] + rest) && After(s, [step] + rest) == After(Next(s, step), rest)
  {
    hide Next, Enabled;
    assert ([step] + rest)[0] == step && ([step] + rest)[1..] == rest;
  }

  lemma NoSteps(s: Deque)
    requires s.buffer != []
    ensures Schedule(s, []) && After(s, []) == s
  {
  }

  lemma FrontIsTop(s: Deque)
    requires Inv(s) && Queue(s) != []
    ensures s.buffer != [] && s.top < LogicalBottom(s) && Queue(s)[0] == s.buffer[Slot(s, s.top)]
  {
    hide ThievesOk, OwnerOk, Conserved;
  }

  /** Left alone, a thief that finds an item in the deque, and no pop under way, takes the front one. */
  lemma StealGoesThrough(s: Deque, k: ThiefId)
    requires Inv(s) && PcOf(s, k).Away? && Queue(s) != [] && s.bottom == LogicalBottom(s)
    ensures s.buffer != []
    ensures var steps := [StealReadTop(k)] + ([StealReadBottom(k)] + ([StealReadItem(k)] + ([StealRace(k)] + [])));
            && Schedule(s, steps)
            && After(s, steps).taken == s.taken + [Queue(s)[0]]
  {
    hide Inv, Queue, Schedule, After, Slot, LogicalBottom;
    FrontIsTop(s);
    var s1 := Next(s, StealReadTop(k));
    var s2 := Next(s1, StealReadBottom(k));
    var s3 := Next(s2, StealReadItem(k));
    var s4 := Next(s3, StealRace(k));
    SameSlot(s, s2);
    assert s4.taken == s.taken + [s.buffer[Slot(s, s.top)]];
    NoSteps(s4);
    FirstStep(s3, StealRace(k), []);
    FirstStep(s2, StealReadItem(k), [StealRace(k)] + []);
    FirstStep(s1, StealReadBottom(k), [StealReadItem(k)] + ([StealRace(k)] + []));
    FirstStep(s, StealReadTop(k), [StealReadBottom(k)] + ([StealReadItem(k)] + ([StealRace(k)] + [])));
  }

  lemma SameSlot(s: Deque, s': Deque)
    requires s.buffer != [] && s'.buffer == s.buffer
    ensures Slot(s', s.top) == Slot(s, s.top) < |s.buffer|
  {
  }
}
