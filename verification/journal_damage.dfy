/** Replaying a journal that was cut short by a crash, or has a frame spoiled in the middle. */
module JournalDamage {
  import opened ExchangeTypes
  import opened MatchingModel
  import opened MatchingInvariants
  import opened MatchingTheorems
  import opened CommandTheorems
  import opened MatchingEngines
  import opened ByteCodec
  import opened JournalCodec
  import opened Journals

  /** Whatever follows them, the frames of a universe and of some commands replay to the run of those commands. */
  lemma {:induction false} CommandsThen(st: EngineState, cmds: seq<Command>, tail: Bytes, stopOnError: bool)
    requires WellFormed(st) && AllInRange(Commands(cmds))
    ensures var run := Run(st, cmds);
            ReplayFrom(st, EncodeAll(Commands(cmds)) + tail, stopOnError)
              == Resumed(run.events, |cmds|, 0, ReplayFrom(run.state, tail, stopOnError))
    decreases |cmds|
  {
    hide WellFormed, Process, Encode, InRange, ReadNext, ReplayFrom, Locates;
    var frames := Commands(cmds);
    if cmds == [] {
      assert [] + tail == tail;
      ResumedNothing(ReplayFrom(st, tail, stopOnError));
    } else {
      var rest := EncodeAll(frames[1..]) + tail;
      assert frames[1..] == Commands(cmds[1..]);
      assert EncodeAll(frames) + tail == Encode(frames[0]) + rest;
      ReadWritten(frames[0], rest);
      ReplayRuns(st, EncodeAll(frames) + tail, stopOnError, cmds[0]);
      var one := Process(st, cmds[0]);
      CommandsThen(one.state, cmds[1..], tail, stopOnError);
      var run := Run(one.state, cmds[1..]);
      ResumedTwice(one.events, run.events, 1, |cmds| - 1, 0, 0, ReplayFrom(run.state, tail, stopOnError));
    }
  }

  lemma {:induction false} JournalThen(st: EngineState, universe: seq<InstrumentId>, cmds: seq<Command>, tail: Bytes,
                                       stopOnError: bool)
    requires WellFormed(st) && AllInRange(JournalOf(universe, cmds))
    ensures WellFormed(RegisterAll(st, universe)) && |st.books| <= |RegisterAll(st, universe).books|
    ensures var open := RegisterAll(st, universe); var run := Run(open, cmds);
            ReplayFrom(st, EncodeAll(JournalOf(universe, cmds)) + tail, stopOnError)
              == Resumed(run.events, |cmds|, |open.books| - |st.books|, ReplayFrom(run.state, tail, stopOnError))
    decreases |universe|
  {
    hide WellFormed, Process, Encode, InRange, ReadNext, Run, Register, ReplayFrom;
    RegisterAllKeeps(st, universe);
    var frames := JournalOf(universe, cmds);
    if universe == [] {
      assert frames == Commands(cmds);
      CommandsThen(st, cmds, tail, stopOnError);
    } else {
      var rest := EncodeAll(frames[1..]) + tail;
      assert frames[1..] == JournalOf(universe[1..], cmds);
      assert EncodeAll(frames) + tail == Encode(frames[0]) + rest;
      ReadWritten(frames[0], rest);
      ReplayRegisters(st, EncodeAll(frames) + tail, stopOnError, universe[0]);
      RegisterCounts(st, universe[0]);
      JournalThen(Register(st, universe[0]), universe[1..], cmds, tail, stopOnError);
      var run := Run(RegisterAll(st, universe), cmds);
      ResumedTwice([], run.events, 0, |cmds|, |Register(st, universe[0]).books| - |st.books|,
                   |RegisterAll(st, universe).books| - |Register(st, universe[0]).books|,
                   ReplayFrom(run.state, tail, stopOnError));
      assert [] + run.events == run.events;
    }
  }

  lemma RegisterCounts(st: EngineState, id: InstrumentId)
    ensures |Register(st, id).books| == |st.books| + if id > MAX_INSTRUMENT_ID || st.Knows(id) then 0 else 1
  {
  }

  // ---------- a torn tail ----------

  /** A frame of which only the first bytes were written cannot be mistaken for anything. */
  lemma TornFrame(frame: Frame, n: nat)
    requires InRange(frame) && 0 < n < |Encode(frame)|
    ensures ReadNext(Encode(frame)[..n])
              == Read(Bad(if n < HEADER_SIZE then TruncatedHeader else TruncatedPayload), [])
  {
    hide DecodeHeader, Decode, InRange;
    var s, bytes := Encode(frame)[..n], Encode(frame);
    HeaderAtFront(frame);
    assert n >= HEADER_SIZE ==> s[..HEADER_SIZE] == bytes[..HEADER_SIZE];
  }

  /** A journal whose last write was cut short replays to the run of all the commands written whole, and says it
      stopped early if it was to stop at errors. */
  lemma TornJournal(universe: seq<InstrumentId>, cmds: seq<Command>, last: Command, n: nat, stopOnError: bool)
    requires AllInRange(JournalOf(universe, cmds)) && InRange(CommandFrame(last))
    requires 0 < n < |Encode(CommandFrame(last))|
    ensures WellFormed(INITIAL_STATE) && WellFormed(RegisterAll(INITIAL_STATE, universe))
    ensures var open := RegisterAll(INITIAL_STATE, universe); var run := Run(open, cmds);
            ReplayFrom(INITIAL_STATE, EncodeAll(JournalOf(universe, cmds)) + Encode(CommandFrame(last))[..n], stopOnError)
              == Replay(run.state, run.events, |cmds|, |open.books|, stopOnError)
  {
    hide WellFormed, Run, ReplayFrom, EncodeAll, InRange, RegisterAll, ReadNext, Encode;
    InitialOk();
    var tail := Encode(CommandFrame(last))[..n];
    JournalThen(INITIAL_STATE, universe, cmds, tail, stopOnError);
    TornFrame(CommandFrame(last), n);
    var open := RegisterAll(INITIAL_STATE, universe);
    var run := Run(open, cmds);
    ReplaySkips(run.state, tail, stopOnError);
    EndOfReplay(run.state, stopOnError);
    ResumedEnd(run.events, |cmds|, |open.books|, run.state, stopOnError);
  }

  // ---------- a spoiled frame ----------

  /** A frame as long as its header says, that does not decode. */
  predicate Spoiled(bytes: Bytes) {
    && DecodeHeader(bytes).GoodHeader?
    && |bytes| == HEADER_SIZE + DecodeHeader(bytes).header.payloadSize
    && Decode(bytes).Bad?
  }

  lemma HeaderIsLocal(bytes: Bytes)
    requires |bytes| >= HEADER_SIZE
    ensures DecodeHeader(bytes[..HEADER_SIZE]) == DecodeHeader(bytes)
  {
    assert bytes[..HEADER_SIZE][..HEADER_SIZE] == bytes[..HEADER_SIZE];
  }

  lemma SpoiledReads(bytes: Bytes, rest: Bytes)
    requires Spoiled(bytes)
    ensures ReadNext(bytes + rest).Read? && ReadNext(bytes + rest).decoded.Bad? && ReadNext(bytes + rest).rest == rest
  {
    hide DecodeHeader, Decode;
    HeaderIsLocal(bytes);
    var s := bytes + rest;
    assert s[..HEADER_SIZE] == bytes[..HEADER_SIZE] && s[..|bytes|] == bytes && s[|bytes|..] == rest;
  }

  /** A spoiled frame between commands costs only itself when errors are skipped, and ends the replay where it stands
      when they are not. */
  lemma SpoiledJournal(universe: seq<InstrumentId>, before: seq<Command>, bytes: Bytes, after: seq<Command>,
                       stopOnError: bool)
    requires AllInRange(JournalOf(universe, before)) && Spoiled(bytes) && AllInRange(Commands(after))
    ensures WellFormed(INITIAL_STATE) && WellFormed(RegisterAll(INITIAL_STATE, universe))
    ensures var open := RegisterAll(INITIAL_STATE, universe); var cmds := if stopOnError then before else before + after;
            var run := Run(open, cmds);
            ReplayFrom(INITIAL_STATE, EncodeAll(JournalOf(universe, before)) + (bytes + EncodeAll(Commands(after))),
                       stopOnError)
              == Replay(run.state, run.events, |cmds|, |open.books|, stopOnError)
  {
    hide WellFormed, Run, ReplayFrom, EncodeAll, InRange, RegisterAll, ReadNext, Encode, Spoiled;
    InitialOk();
    var rest := EncodeAll(Commands(after));
    JournalThen(INITIAL_STATE, universe, before, bytes + rest, stopOnError);
    SpoiledReads(bytes, rest);
    var open := RegisterAll(INITIAL_STATE, universe);
    var run := Run(open, before);
    ReplaySkips(run.state, bytes + rest, stopOnError);
    if stopOnError {
      ResumedEnd(run.events, |before|, |open.books|, run.state, stopOnError);
    } else {
      CommandsThen(run.state, after, [], stopOnError);
      assert rest + [] == rest;
      var more := Run(run.state, after);
      EndOfReplay(more.state, stopOnError);
      ResumedEnd(more.events, |after|, 0, more.state, stopOnError);
      ResumedEnd(run.events + more.events, |before| + |after|, |open.books|, more.state, stopOnError);
      RunConcat(open, before, after);
    }
  }

  /** Running two lists of commands one after the other is running the whole list. */
  lemma {:induction false} RunConcat(st: EngineState, a: seq<Command>, b: seq<Command>)
    requires WellFormed(st)
    ensures var first := Run(st, a); var second := Run(first.state, b);
            Run(st, a + b) == StepResult(second.state, first.events + second.events)
    decreases |a|
  {
    hide WellFormed, Process, Locates;
    if a == [] {
      assert a + b == b;
      var second := Run(st, b);
      assert [] + second.events == second.events;
    } else {
      assert (a + b)[0] == a[0] && (a + b)[1..] == a[1..] + b;
      ProcessKeeps(st, a[0]);
      var one := Process(st, a[0]);
      RunConcat(one.state, a[1..], b);
      var rest := Run(one.state, a[1..]);
      var second := Run(rest.state, b);
      assert one.events + (rest.events + second.events) == one.events + rest.events + second.events;
    }
  }
}
