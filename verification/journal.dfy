/** The command journal as a byte sequence: what the writer appends, how the reader frames it, and what a replay makes
    of it. */
module Journals {
  import opened ExchangeTypes
  import opened MatchingModel
  import opened MatchingInvariants
  import opened MatchingTheorems
  import opened CommandTheorems
  import opened MatchingEngines
  import opened EngineSnapshots
  import opened ByteCodec
  import opened JournalCodec

  // ---------- writing ----------

  predicate AllInRange(frames: seq<Frame>) {
    forall i :: 0 <= i < |frames| ==> InRange(frames[i])
  }

  function EncodeAll(frames: seq<Frame>): Bytes
    requires AllInRange(frames)
  {
    if frames == [] then [] else Encode(frames[0]) + EncodeAll(frames[1..])
  }

  lemma {:induction false} EncodeAllConcat(a: seq<Frame>, b: seq<Frame>)
    requires AllInRange(a) && AllInRange(b)
    ensures AllInRange(a + b) && EncodeAll(a + b) == EncodeAll(a) + EncodeAll(b)
  {
    hide Encode, InRange;
    if a == [] {
      assert a + b == b;
    } else {
      assert (a + b)[1..] == a[1..] + b;
      EncodeAllConcat(a[1..], b);
    }
  }

  function Registrations(universe: seq<InstrumentId>): (frames: seq<Frame>)
    ensures |frames| == |universe| && forall i :: 0 <= i < |universe| ==> frames[i] == RegistrationFrame(universe[i])
  {
    seq(|universe|, i requires 0 <= i < |universe| => RegistrationFrame(universe[i]))
  }

  function Commands(cmds: seq<Command>): (frames: seq<Frame>)
    ensures |frames| == |cmds| && forall i :: 0 <= i < |cmds| ==> frames[i] == CommandFrame(cmds[i])
  {
    seq(|cmds|, i requires 0 <= i < |cmds| => CommandFrame(cmds[i]))
  }

  /** The universe first, then every command in order. */
  function JournalOf(universe: seq<InstrumentId>, cmds: seq<Command>): seq<Frame> {
    Registrations(universe) + Commands(cmds)
  }

  /** A journal being written: the file holds exactly the frames given so far. */
  class JournalWriter {
    var file: Bytes
    ghost var written: seq<Frame>

    ghost predicate Valid()
      reads this
    {
      AllInRange(written) && file == EncodeAll(written)
    }

    constructor (universe: seq<InstrumentId>)
      requires AllInRange(Registrations(universe))
      ensures Valid() && written == Registrations(universe)
    {
      var buffer: Bytes := [];
      for i := 0 to |universe|
        invariant buffer == EncodeAll(Registrations(universe)[..i])
      {
        var bytes := EncodeFrame(RegistrationFrame(universe[i]));
        AppendOne(Registrations(universe), i);
        buffer := buffer + bytes;
      }
      assert Registrations(universe)[..|universe|] == Registrations(universe);
      file := buffer;
      written := Registrations(universe);
    }

    method Write(cmd: Command)
      requires Valid() && InRange(CommandFrame(cmd))
      modifies this
      ensures Valid() && written == old(written) + [CommandFrame(cmd)]
    {
      var bytes := EncodeFrame(CommandFrame(cmd));
      EncodeAllConcat(written, [CommandFrame(cmd)]);
      EncodeOne(CommandFrame(cmd));
      file := file + bytes;
      written := written + [CommandFrame(cmd)];
    }
  }

  lemma EncodeOne(frame: Frame)
    requires InRange(frame)
    ensures AllInRange([frame]) && EncodeAll([frame]) == Encode(frame)
  {
    hide Encode;
    assert [frame][1..] == [];
  }

  lemma AppendOne(frames: seq<Frame>, i: nat)
    requires AllInRange(frames) && i < |frames|
    ensures AllInRange(frames[..i]) && AllInRange(frames[..i + 1])
    ensures EncodeAll(frames[..i + 1]) == EncodeAll(frames[..i]) + Encode(frames[i])
  {
    hide Encode;
    EncodeAllConcat(frames[..i], [frames[i]]);
    EncodeOne(frames[i]);
    assert frames[..i + 1] == frames[..i] + [frames[i]];
  }

  /** encode_command and encode_register_instrument: header, then payload, field by field. */
  method EncodeFrame(frame: Frame) returns (out: Bytes)
    requires InRange(frame)
    ensures out == Encode(frame)
  {
    hide DecodeFields, EncodeFields, PutUint;
    Sizes(TagOf(frame));
    out := PutFields([], HEADER_KINDS, HeaderOf(frame));
    out := PutFields(out, PayloadKinds(TagOf(frame)), PayloadOf(frame));
  }

  method PutFields(buf: Bytes, kinds: seq<Kind>, values: seq<int>) returns (buf': Bytes)
    requires InKinds(kinds, values)
    ensures buf' == buf + EncodeFields(kinds, values)
  {
    hide PutUint, BitsOf;
    buf' := buf;
    for i := 0 to |kinds|
      invariant buf' + EncodeFields(kinds[i..], values[i..]) == buf + EncodeFields(kinds, values)
    {
      buf' := PutBytes(buf', Width(kinds[i]), BitsOf(kinds[i], values[i]));
      assert kinds[i..][1..] == kinds[i + 1..] && values[i..][1..] == values[i + 1..];
    }
    assert kinds[|kinds|..] == [];
  }

  // ---------- reading ----------

  /** What one call of next() finds at the front of the bytes left, and what it leaves. */
  datatype ReadResult =
    | EndOfFile
    | Read(decoded: Decoded, rest: Bytes)

  function ReadNext(s: Bytes): (r: ReadResult)
    ensures r.Read? ==> |r.rest| < |s|
  {
    if s == [] then EndOfFile
    else if |s| < HEADER_SIZE then Read(Bad(TruncatedHeader), [])
    else
      var r := DecodeHeader(s[..HEADER_SIZE]);
      if r.BadHeader? then Read(Bad(r.headerError), s[HEADER_SIZE..])
      else
        var size := HEADER_SIZE + r.header.payloadSize;
        if |s| < size then Read(Bad(TruncatedPayload), [])
        else Read(Decode(s[..size]), s[size..])
  }

  /** Reading at the front of a frame that was written gives that frame and the bytes after it. */
  lemma ReadWritten(frame: Frame, rest: Bytes)
    requires InRange(frame)
    ensures ReadNext(Encode(frame) + rest) == Read(Good(frame), rest)
  {
    hide DecodeHeader, Decode;
    var s, bytes := Encode(frame) + rest, Encode(frame);
    assert s[..HEADER_SIZE] == bytes[..HEADER_SIZE] == bytes[..HEADER_SIZE] + [];
    HeaderAtFront(frame);
    DecodeEncode(frame, []);
    assert bytes + [] == bytes && s[..|bytes|] == bytes && s[|bytes|..] == rest;
  }

  lemma HeaderAtFront(frame: Frame)
    requires InRange(frame)
    ensures DecodeHeader(Encode(frame)[..HEADER_SIZE])
              == GoodHeader(Header(TagOf(frame), PayloadSize(TagOf(frame)), SequenceOf(frame)))
  {
    hide DecodeFields, EncodeFields;
    HeaderRoundTrip(frame, []);
    assert Encode(frame) + [] == Encode(frame);
    assert Encode(frame)[..HEADER_SIZE][..HEADER_SIZE] == Encode(frame)[..HEADER_SIZE];
  }

  class JournalReader {
    const file: Bytes
    var pos: nat

    ghost predicate Valid()
      reads this
    {
      pos <= |file|
    }

    ghost function Rest(): Bytes
      requires Valid()
      reads this
    {
      file[pos..]
    }

    constructor (file: Bytes)
      ensures Valid() && Rest() == file
    {
      this.file, pos := file, 0;
    }

    /** None at a clean end of file. */
    method Next() returns (frame: Option<Decoded>)
      requires Valid()
      modifies this
      ensures Valid()
      ensures frame == match ReadNext(old(Rest())) { case EndOfFile => None case Read(decoded, _) => Some(decoded) }
      ensures Rest() == match ReadNext(old(Rest())) { case EndOfFile => [] case Read(_, rest) => rest }
    {
      hide DecodeHeader, Decode;
      var left := |file| - pos;
      if left == 0 {
        return None;
      }
      if left < HEADER_SIZE {
        pos := |file|;
        return Some(Bad(TruncatedHeader));
      }
      var buffer := file[pos..pos + HEADER_SIZE];
      assert buffer == Rest()[..HEADER_SIZE];
      var header := DecodeHeader(buffer);
      if header.BadHeader? {
        pos := pos + HEADER_SIZE;
        return Some(Bad(header.headerError));
      }
      var size := HEADER_SIZE + header.header.payloadSize;
      if left < size {
        pos := |file|;
        return Some(Bad(TruncatedPayload));
      }
      buffer := file[pos..pos + size];
      assert buffer == Rest()[..size];
      pos := pos + size;
      frame := Some(Decode(buffer));
    }
  }

  // ---------- replay ----------

  datatype Replay = Replay(state: EngineState, events: seq<Event>, commands: nat, registered: nat, stoppedEarly: bool)

  /** What a replay makes of the bytes, starting from an engine that already stands at `st`. */
  ghost function ReplayFrom(st: EngineState, s: Bytes, stopOnError: bool): (r: Replay)
    requires WellFormed(st)
    ensures WellFormed(r.state)
    decreases |s|
  {
    match ReadNext(s)
    case EndOfFile => Replay(st, [], 0, 0, false)
    case Read(Bad(_), rest) => if stopOnError then Replay(st, [], 0, 0, true) else ReplayFrom(st, rest, stopOnError)
    case Read(Good(RegistrationFrame(id)), rest) =>
      RegisterKeeps(st, id);
      var r := ReplayFrom(Register(st, id), rest, stopOnError);
      r.(registered := r.registered + if id > MAX_INSTRUMENT_ID || st.Knows(id) then 0 else 1)
    case Read(Good(CommandFrame(cmd)), rest) =>
      ProcessKeeps(st, cmd);
      var one := Process(st, cmd);
      var r := ReplayFrom(one.state, rest, stopOnError);
      r.(events := one.events + r.events, commands := r.commands + 1)
  }

  lemma InitialOk()
    ensures WellFormed(INITIAL_STATE) && DirectoryComplete(INITIAL_STATE)
  {
    EmptyStateWellFormed(INITIAL_STATE);
  }

  lemma {:induction false} RegisterAllKeeps(st: EngineState, universe: seq<InstrumentId>)
    requires WellFormed(st)
    ensures WellFormed(RegisterAll(st, universe))
    decreases |universe|
  {
    hide WellFormed, DirectoryComplete, Register;
    if universe != [] {
      RegisterKeeps(st, universe[0]);
      RegisterAllKeeps(Register(st, universe[0]), universe[1..]);
    }
  }

  /** Replaying the commands of a journal is running them. */
  lemma {:induction false} ReplayCommands(st: EngineState, cmds: seq<Command>, stopOnError: bool)
    requires WellFormed(st) && AllInRange(Commands(cmds))
    ensures var r := ReplayFrom(st, EncodeAll(Commands(cmds)), stopOnError); var run := Run(st, cmds);
            r.state == run.state && r.events == run.events && r.commands == |cmds| && !r.stoppedEarly
    decreases |cmds|
  {
    hide WellFormed, Process, Encode, InRange, ReadNext;
    var frames := Commands(cmds);
    if cmds == [] {
      EndOfReplay(st, stopOnError);
    } else {
      assert frames[1..] == Commands(cmds[1..]);
      ReadWritten(frames[0], EncodeAll(frames[1..]));
      ProcessKeeps(st, cmds[0]);
      ReplayCommands(Process(st, cmds[0]).state, cmds[1..], stopOnError);
    }
  }

  lemma EndOfReplay(st: EngineState, stopOnError: bool)
    requires WellFormed(st)
    ensures ReplayFrom(st, [], stopOnError) == Replay(st, [], 0, 0, false)
  {
  }

  /** Replaying the bytes written for a universe and any commands reproduces the run: the same events, and the state an
      engine built with that universe ends in. */
  lemma {:induction false} ReplayReproduces(st: EngineState, universe: seq<InstrumentId>, cmds: seq<Command>,
                                            stopOnError: bool)
    requires WellFormed(st) && AllInRange(JournalOf(universe, cmds))
    ensures WellFormed(RegisterAll(st, universe))
    ensures var r := ReplayFrom(st, EncodeAll(JournalOf(universe, cmds)), stopOnError);
            var run := Run(RegisterAll(st, universe), cmds);
            r.state == run.state && r.events == run.events && r.commands == |cmds| && !r.stoppedEarly
    decreases |universe|
  {
    hide WellFormed, Process, Encode, InRange, ReadNext, Run, Register;
    RegisterAllKeeps(st, universe);
    var frames := JournalOf(universe, cmds);
    if universe == [] {
      assert frames == Commands(cmds);
      ReplayCommands(st, cmds, stopOnError);
    } else {
      assert frames[1..] == JournalOf(universe[1..], cmds);
      ReadWritten(frames[0], EncodeAll(frames[1..]));
      RegisterKeeps(st, universe[0]);
      ReplayReproduces(Register(st, universe[0]), universe[1..], cmds, stopOnError);
    }
  }

  /** Counts and flags of a replay still to come, added to what is already done. */
  ghost function Resumed(events: seq<Event>, commands: nat, registered: nat, r: Replay): Replay {
    r.(events := events + r.events, commands := commands + r.commands, registered := registered + r.registered)
  }

  lemma ReplaySkips(st: EngineState, s: Bytes, stopOnError: bool)
    requires WellFormed(st) && ReadNext(s).Read? && ReadNext(s).decoded.Bad?
    ensures ReplayFrom(st, s, stopOnError)
              == if stopOnError then Replay(st, [], 0, 0, true) else ReplayFrom(st, ReadNext(s).rest, stopOnError)
  {
    hide WellFormed, Process, Register, ReadNext;
  }

  lemma ReplayRegisters(st: EngineState, s: Bytes, stopOnError: bool, id: InstrumentId)
    requires WellFormed(st) && ReadNext(s).Read? && ReadNext(s).decoded == Good(RegistrationFrame(id))
    ensures WellFormed(Register(st, id))
    ensures ReplayFrom(st, s, stopOnError)
              == Resumed([], 0, if id > MAX_INSTRUMENT_ID || st.Knows(id) then 0 else 1,
                         ReplayFrom(Register(st, id), ReadNext(s).rest, stopOnError))
  {
    hide WellFormed, Process, Register, ReadNext;
    RegisterKeeps(st, id);
    var r := ReplayFrom(Register(st, id), ReadNext(s).rest, stopOnError);
    assert [] + r.events == r.events;
  }

  lemma ReplayRuns(st: EngineState, s: Bytes, stopOnError: bool, cmd: Command)
    requires WellFormed(st) && ReadNext(s).Read? && ReadNext(s).decoded == Good(CommandFrame(cmd))
    ensures Locates(st) && WellFormed(Process(st, cmd).state)
    ensures ReplayFrom(st, s, stopOnError)
              == Resumed(Process(st, cmd).events, 1, 0,
                         ReplayFrom(Process(st, cmd).state, ReadNext(s).rest, stopOnError))
  {
    hide WellFormed, Process, Register, ReadNext;
    ProcessKeeps(st, cmd);
  }

  lemma ResumedTwice(a: seq<Event>, b: seq<Event>, c: nat, c': nat, n: nat, n': nat, r: Replay)
    ensures Resumed(a, c, n, Resumed(b, c', n', r)) == Resumed(a + b, c + c', n + n', r)
  {
    assert a + (b + r.events) == a + b + r.events;
  }

  lemma ResumedEnd(events: seq<Event>, c: nat, n: nat, st: EngineState, stopped: bool)
    ensures Resumed(events, c, n, Replay(st, [], 0, 0, stopped)) == Replay(st, events, c, n, stopped)
  {
    assert events + [] == events;
  }

  /** Reads the journal end to end, or to the first undecodable frame, into an engine that starts with no
      instruments. */
  method RunCommandReplay(journal: Bytes, stopOnError: bool)
    returns (engine: MatchingEngine, events: seq<Event>, commands: nat, registered: nat, stoppedEarly: bool)
    ensures engine.Valid() && fresh(engine.Repr)
    ensures WellFormed(INITIAL_STATE)
    ensures Replay(engine.State, events, commands, registered, stoppedEarly)
              == ReplayFrom(INITIAL_STATE, journal, stopOnError)
  {
    hide WellFormed, Process, Register, ReadNext, ReplayFrom, Resumed, Decode, DecodeHeader, Locates, EncodeAll,
         MatchingEngine.Synced, MatchingEngine.ByIdOk;
    InitialOk();
    engine := new MatchingEngine([]);
    var reader := new JournalReader(journal);
    events, commands, registered, stoppedEarly := [], 0, 0, false;
    ResumedNothing(ReplayFrom(engine.State, journal, stopOnError));
    while true
      invariant engine.Valid() && fresh(engine.Repr) && reader.Valid() && fresh(reader) && reader !in engine.Repr
      invariant Resumed(events, commands, registered, ReplayFrom(engine.State, reader.Rest(), stopOnError))
                  == ReplayFrom(INITIAL_STATE, journal, stopOnError)
      decreases |reader.Rest()|
    {
      ghost var before, st := reader.Rest(), engine.State;
      ReadShrinks(before);
      var frame := reader.Next();
      if frame.None? {
        ReplayEnds(st, before, stopOnError);
        ResumedEnd(events, commands, registered, st, false);
        return;
      }
      match frame.value {
        case Bad(_) =>
          ReplaySkips(st, before, stopOnError);
          if stopOnError {
            stoppedEarly := true;
            ResumedEnd(events, commands, registered, st, true);
            return;
          }
        case Good(RegistrationFrame(id)) =>
          ReplayRegisters(st, before, stopOnError, id);
          var added := engine.RegisterInstrument(id);
          ResumedTwice(events, [], commands, 0, registered, if added then 1 else 0,
                       ReplayFrom(engine.State, reader.Rest(), stopOnError));
          assert events + [] == events;
          if added {
            registered := registered + 1;
          }
        case Good(CommandFrame(cmd)) =>
          ReplayRuns(st, before, stopOnError, cmd);
          var emitted := engine.Handle(cmd);
          ResumedTwice(events, emitted, commands, 1, registered, 0,
                       ReplayFrom(engine.State, reader.Rest(), stopOnError));
          events := events + emitted;
          commands := commands + 1;
      }
    }
  }

  lemma ResumedNothing(r: Replay)
    ensures Resumed([], 0, 0, r) == r
  {
    assert [] + r.events == r.events;
  }

  lemma ReadShrinks(s: Bytes)
    ensures ReadNext(s).EndOfFile? <==> s == []
    ensures ReadNext(s).Read? ==> |ReadNext(s).rest| < |s|
  {
  }

  lemma ReplayEnds(st: EngineState, s: Bytes, stopOnError: bool)
    requires WellFormed(st) && ReadNext(s).EndOfFile?
    ensures ReplayFrom(st, s, stopOnError) == Replay(st, [], 0, 0, false)
  {
  }

  /** The journal written for a universe and a list of commands, replayed, gives the event list and the snapshot of an
      engine constructed with that universe and given those commands, whatever ladder bands either engine chose. */
  lemma ReplayedSnapshotAgrees(universe: seq<InstrumentId>, cmds: seq<Command>, stopOnError: bool,
                               direct: seq<InstrumentBook>, replayed: seq<InstrumentBook>)
    requires AllInRange(JournalOf(universe, cmds))
    requires WellFormed(INITIAL_STATE) && WellFormed(RegisterAll(INITIAL_STATE, universe))
    requires IsSnapshot(Run(RegisterAll(INITIAL_STATE, universe), cmds).state, direct)
    requires IsSnapshot(ReplayFrom(INITIAL_STATE, EncodeAll(JournalOf(universe, cmds)), stopOnError).state, replayed)
    ensures direct == replayed
    ensures ReplayFrom(INITIAL_STATE, EncodeAll(JournalOf(universe, cmds)), stopOnError).events
              == Run(RegisterAll(INITIAL_STATE, universe), cmds).events
  {
    hide WellFormed, Run, ReplayFrom, EncodeAll, InRange, RegisterAll, IsSnapshot;
    ReplayReproduces(INITIAL_STATE, universe, cmds, stopOnError);
    var st := Run(RegisterAll(INITIAL_STATE, universe), cmds).state;
    SnapshotUnique(st, st, direct, replayed);
  }
}
