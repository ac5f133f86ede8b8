// What the controller keeps when the GPIO works, whatever the mix of callers.
module RelayBoardFacts {
  import opened Common
  import opened GpioPort
  import opened RelayBoard

  // All four pins mirror the flags, red and buzzer their source sets, and the security
  // source is held on both or neither.
  ghost predicate Mirrored(w: Wiring, b: Board) {
    && b.enabled
    && Working(b.port)
    && b.redOn == (b.red != {}) && b.buzzerOn == (b.buzzer != {})
    && PinActive(w, b, w.red) == b.redOn
    && PinActive(w, b, w.buzzer) == b.buzzerOn
    && PinActive(w, b, w.locker) == b.unlocked
    && PinActive(w, b, w.green) == b.greenOn
    && (SECURITY in b.red <==> SECURITY in b.buzzer)
  }

  // Every way the controller's callers reach the shared outputs.
  datatype Op =
    | Security(active: bool)
    | Red(on: bool)
    | Buzzer(on: bool)
    | Alert(source: string, on: bool)
    | ClearAlert(source: string)
    | Force
    | Read
    | Locker(open: bool)
    | Green(on: bool)

  function Applied(w: Wiring, b: Board, op: Op): Outcome {
    match op
    case Security(active) => SecuritySet(w, b, active)
    case Red(on) => RedSourceSet(w, b, "manual", on)
    case Buzzer(on) => BuzzerSourceSet(w, b, "manual", on)
    case Alert(source, on) => AlertSet(w, b, source, on)
    case ClearAlert(source) => AlertCleared(w, b, source)
    case Force => Outcome(ForcedOff(w, b), false)
    case Read => Outcome(RelaysRead(w, b).0, false)
    case Locker(open) => LockerSet(w, b, open)
    case Green(on) => GreenSet(w, b, on)
  }

  function AppliedAll(w: Wiring, b: Board, ops: seq<Op>): Board
    decreases |ops|
  {
    if ops == [] then b else AppliedAll(w, Applied(w, b, ops[0]).board, ops[1..])
  }

  // How one call changes who holds red (or the buzzer), leaving the security event aside.
  function HoldersStep(held: set<string>, op: Op, red: bool): set<string> {
    match op
    case Red(on) => if red then Toggle(held, "manual", on) else held
    case Buzzer(on) => if red then held else Toggle(held, "manual", on)
    case Alert(source, on) => Toggle(held, source, on)
    case ClearAlert(source) => held - {source}
    case _ => held
  }

  function OthersAfter(held: set<string>, ops: seq<Op>, red: bool): set<string>
    decreases |ops|
  {
    if ops == [] then held - {SECURITY} else OthersAfter(HoldersStep(held, ops[0], red), ops[1..], red)
  }

  lemma {:induction false} OthersIgnoreSecurity(one: set<string>, two: set<string>, ops: seq<Op>, red: bool)
    requires one - {SECURITY} == two - {SECURITY}
    ensures OthersAfter(one, ops, red) == OthersAfter(two, ops, red)
    decreases |ops|
  {
    if ops != [] {
      var a, b := HoldersStep(one, ops[0], red), HoldersStep(two, ops[0], red);
      assert forall s :: s != SECURITY ==> (s in one <==> s in one - {SECURITY});
      assert forall s :: s != SECURITY ==> (s in two <==> s in two - {SECURITY});
      assert a - {SECURITY} == b - {SECURITY};
      OthersIgnoreSecurity(a, b, ops[1..], red);
    }
  }

  lemma WorkingWrite(w: Wiring, b: Board, pin: int, active: bool)
    requires b.enabled && Working(b.port)
    ensures var o := PinWritten(w, b, pin, active);
            && !o.raised
            && Working(o.board.port)
            && o.board == b.(port := o.board.port)
            && o.board.port.levels == b.port.levels[pin := w.LevelFor(active)]
  {
    var (sent, raised) := Output(b.port, pin, w.LevelFor(active));
    assert Working(sent) && !raised;
    var (read, seen) := Input(sent, pin);
    assert Working(read) && seen == Some(w.LevelFor(active));
  }

  lemma WorkingReadout(w: Wiring, b: Board)
    requires b.enabled && FaithfulReads(b.port)
    ensures var (c, on) := RelaysRead(w, b);
            && FaithfulReads(c.port) && (Working(b.port) ==> Working(c.port))
            && c == b.(port := c.port) && c.port.levels == b.port.levels
            && on == (PinActive(w, b, w.red) || PinActive(w, b, w.buzzer))
  {
    var (p1, red) := Input(b.port, w.red);
    assert FaithfulReads(p1);
    var (p2, buzzer) := Input(p1, w.buzzer);
    assert FaithfulReads(p2);
  }

  lemma WorkingRed(w: Wiring, b: Board)
    requires b.enabled && Working(b.port) && PinActive(w, b, w.red) == b.redOn
    ensures var o := RedApplied(w, b);
            && !o.raised && Working(o.board.port)
            && o.board == b.(redOn := b.red != {}, port := o.board.port)
            && PinActive(w, o.board, w.red) == (b.red != {})
            && forall pin :: pin != w.red ==> LevelOf(o.board.port, pin) == LevelOf(b.port, pin)
  {
    WorkingWrite(w, b.(redOn := b.red != {}), w.red, b.red != {});
  }

  lemma WorkingBuzzer(w: Wiring, b: Board)
    requires b.enabled && Working(b.port) && PinActive(w, b, w.buzzer) == b.buzzerOn
    ensures var o := BuzzerApplied(w, b);
            && !o.raised && Working(o.board.port)
            && o.board == b.(buzzerOn := b.buzzer != {}, port := o.board.port)
            && PinActive(w, o.board, w.buzzer) == (b.buzzer != {})
            && forall pin :: pin != w.buzzer ==> LevelOf(o.board.port, pin) == LevelOf(b.port, pin)
  {
    WorkingWrite(w, b.(buzzerOn := b.buzzer != {}), w.buzzer, b.buzzer != {});
  }

  // Red and buzzer driven to their sources; no other pin moves.
  lemma WorkingApply(w: Wiring, b: Board)
    requires b.enabled && Working(b.port)
    requires w.Distinct()
    requires PinActive(w, b, w.red) == b.redOn && PinActive(w, b, w.buzzer) == b.buzzerOn
    ensures var o := BothApplied(w, b);
            && !o.raised
            && Working(o.board.port)
            && o.board == b.(redOn := b.red != {}, buzzerOn := b.buzzer != {}, port := o.board.port)
            && PinActive(w, o.board, w.red) == (b.red != {})
            && PinActive(w, o.board, w.buzzer) == (b.buzzer != {})
            && forall pin :: pin != w.red && pin != w.buzzer ==> LevelOf(o.board.port, pin) == LevelOf(b.port, pin)
  {
    hide PinWritten;
    WorkingRed(w, b);
    WorkingBuzzer(w, RedApplied(w, b).board);
  }

  ghost predicate OthersUntouched(w: Wiring, b: Board, c: Board) {
    && c.greenOn == b.greenOn && c.unlocked == b.unlocked
    && LevelOf(c.port, w.locker) == LevelOf(b.port, w.locker)
    && LevelOf(c.port, w.green) == LevelOf(b.port, w.green)
  }

  // The outcome of one call: nothing raised, outputs mirror the given holders.
  ghost predicate Drives(w: Wiring, o: Outcome, red: set<string>, buzzer: set<string>) {
    !o.raised && Mirrored(w, o.board) && o.board.red == red && o.board.buzzer == buzzer
  }

  lemma BothDriven(w: Wiring, b: Board, red: set<string>, buzzer: set<string>)
    requires w.Distinct() && Mirrored(w, b)
    requires SECURITY in red <==> SECURITY in buzzer
    ensures var o := BothApplied(w, b.(red := red, buzzer := buzzer));
            Drives(w, o, red, buzzer) && OthersUntouched(w, b, o.board)
  {
    hide RedApplied, BuzzerApplied;
    WorkingApply(w, b.(red := red, buzzer := buzzer));
  }

  // Writing off what nobody holds finds it off already.
  lemma EmptyDriven(w: Wiring, b: Board)
    requires w.Distinct() && Mirrored(w, b)
    ensures var c := EmptyWrittenOff(w, b);
            Drives(w, Outcome(c, false), b.red, b.buzzer) && OthersUntouched(w, b, c)
  {
    hide PinWritten;
    WorkingWrite(w, b.(redOn := false), w.red, false);
    var c := if b.red == {} then PinWritten(w, b.(redOn := false), w.red, false).board else b;
    WorkingWrite(w, c.(buzzerOn := false), w.buzzer, false);
  }

  // The direct force path ends with both outputs mirroring what is left.
  lemma WorkingForce(w: Wiring, b: Board)
    requires w.Distinct() && Mirrored(w, b)
    ensures var c := ForcedOff(w, b);
            Drives(w, Outcome(c, false), b.red - {SECURITY}, b.buzzer - {SECURITY}) && OthersUntouched(w, b, c)
  {
    hide BothApplied, EmptyWrittenOff;
    var red, buzzer := b.red - {SECURITY}, b.buzzer - {SECURITY};
    BothDriven(w, b, red, buzzer);
    EmptyDriven(w, BothApplied(w, b.(red := red, buzzer := buzzer)).board);
  }

  lemma RedDriven(w: Wiring, b: Board, on: bool)
    requires w.Distinct() && Mirrored(w, b)
    ensures var o := RedSourceSet(w, b, "manual", on);
            Drives(w, o, Toggle(b.red, "manual", on), b.buzzer) && OthersUntouched(w, b, o.board)
  {
    hide RedApplied, BuzzerApplied;
    WorkingRed(w, b.(red := Toggle(b.red, "manual", on)));
  }

  lemma BuzzerDriven(w: Wiring, b: Board, on: bool)
    requires w.Distinct() && Mirrored(w, b)
    ensures var o := BuzzerSourceSet(w, b, "manual", on);
            Drives(w, o, b.red, Toggle(b.buzzer, "manual", on)) && OthersUntouched(w, b, o.board)
  {
    hide RedApplied, BuzzerApplied;
    WorkingBuzzer(w, b.(buzzer := Toggle(b.buzzer, "manual", on)));
  }

  lemma AlertDriven(w: Wiring, b: Board, source: string, on: bool)
    requires w.Distinct() && Mirrored(w, b)
    ensures var o := AlertSet(w, b, source, on);
            Drives(w, o, Toggle(b.red, source, on), Toggle(b.buzzer, source, on)) && OthersUntouched(w, b, o.board)
  {
    hide RedApplied, BuzzerApplied;
    WorkingRed(w, b.(red := Toggle(b.red, source, on)));
    var half := RedSourceSet(w, b, source, on).board;
    WorkingBuzzer(w, half.(buzzer := Toggle(b.buzzer, source, on)));
  }

  lemma LockerDriven(w: Wiring, b: Board, open: bool)
    requires w.Distinct() && Mirrored(w, b)
    ensures var o := LockerSet(w, b, open);
            Drives(w, o, b.red, b.buzzer) && o.board.unlocked == open && o.board.greenOn == b.greenOn
  {
    hide PinWritten;
    WorkingWrite(w, b.(unlocked := open), w.locker, open);
  }

  lemma GreenDriven(w: Wiring, b: Board, on: bool)
    requires w.Distinct() && Mirrored(w, b)
    ensures var o := GreenSet(w, b, on);
            Drives(w, o, b.red, b.buzzer) && o.board.greenOn == on && o.board.unlocked == b.unlocked
  {
    hide PinWritten;
    WorkingWrite(w, b.(greenOn := on), w.green, on);
  }

  lemma ReadDriven(w: Wiring, b: Board)
    requires Mirrored(w, b)
    ensures var c := RelaysRead(w, b).0;
            Drives(w, Outcome(c, false), b.red, b.buzzer) && OthersUntouched(w, b, c)
  {
    hide RelaysRead;
    WorkingReadout(w, b);
  }

  ghost predicate OpKept(w: Wiring, b: Board, op: Op, o: Outcome) {
    && !o.raised
    && Mirrored(w, o.board)
    && o.board.red - {SECURITY} == HoldersStep(b.red, op, true) - {SECURITY}
    && o.board.buzzer - {SECURITY} == HoldersStep(b.buzzer, op, false) - {SECURITY}
    && o.board.unlocked == (if op.Locker? then op.open else b.unlocked)
    && o.board.greenOn == (if op.Green? then op.on else b.greenOn)
  }

  lemma OpKeepsMirrored(w: Wiring, b: Board, op: Op)
    requires w.Distinct() && Mirrored(w, b)
    ensures OpKept(w, b, op, Applied(w, b, op))
  {
    hide BothApplied, RedSourceSet, BuzzerSourceSet, AlertSet, ForcedOff, RelaysRead, LockerSet, GreenSet;
    hide LevelOf, Working;
    match op
    case Security(active) => BothDriven(w, b, Toggle(b.red, SECURITY, active), Toggle(b.buzzer, SECURITY, active));
    case Red(on) => RedDriven(w, b, on);
    case Buzzer(on) => BuzzerDriven(w, b, on);
    case Alert(source, on) => AlertDriven(w, b, source, on);
    case ClearAlert(source) => BothDriven(w, b, b.red - {source}, b.buzzer - {source});
    case Force => WorkingForce(w, b);
    case Read => ReadDriven(w, b);
    case Locker(open) => LockerDriven(w, b, open);
    case Green(on) => GreenDriven(w, b, on);
  }

  lemma {:induction false} RunKeepsMirrored(w: Wiring, b: Board, ops: seq<Op>)
    requires w.Distinct() && Mirrored(w, b)
    ensures var c := AppliedAll(w, b, ops);
            && Mirrored(w, c)
            && c.red - {SECURITY} == OthersAfter(b.red, ops, true)
            && c.buzzer - {SECURITY} == OthersAfter(b.buzzer, ops, false)
    decreases |ops|
  {
    if ops != [] {
      OpKeepsMirrored(w, b, ops[0]);
      var next := Applied(w, b, ops[0]).board;
      RunKeepsMirrored(w, next, ops[1..]);
      OthersIgnoreSecurity(next.red, HoldersStep(b.red, ops[0], true), ops[1..], true);
      OthersIgnoreSecurity(next.buzzer, HoldersStep(b.buzzer, ops[0], false), ops[1..], false);
    }
  }

  // The level an active pin has: low on active-low relay inputs, high on the others; after
  // any run of calls on working GPIO the four pins carry exactly these levels.
  lemma LevelsOfMirrored(w: Wiring, b: Board, ops: seq<Op>)
    requires w.Distinct() && Mirrored(w, b)
    ensures var c := AppliedAll(w, b, ops);
            && (LevelOf(c.port, w.red) == Low <==> (c.red != {} <==> w.activeLow))
            && (LevelOf(c.port, w.buzzer) == Low <==> (c.buzzer != {} <==> w.activeLow))
            && (LevelOf(c.port, w.locker) == Low <==> (c.unlocked <==> w.activeLow))
            && (LevelOf(c.port, w.green) == Low <==> (c.greenOn <==> w.activeLow))
  {
    RunKeepsMirrored(w, b, ops);
  }

  // ---- the locker under any faults ----

  lemma CallsTouchOnly(p: Port, pin: int, level: Level)
    ensures var sent := Output(p, pin, level).0;
            && sent.startFates == p.startFates && Input(sent, pin).0.startFates == p.startFates
            && forall other :: other != pin ==>
                 LevelOf(sent, other) == LevelOf(p, other) && LevelOf(Input(sent, pin).0, other) == LevelOf(p, other)
  {}

  // A write moves no pin but its own and nothing else on the board.
  lemma {:induction false} WriteTouchesOnly(w: Wiring, b: Board, pin: int, active: bool, n: nat)
    ensures var c := WriteAttempts(w, b, pin, active, n).board;
            && c == b.(port := c.port) && c.port.startFates == b.port.startFates
            && forall other :: other != pin ==> LevelOf(c.port, other) == LevelOf(b.port, other)
    decreases n
  {
    if n != 0 {
      hide Output, Input;
      CallsTouchOnly(b.port, pin, w.LevelFor(active));
      var (sent, raised) := Output(b.port, pin, w.LevelFor(active));
      if !raised {
        WriteTouchesOnly(w, b.(port := Input(sent, pin).0), pin, active, n - 1);
      }
    }
  }

  // No start that gives up lets the locker pin float to its active level.
  ghost predicate SteadyStarts(w: Wiring, p: Port) {
    forall i :: 0 <= i < |p.startFates| && p.startFates[i].GivesUp? && w.locker in p.startFates[i].floats ==>
      p.startFates[i].floats[w.locker] == w.LevelFor(false)
  }

  // The locker is left alone: by a running controller altogether, by a stopped one up to
  // its starts.
  ghost predicate LockerKept(w: Wiring, b: Board, c: Board) {
    && (c.unlocked ==> b.unlocked)
    && (SteadyStarts(w, b.port) ==>
          SteadyStarts(w, c.port) && (PinActive(w, c, w.locker) ==> PinActive(w, b, w.locker)))
    && (b.enabled ==> c.enabled && c.unlocked == b.unlocked && PinActive(w, c, w.locker) == PinActive(w, b, w.locker))
  }

  lemma WriteKeepsLocker(w: Wiring, b: Board, pin: int, active: bool)
    requires pin != w.locker
    ensures LockerKept(w, b, PinWritten(w, b, pin, active).board)
  {
    WriteTouchesOnly(w, b, pin, active, w.writeRetries);
  }

  lemma KeptTwice(w: Wiring, b: Board, c: Board, d: Board)
    requires LockerKept(w, b, c) && LockerKept(w, c, d)
    ensures LockerKept(w, b, d)
  {}

  lemma RedKeepsLocker(w: Wiring, b: Board, red: set<string>, buzzer: set<string>)
    requires w.Distinct()
    ensures LockerKept(w, b, RedApplied(w, b.(red := red, buzzer := buzzer)).board)
  {
    hide PinWritten;
    WriteKeepsLocker(w, b.(red := red, buzzer := buzzer, redOn := red != {}), w.red, red != {});
  }

  lemma BuzzerKeepsLocker(w: Wiring, b: Board, buzzer: set<string>)
    requires w.Distinct()
    ensures LockerKept(w, b, BuzzerApplied(w, b.(buzzer := buzzer)).board)
  {
    hide PinWritten;
    WriteKeepsLocker(w, b.(buzzer := buzzer, buzzerOn := buzzer != {}), w.buzzer, buzzer != {});
  }

  lemma BothKeepLocker(w: Wiring, b: Board, red: set<string>, buzzer: set<string>)
    requires w.Distinct()
    ensures LockerKept(w, b, BothApplied(w, b.(red := red, buzzer := buzzer)).board)
  {
    hide RedApplied, BuzzerApplied, LockerKept;
    RedKeepsLocker(w, b, red, buzzer);
    var half := RedApplied(w, b.(red := red, buzzer := buzzer)).board;
    BuzzerKeepsLocker(w, half, half.buzzer);
    assert half.(buzzer := half.buzzer) == half;
    KeptTwice(w, b, half, BuzzerApplied(w, half).board);
  }

  lemma AlertKeepsLocker(w: Wiring, b: Board, source: string, on: bool)
    requires w.Distinct()
    ensures LockerKept(w, b, AlertSet(w, b, source, on).board)
  {
    hide RedApplied, BuzzerApplied, LockerKept;
    RedKeepsLocker(w, b, Toggle(b.red, source, on), b.buzzer);
    assert b.(buzzer := b.buzzer) == b;
    var half := RedSourceSet(w, b, source, on).board;
    BuzzerKeepsLocker(w, half, Toggle(half.buzzer, source, on));
    KeptTwice(w, b, half, BuzzerSourceSet(w, half, source, on).board);
  }

  lemma EmptyKeepsLocker(w: Wiring, b: Board)
    requires w.Distinct()
    ensures LockerKept(w, b, EmptyWrittenOff(w, b))
  {
    hide PinWritten;
    WriteKeepsLocker(w, b.(redOn := false), w.red, false);
    var c := if b.red == {} then PinWritten(w, b.(redOn := false), w.red, false).board else b;
    WriteKeepsLocker(w, c.(buzzerOn := false), w.buzzer, false);
  }

  // One start: the locker pin is idled, floats, or keeps its level.
  lemma ConfigureMoves(p: Port, pins: set<int>, idle: Level, pin: int)
    ensures var (next, up) := Configure(p, pins, idle);
            && (p.startFates != [] ==> next.startFates == p.startFates[1..])
            && (p.startFates == [] ==> next.startFates == [])
            && (LevelOf(next, pin) == idle || LevelOf(next, pin) == LevelOf(p, pin)
                || (p.startFates != [] && p.startFates[0].GivesUp? && pin in p.startFates[0].floats
                    && LevelOf(next, pin) == p.startFates[0].floats[pin]))
  {}

  lemma StartKeepsLocker(w: Wiring, b: Board)
    ensures LockerKept(w, b, Started(w, b))
  {
    hide Configure, LevelOf;
    ConfigureMoves(b.port, w.Pins(), w.LevelFor(false), w.locker);
    assert w.LevelFor(false) != w.LevelFor(true);
    if !b.enabled && SteadyStarts(w, b.port) && b.port.startFates != [] {
      var fate := b.port.startFates[0];
      assert fate.GivesUp? && w.locker in fate.floats ==> fate.floats[w.locker] == w.LevelFor(false);
    }
  }

  lemma ForceKeepsLocker(w: Wiring, b: Board)
    requires w.Distinct()
    ensures LockerKept(w, b, ForcedOff(w, b))
  {
    hide BothApplied, EmptyWrittenOff, Started, LockerKept;
    StartKeepsLocker(w, b);
    var c := Started(w, b);
    BothKeepLocker(w, c, c.red - {SECURITY}, c.buzzer - {SECURITY});
    var d := BothApplied(w, c.(red := c.red - {SECURITY}, buzzer := c.buzzer - {SECURITY})).board;
    EmptyKeepsLocker(w, d);
    KeptTwice(w, b, c, d);
    KeptTwice(w, b, d, EmptyWrittenOff(w, d));
  }

  lemma GreenKeepsLocker(w: Wiring, b: Board, on: bool)
    requires w.Distinct()
    ensures LockerKept(w, b, GreenSet(w, b, on).board)
  {
    hide PinWritten;
    WriteKeepsLocker(w, b.(greenOn := on), w.green, on);
  }

  lemma ReadKeepsLocker(w: Wiring, b: Board)
    ensures LockerKept(w, b, RelaysRead(w, b).0)
  {
    hide Input;
    InputTouchesNothing(b.port, w.red);
    InputTouchesNothing(Input(b.port, w.red).0, w.buzzer);
  }

  lemma InputTouchesNothing(p: Port, pin: int)
    ensures var next := Input(p, pin).0; next.levels == p.levels && next.startFates == p.startFates
  {}

  // No call but the locker's own moves the locker, whatever writes and reads do.
  lemma OpKeepsLocker(w: Wiring, b: Board, op: Op)
    requires w.Distinct() && !op.Locker?
    ensures LockerKept(w, b, Applied(w, b, op).board)
  {
    hide LockerKept, RedApplied, BuzzerApplied, BothApplied, AlertSet, ForcedOff, GreenSet, RelaysRead;
    match op
    case Security(active) => BothKeepLocker(w, b, Toggle(b.red, SECURITY, active), Toggle(b.buzzer, SECURITY, active));
    case Red(on) => RedKeepsLocker(w, b, Toggle(b.red, "manual", on), b.buzzer);
    case Buzzer(on) => BuzzerKeepsLocker(w, b, Toggle(b.buzzer, "manual", on));
    case Alert(source, on) => AlertKeepsLocker(w, b, source, on);
    case ClearAlert(source) => BothKeepLocker(w, b, b.red - {source}, b.buzzer - {source});
    case Force => ForceKeepsLocker(w, b);
    case Read => ReadKeepsLocker(w, b);
    case Green(on) => GreenKeepsLocker(w, b, on);
  }

  // Once a relock is lost, with the flag down and the pin still active, nothing but a new
  // unlock brings the pin back: not any number of lock calls, not any other call.
  lemma {:induction false} LostRelockStays(w: Wiring, b: Board, ops: seq<Op>)
    requires w.Distinct() && b.enabled && !b.unlocked && PinActive(w, b, w.locker)
    requires forall i :: 0 <= i < |ops| ==> ops[i] != Op.Locker(true)
    ensures var c := AppliedAll(w, b, ops); !c.unlocked && PinActive(w, c, w.locker)
    decreases |ops|
  {
    if ops != [] {
      hide PinActive;
      var next := Applied(w, b, ops[0]).board;
      assert ops[0] != Op.Locker(true);
      if ops[0].Locker? {
        assert next == b;
      } else {
        OpKeepsLocker(w, b, ops[0]);
      }
      LostRelockStays(w, next, ops[1..]);
    }
  }

  // The flag falls before the write that may raise.
  lemma RaisedRelockIsLost(w: Wiring, b: Board)
    requires b.enabled && b.unlocked && PinActive(w, b, w.locker)
    requires b.port.writeFates != [] && b.port.writeFates[0] == WriteRaises
    ensures var o := LockerSet(w, b, false);
            o.raised && o.board.enabled && !o.board.unlocked && PinActive(w, o.board, w.locker)
  {}

  // On working hardware, exactly when a lock call leaves the locker pin inactive.
  lemma LockWorksExactlyWhen(w: Wiring, b: Board)
    requires b.enabled && Working(b.port)
    ensures var o := LockerSet(w, b, false);
            && !o.raised && o.board.enabled && Working(o.board.port) && !o.board.unlocked
            && (!PinActive(w, o.board, w.locker) <==> b.unlocked || !PinActive(w, b, w.locker))
  {
    hide PinWritten;
    WorkingWrite(w, b.(unlocked := false), w.locker, false);
  }

  // A successful start gives a mirrored board with every channel off.
  lemma StartedIsMirrored(w: Wiring, b: Board)
    requires !b.enabled && Working(b.port) && b.port.startFates != [] && b.port.startFates[0] == Up
    ensures var c := Started(w, b);
            && Mirrored(w, c) && c.red == {} && c.buzzer == {} && !c.unlocked && !c.greenOn
            && forall pin :: pin in w.Pins() ==> !PinActive(w, c, pin)
  {
    var (port, up) := Configure(b.port, w.Pins(), w.LevelFor(false));
    assert Working(port);
    assert forall pin :: pin in w.Pins() ==> LevelOf(port, pin) == w.LevelFor(false);
  }
}
