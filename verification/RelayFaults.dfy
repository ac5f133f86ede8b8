// The relay manager on failing hardware, nobody else using red and buzzer: exactly which
// faults leave its belief worth something.
module RelayFaults {
  import opened Common
  import opened GpioPort
  import opened RelayBoard
  import opened RelayBoardFacts
  import opened SecurityRelay
  import opened SecurityRelayRuns
  import opened SecurityRelayRelease
  import opened RelayWriteFacts
  import opened RelayMachine

  // Which faults may occur: writes lost or raising, readings missing, readings wrong.
  datatype Faults = Faults(writes: bool, missing: bool, wrong: bool)

  ghost predicate Within(p: Port, f: Faults) {
    && (!f.writes ==> forall i :: 0 <= i < |p.writeFates| ==> p.writeFates[i] == Lands)
    && (forall i :: 0 <= i < |p.readFates| ==>
          || p.readFates[i] == Faithful
          || (f.missing && p.readFates[i] == Unreadable)
          || (f.wrong && p.readFates[i].Stuck?))
  }

  const NO_FAULTS := Faults(false, false, false)
  const WRITE_FAULTS := Faults(true, false, false)

  ghost predicate Owned(b: Board) { b.enabled && b.red <= {SECURITY} && b.buzzer <= {SECURITY} }

  ghost predicate Guarded(b: Board) { Owned(b) && FaithfulReads(b.port) }

  lemma WithinMeaning(p: Port)
    ensures Within(p, NO_FAULTS) <==> Working(p)
    ensures Within(p, WRITE_FAULTS) <==> FaithfulReads(p)
  {}

  // ---- any faults at all ----

  // No stop, and no fault of a kind that was ruled out.
  ghost predicate Reached(b: Board, c: Board, f: Faults) {
    c.enabled == b.enabled && (Within(b.port, f) ==> Within(c.port, f))
  }

  lemma CallsReach(p: Port, pin: int, level: Level, f: Faults)
    ensures Within(p, f) ==> Within(Output(p, pin, level).0, f)
    ensures Within(p, f) ==> Within(Input(p, pin).0, f)
    ensures Input(p, pin).0.levels == p.levels
    ensures LevelOf(Output(p, pin, level).0, pin) in [level, LevelOf(p, pin)]
  {}

  // One attempt: the write, and with no exception the reading.
  lemma AttemptOnceReaches(w: Wiring, b: Board, pin: int, active: bool, f: Faults)
    ensures var sent := b.(port := Output(b.port, pin, w.LevelFor(active)).0);
            var read := b.(port := Input(sent.port, pin).0);
            && Reached(b, sent, f) && Reached(b, read, f)
            && (!active && PinActive(w, sent, pin) ==> PinActive(w, b, pin))
            && (!active && PinActive(w, read, pin) ==> PinActive(w, b, pin))
  {
    hide Output, Input, Within;
    CallsReach(b.port, pin, w.LevelFor(active), f);
    CallsReach(Output(b.port, pin, w.LevelFor(active)).0, pin, w.LevelFor(active), f);
  }

  lemma {:induction false} AttemptsReach(w: Wiring, b: Board, pin: int, active: bool, n: nat, f: Faults)
    ensures var c := WriteAttempts(w, b, pin, active, n).board;
            Reached(b, c, f) && (!active && PinActive(w, c, pin) ==> PinActive(w, b, pin))
    decreases n
  {
    if n != 0 {
      hide Output, Input, Within, PinActive;
      AttemptOnceReaches(w, b, pin, active, f);
      var (sent, raised) := Output(b.port, pin, w.LevelFor(active));
      if !raised {
        AttemptsReach(w, b.(port := Input(sent, pin).0), pin, active, n - 1, f);
      }
    }
  }

  lemma WriteReaches(w: Wiring, b: Board, pin: int, active: bool, f: Faults)
    ensures var c := PinWritten(w, b, pin, active).board;
            && Reached(b, c, f) && c == b.(port := c.port)
            && (forall other :: other != pin ==> LevelOf(c.port, other) == LevelOf(b.port, other))
            && (!active && PinActive(w, c, pin) ==> PinActive(w, b, pin))
  {
    WriteTouchesOnly(w, b, pin, active, w.writeRetries);
    AttemptsReach(w, b, pin, active, w.writeRetries, f);
  }

  lemma ApplyReaches(w: Wiring, b: Board, f: Faults)
    ensures var c := BothApplied(w, b).board;
            && Reached(b, c, f) && c.red == b.red && c.buzzer == b.buzzer
            && (b.red == {} && b.buzzer == {} && SomePinActive(w, c) ==> SomePinActive(w, b))
  {
    hide PinWritten, Within;
    WriteReaches(w, b.(redOn := b.red != {}), w.red, b.red != {}, f);
    var half := RedApplied(w, b).board;
    WriteReaches(w, half.(buzzerOn := half.buzzer != {}), w.buzzer, half.buzzer != {}, f);
  }

  lemma EmptyReaches(w: Wiring, b: Board, f: Faults)
    ensures var c := EmptyWrittenOff(w, b);
            && Reached(b, c, f) && c.red == b.red && c.buzzer == b.buzzer
            && (SomePinActive(w, c) ==> SomePinActive(w, b))
  {
    hide PinWritten, Within;
    WriteReaches(w, b.(redOn := false), w.red, false, f);
    var half := if b.red == {} then PinWritten(w, b.(redOn := false), w.red, false).board else b;
    WriteReaches(w, half.(buzzerOn := false), w.buzzer, false, f);
  }

  lemma ReadReaches(w: Wiring, b: Board, f: Faults)
    ensures var c := RelaysRead(w, b).0;
            Reached(b, c, f) && c == b.(port := c.port) && c.port.levels == b.port.levels
  {
    hide Input, Within;
    CallsReach(b.port, w.red, w.LevelFor(true), f);
    CallsReach(Input(b.port, w.red).0, w.buzzer, w.LevelFor(true), f);
  }

  lemma ForceReaches(w: Wiring, b: Board, f: Faults)
    requires Owned(b)
    ensures var c := ForcedOff(w, b);
            Reached(b, c, f) && Owned(c) && (SomePinActive(w, c) ==> SomePinActive(w, b))
  {
    hide BothApplied, EmptyWrittenOff, Within;
    var cut := b.(red := b.red - {SECURITY}, buzzer := b.buzzer - {SECURITY});
    assert cut.red == {} && cut.buzzer == {};
    ApplyReaches(w, cut, f);
    EmptyReaches(w, BothApplied(w, cut).board, f);
  }

  lemma AttemptReaches(w: Wiring, b: Board, active: bool, force: bool, f: Faults)
    requires Owned(b)
    ensures var c := Attempted(w, b, active, force).0;
            Reached(b, c, f) && Owned(c) && (!active && SomePinActive(w, c) ==> SomePinActive(w, b))
  {
    hide BothApplied, ForcedOff, RelaysRead, Within;
    ForceReaches(w, b, f);
    var told := b.(red := Toggle(b.red, SECURITY, active), buzzer := Toggle(b.buzzer, SECURITY, active));
    assert !active ==> told.red == {} && told.buzzer == {};
    ApplyReaches(w, told, f);
    ReadReaches(w, ForcedOff(w, b), f);
    ReadReaches(w, SecuritySet(w, b, active).board, f);
  }

  lemma ReachedTwice(b: Board, c: Board, d: Board, f: Faults)
    requires Reached(b, c, f) && Reached(c, d, f)
    ensures Reached(b, d, f)
  {}

  lemma {:induction false} RetriesReach(w: Wiring, b: Board, active: bool, force: bool, n: nat, f: Faults)
    requires Owned(b)
    ensures var c := Retried(w, b, active, force, n).board;
            Reached(b, c, f) && Owned(c) && (!active && SomePinActive(w, c) ==> SomePinActive(w, b))
    decreases n
  {
    if n != 0 {
      hide Attempted, Reached, Owned, SomePinActive;
      AttemptReaches(w, b, active, force, f);
      var next := Attempted(w, b, active, force).0;
      RetriesReach(w, next, active, force, n - 1, f);
      ReachedTwice(b, next, Retried(w, next, active, force, n - 1).board, f);
    } else {
      assert Retried(w, b, active, force, n) == WriteResult(b, false);
    }
  }

  lemma ExecutedReaches(w: Wiring, b: Board, active: bool, force: bool, retries: int, f: Faults)
    requires Owned(b)
    ensures var c := Executed(w, b, active, force, retries).board;
            Reached(b, c, f) && Owned(c) && (!active && SomePinActive(w, c) ==> SomePinActive(w, b))
  {
    hide Retried, ForcedOff, RelaysRead, Within, SomePinActive;
    var n := if retries < 0 then 0 else retries;
    RetriesReach(w, b, active, force, n, f);
    var c := Retried(w, b, active, force, n).board;
    ForceReaches(w, c, f);
    ReadReaches(w, ForcedOff(w, c), f);
    SamePins(w, ForcedOff(w, c), RelaysRead(w, ForcedOff(w, c)).0);
  }

  lemma SamePins(w: Wiring, b: Board, c: Board)
    requires c.port.levels == b.port.levels
    ensures SomePinActive(w, c) == SomePinActive(w, b)
  {}

  // No OFF write, forced or not, ever activates a pin, whatever writes and readings do.
  lemma OffStaysOff(w: Wiring, b: Board, force: bool, retries: int)
    requires Owned(b) && !SomePinActive(w, b)
    ensures !SomePinActive(w, Executed(w, b, false, force, retries).board)
  {
    hide Executed, SomePinActive;
    ExecutedReaches(w, b, false, force, retries, NO_FAULTS);
  }

  // ---- truthful readings ----

  lemma OnSet(w: Wiring, b: Board)
    requires w.Distinct() && Guarded(b)
    ensures var o := SecuritySet(w, b, true);
            var c := o.board;
            && Guarded(c) && c.redOn && (b.buzzerOn ==> c.buzzerOn) && (!o.raised ==> c.buzzerOn)
            && (o.raised && b.redOn ==> c.buzzerOn)
            && (!SomePinActive(w, b) && o.raised ==>
                  !SomePinActive(w, c) || (!b.redOn && c.buzzerOn && PinActive(w, c, w.red)))
  {
    hide PinWritten;
    var s := b.(red := b.red + {SECURITY}, buzzer := b.buzzer + {SECURITY});
    assert SECURITY in s.red && SECURITY in s.buzzer;
    FaultyWrite(w, s.(redOn := true), w.red, true);
    var half := RedApplied(w, s).board;
    FaultyWrite(w, half.(buzzerOn := true), w.buzzer, true);
  }

  lemma OnAttempt(w: Wiring, b: Board)
    requires w.Distinct() && Guarded(b)
    ensures var (c, seen) := Attempted(w, b, true, false);
            && Guarded(c) && c.redOn && (seen.Some? ==> c.buzzerOn && seen.value == SomePinActive(w, c))
            && (seen.None? && b.redOn ==> c.buzzerOn)
            && (!SomePinActive(w, b) && seen.None? ==>
                  !SomePinActive(w, c) || (!b.redOn && c.buzzerOn && PinActive(w, c, w.red)))
  {
    hide SecuritySet, RelaysRead;
    OnSet(w, b);
    WorkingReadout(w, SecuritySet(w, b, true).board);
  }

  // With both flags set nothing more is written: the report is what the pins already are.
  lemma SettledOn(w: Wiring, b: Board, n: nat)
    requires Guarded(b) && b.redOn && b.buzzerOn
    ensures Retried(w, b, true, false, n).ok <==> n != 0 && SomePinActive(w, b)
    ensures !SomePinActive(w, b) ==> !SomePinActive(w, Retried(w, b, true, false, n).board)
  {
    if !SomePinActive(w, b) {
      OnNeverRewritten(w, b, n);
    } else if n != 0 {
      var s := b.(red := b.red + {SECURITY}, buzzer := b.buzzer + {SECURITY});
      assert SECURITY in s.red && SECURITY in s.buzzer;
      assert SecuritySet(w, b, true) == Outcome(s, false);
      WorkingReadout(w, s);
    }
  }

  lemma RedIsSome(w: Wiring, b: Board)
    ensures PinActive(w, b, w.red) ==> SomePinActive(w, b)
  {}

  // From inactive pins a failed ON write leaves both inactive, unless it was allowed just
  // the one attempt: a red write that lands before a buzzer write that raises is seen by
  // the second attempt and reported.
  lemma FailedOnStaysOff(w: Wiring, b: Board, n: nat)
    requires w.Distinct() && Guarded(b) && !SomePinActive(w, b) && n != 1
    ensures var r := Retried(w, b, true, false, n); !r.ok ==> !SomePinActive(w, r.board)
  {
    hide Attempted, SomePinActive;
    if n != 0 {
      OnAttempt(w, b);
      var (c, seen) := Attempted(w, b, true, false);
      if c.buzzerOn {
        SettledOn(w, c, n - 1);
        RedIsSome(w, c);
      } else {
        OnAttempt(w, c);
        SettledOn(w, Attempted(w, c, true, false).0, n - 2);
      }
    }
  }

  // With truthful readings: an OFF reported leaves the pins inactive, and so does an ON that
  // failed, unless it had just one attempt on faulty hardware.
  lemma WriteStaysHonest(w: Wiring, b: Board, request: Request, retries: int)
    requires w.Distinct() && Guarded(b) && (retries != 1 || Working(b.port))
    ensures var r := Performed(w, b, request, retries);
            && Guarded(r.board)
            && (request.TurnOff? && r.ok ==> !SomePinActive(w, r.board))
            && (!SomePinActive(w, b) && !r.ok ==> !SomePinActive(w, r.board))
  {
    hide Executed, SomePinActive, Within;
    match request
    case NoWrite =>
    case TurnOff(force) =>
      ExecutedReaches(w, b, false, force, retries, WRITE_FAULTS);
      WithinMeaning(b.port);
      WithinMeaning(Executed(w, b, false, force, retries).board.port);
      ReportsAreTruthful(w, b, false, force, retries);
    case TurnOn =>
      ExecutedReaches(w, b, true, false, retries, WRITE_FAULTS);
      WithinMeaning(b.port);
      WithinMeaning(Executed(w, b, true, false, retries).board.port);
      FailedOn(w, b, retries);
  }

  lemma FailedOn(w: Wiring, b: Board, retries: int)
    requires w.Distinct() && Guarded(b) && (retries != 1 || Working(b.port))
    ensures var r := Executed(w, b, true, false, retries);
            !SomePinActive(w, b) && !r.ok ==> !SomePinActive(w, r.board)
  {
    hide Retried;
    if retries == 1 {
      OnDrivesExactlyWhen(w, b, retries);
    } else if !SomePinActive(w, b) {
      FailedOnStaysOff(w, b, if retries < 0 then 0 else retries);
    }
  }

  // On hardware that works again it keeps working, and every OFF write succeeds.
  lemma WriteOnRecovered(w: Wiring, b: Board, request: Request, retries: int)
    requires w.Distinct() && Guarded(b) && Working(b.port) && 1 <= retries
    ensures var r := Performed(w, b, request, retries);
            Working(r.board.port) && (request.TurnOff? ==> r.ok)
  {
    hide Retried, ForcedOff, RelaysRead;
    match request
    case NoWrite =>
    case TurnOn => OnDrivesExactlyWhen(w, b, retries);
    case TurnOff(force) =>
      OffAlwaysRecovers(w, b, force, retries);
      OffRetriesWork(w, b, force, retries);
      var c := Retried(w, b, false, force, retries).board;
      ForceReachesPins(w, c);
      WorkingReadout(w, ForcedOff(w, c));
  }

  // ---- landing writes, readings possibly missing ----

  ghost predicate FlagsArePins(w: Wiring, b: Board) {
    PinActive(w, b, w.red) == b.redOn && PinActive(w, b, w.buzzer) == b.buzzerOn
  }

  ghost predicate AllLand(p: Port) { forall i :: 0 <= i < |p.writeFates| ==> p.writeFates[i] == Lands }

  lemma {:induction false} LandingAttempts(w: Wiring, b: Board, pin: int, active: bool, n: nat)
    requires AllLand(b.port)
    ensures var o := WriteAttempts(w, b, pin, active, n);
            && !o.raised && AllLand(o.board.port)
            && PinActive(w, o.board, pin) == (if n == 0 then PinActive(w, b, pin) else active)
    decreases n
  {
    if n != 0 {
      var sent := Output(b.port, pin, w.LevelFor(active)).0;
      assert AllLand(sent) && LevelOf(sent, pin) == w.LevelFor(active);
      var read := b.(port := Input(sent, pin).0);
      assert AllLand(read.port) && LevelOf(read.port, pin) == w.LevelFor(active);
      LandingAttempts(w, read, pin, active, n - 1);
    }
  }

  lemma LandingWrite(w: Wiring, b: Board, pin: int, active: bool)
    requires b.enabled && AllLand(b.port)
    ensures var o := PinWritten(w, b, pin, active);
            && !o.raised && AllLand(o.board.port) && o.board == b.(port := o.board.port)
            && PinActive(w, o.board, pin) == active
            && forall other :: other != pin ==> LevelOf(o.board.port, other) == LevelOf(b.port, other)
  {
    WriteTouchesOnly(w, b, pin, active, w.writeRetries);
    LandingAttempts(w, b, pin, active, w.writeRetries);
  }

  lemma LandingApply(w: Wiring, b: Board)
    requires w.Distinct() && b.enabled && AllLand(b.port) && FlagsArePins(w, b)
    ensures var o := BothApplied(w, b);
            && !o.raised && o.board.enabled && AllLand(o.board.port) && FlagsArePins(w, o.board)
            && o.board.red == b.red && o.board.buzzer == b.buzzer
            && o.board.redOn == (b.red != {}) && o.board.buzzerOn == (b.buzzer != {})
  {
    hide PinWritten, AllLand;
    LandingWrite(w, b.(redOn := b.red != {}), w.red, b.red != {});
    var half := RedApplied(w, b).board;
    LandingWrite(w, half.(buzzerOn := half.buzzer != {}), w.buzzer, half.buzzer != {});
  }

  lemma LandingForce(w: Wiring, b: Board)
    requires w.Distinct() && Owned(b) && AllLand(b.port) && FlagsArePins(w, b)
    ensures var c := ForcedOff(w, b);
            && Owned(c) && AllLand(c.port) && FlagsArePins(w, c) && !c.redOn && !c.buzzerOn
  {
    hide PinWritten, AllLand, BothApplied;
    var cut := b.(red := b.red - {SECURITY}, buzzer := b.buzzer - {SECURITY});
    assert cut.red == {} && cut.buzzer == {};
    LandingApply(w, cut);
    var c := BothApplied(w, cut).board;
    LandingWrite(w, c.(redOn := false), w.red, false);
    var half := PinWritten(w, c.(redOn := false), w.red, false).board;
    LandingWrite(w, half.(buzzerOn := false), w.buzzer, false);
  }

  // The readout is right whether it comes from the pins or, a reading missing, the flags.
  lemma LandingRead(w: Wiring, b: Board, f: Faults)
    requires Within(b.port, f) && !f.wrong && FlagsArePins(w, b)
    ensures RelaysRead(w, b).1 == SomePinActive(w, b)
  {
    CallsReach(b.port, w.red, w.LevelFor(true), f);
    var p := Input(b.port, w.red).0;
    assert Within(p, f);
  }

  lemma WithinLands(p: Port, f: Faults)
    ensures Within(p, f) && !f.writes ==> AllLand(p)
  {}

  lemma LandingAttempt(w: Wiring, b: Board, active: bool, force: bool, f: Faults)
    requires w.Distinct() && Owned(b) && Within(b.port, f) && !f.writes && !f.wrong && FlagsArePins(w, b)
    ensures var (c, seen) := Attempted(w, b, active, force);
            && Owned(c) && Within(c.port, f) && FlagsArePins(w, c)
            && seen == Some(active) && SomePinActive(w, c) == active
  {
    hide BothApplied, ForcedOff, RelaysRead, Within, AllLand;
    AttemptReaches(w, b, active, force, f);
    WithinLands(b.port, f);
    var told := b.(red := Toggle(b.red, SECURITY, active), buzzer := Toggle(b.buzzer, SECURITY, active));
    assert active ==> SECURITY in told.red && SECURITY in told.buzzer;
    assert !active ==> told.red == {} && told.buzzer == {};
    LandingApply(w, told);
    LandingForce(w, b);
    ApplyReaches(w, told, f);
    ForceReaches(w, b, f);
    var sent := if !active && force then ForcedOff(w, b) else SecuritySet(w, b, active).board;
    LandingRead(w, sent, f);
    ReadReaches(w, sent, f);
    SamePinsAndFlags(w, sent, RelaysRead(w, sent).0);
    FlagsTell(w, sent);
  }

  lemma SamePinsAndFlags(w: Wiring, b: Board, c: Board)
    requires c == b.(port := c.port) && c.port.levels == b.port.levels
    ensures FlagsArePins(w, b) ==> FlagsArePins(w, c)
    ensures SomePinActive(w, c) == SomePinActive(w, b)
  {}

  lemma FlagsTell(w: Wiring, b: Board)
    requires FlagsArePins(w, b)
    ensures SomePinActive(w, b) == (b.redOn || b.buzzerOn)
  {}

  lemma LandingExecuted(w: Wiring, b: Board, active: bool, force: bool, retries: int, f: Faults)
    requires w.Distinct() && Owned(b) && Within(b.port, f) && !f.writes && !f.wrong && FlagsArePins(w, b)
    requires 1 <= retries
    ensures var r := Executed(w, b, active, force, retries);
            r.ok && FlagsArePins(w, r.board) && SomePinActive(w, r.board) == active
  {
    hide Attempted, FlagsArePins, SomePinActive, Within;
    LandingAttempt(w, b, active, force, f);
    assert Retried(w, b, active, force, retries) == WriteResult(Attempted(w, b, active, force).0, true);
  }

  // ---- the belief, under each kind of fault ----

  // Which faults and retry counts leave a belief in OFF trustworthy.
  predicate Trusted(cfg: Config, f: Faults) {
    cfg.retries <= 0 || (!f.wrong && (!f.writes || (!f.missing && 2 <= cfg.retries)))
  }

  // A relay believed off is off at both pins.
  ghost predicate Believable(w: Wiring, m: Machine) {
    Owned(m.board) && Coherent(m.relay) && (!m.relay.on ==> !SomePinActive(w, m.board))
  }

  ghost predicate Honest(w: Wiring, m: Machine) {
    Believable(w, m) && FaithfulReads(m.board.port)
  }

  // What a run keeps while faults stay of that kind.
  ghost predicate Kept(w: Wiring, cfg: Config, f: Faults, m: Machine) {
    && Within(m.board.port, f) && Believable(w, m)
    && (cfg.retries <= 0 ==> !SomePinActive(w, m.board))
    && (!f.writes && !f.wrong ==> FlagsArePins(w, m.board))
  }

  ghost predicate WriteKept(w: Wiring, cfg: Config, f: Faults, b: Board, request: Request, r: WriteResult) {
    && Owned(r.board) && Within(r.board.port, f)
    && (request.TurnOff? && r.ok ==> !SomePinActive(w, r.board))
    && (!SomePinActive(w, b) && !r.ok ==> !SomePinActive(w, r.board))
    && (cfg.retries <= 0 ==> !r.ok || request.TurnOff?)
    && (cfg.retries <= 0 && !SomePinActive(w, b) ==> !SomePinActive(w, r.board))
    && (!f.writes && !f.wrong && FlagsArePins(w, b) ==> FlagsArePins(w, r.board))
  }

  lemma NoAttemptsKeep(w: Wiring, cfg: Config, f: Faults, b: Board, request: Request)
    requires w.Distinct() && cfg.retries <= 0 && Owned(b) && Within(b.port, f) && !SomePinActive(w, b)
    requires !f.writes && !f.wrong ==> FlagsArePins(w, b)
    ensures WriteKept(w, cfg, f, b, request, Performed(w, b, request, cfg.retries))
  {
    hide SomePinActive, Within, FlagsArePins;
    match request
    case NoWrite =>
    case TurnOn => assert Executed(w, b, true, false, cfg.retries) == WriteResult(b, false);
    case TurnOff(force) =>
      {
        hide Executed;
        ExecutedReaches(w, b, false, force, cfg.retries, f);
      }
      if force {
        assert Executed(w, b, false, force, cfg.retries) == WriteResult(b, false);
      } else if !f.writes && !f.wrong {
        LandingLastResort(w, b, f);
        assert Executed(w, b, false, false, cfg.retries).board == RelaysRead(w, ForcedOff(w, b)).0;
      }
  }

  lemma LandingLastResort(w: Wiring, b: Board, f: Faults)
    requires w.Distinct() && Owned(b) && Within(b.port, f) && !f.writes && FlagsArePins(w, b)
    ensures FlagsArePins(w, RelaysRead(w, ForcedOff(w, b)).0)
  {
    hide ForcedOff, RelaysRead, Within, AllLand;
    WithinLands(b.port, f);
    LandingForce(w, b);
    ReadReaches(w, ForcedOff(w, b), f);
    SamePinsAndFlags(w, ForcedOff(w, b), RelaysRead(w, ForcedOff(w, b)).0);
  }

  lemma LandingKeeps(w: Wiring, cfg: Config, f: Faults, b: Board, request: Request)
    requires w.Distinct() && 1 <= cfg.retries && !f.writes && !f.wrong
    requires Owned(b) && Within(b.port, f) && FlagsArePins(w, b)
    ensures WriteKept(w, cfg, f, b, request, Performed(w, b, request, cfg.retries))
  {
    hide Executed, SomePinActive, Within, FlagsArePins;
    match request
    case NoWrite =>
    case TurnOn =>
      ExecutedReaches(w, b, true, false, cfg.retries, f);
      LandingExecuted(w, b, true, false, cfg.retries, f);
    case TurnOff(force) =>
      ExecutedReaches(w, b, false, force, cfg.retries, f);
      LandingExecuted(w, b, false, force, cfg.retries, f);
  }

  lemma TruthfulKeeps(w: Wiring, cfg: Config, f: Faults, b: Board, request: Request)
    requires w.Distinct() && 2 <= cfg.retries && f.writes && !f.missing && !f.wrong
    requires Owned(b) && Within(b.port, f)
    ensures WriteKept(w, cfg, f, b, request, Performed(w, b, request, cfg.retries))
  {
    assert f == WRITE_FAULTS;
    WithinMeaning(b.port);
    WithinMeaning(Performed(w, b, request, cfg.retries).board.port);
    hide Performed, SomePinActive, Within;
    WriteStaysHonest(w, b, request, cfg.retries);
  }

  lemma StepStaysKept(w: Wiring, cfg: Config, f: Faults, m: Machine, e: Event)
    requires w.Distinct() && Trusted(cfg, f) && Kept(w, cfg, f, m)
    ensures Kept(w, cfg, f, MachineStep(w, cfg, m, e))
  {
    hide Stepped, RequestOf, Performed, SomePinActive, Within, FlagsArePins;
    var request := RequestOf(cfg, m.relay, e);
    if cfg.retries <= 0 {
      NoAttemptsKeep(w, cfg, f, m.board, request);
    } else if !f.writes {
      LandingKeeps(w, cfg, f, m.board, request);
    } else {
      TruthfulKeeps(w, cfg, f, m.board, request);
    }
    BeliefMoves(w, cfg, m, e);
  }

  // The manager's part of a machine step: its belief follows the answer to its request.
  lemma BeliefMoves(w: Wiring, cfg: Config, m: Machine, e: Event)
    requires Coherent(m.relay)
    ensures var request := RequestOf(cfg, m.relay, e);
            var r := Performed(w, m.board, request, cfg.retries);
            var next := MachineStep(w, cfg, m, e);
            && Coherent(next.relay) && next.board == r.board
            && match request
               case NoWrite => next.relay.on == m.relay.on && next.board == m.board
               case TurnOn => next.relay.on == (m.relay.on || r.ok)
               case TurnOff(_) => next.relay.on == (m.relay.on && !r.ok)
  {
    NoWriteNoEffect(w, cfg, m.board, m.relay, e);
    hide Stepped, RequestOf, Performed;
    var a := Answered(w, cfg, m, e);
    RequestIgnoresAnswer(cfg, m.relay, e, a);
    StepStaysCoherent(cfg, m.relay, a);
    BeliefAfter(cfg, m.relay, a);
  }

  lemma BeliefAfter(cfg: Config, s: Relay, e: Event)
    ensures var t := Stepped(cfg, s, e);
            match RequestOf(cfg, s, e)
            case NoWrite => t.on == s.on
            case TurnOn => t.on == (s.on || e.ok)
            case TurnOff(_) => t.on == (s.on && !e.ok)
  {}

  lemma NoWriteNoEffect(w: Wiring, cfg: Config, b: Board, s: Relay, e: Event)
    ensures Performed(w, b, NoWrite, cfg.retries).board == b
    ensures e.Clear? ==> RequestOf(cfg, s, e) == NoWrite
  {}

  lemma StepStaysHonest(w: Wiring, cfg: Config, m: Machine, e: Event)
    requires w.Distinct() && Honest(w, m) && (cfg.retries != 1 || Working(m.board.port))
    ensures Honest(w, MachineStep(w, cfg, m, e))
  {
    hide Stepped, RequestOf, Performed, SomePinActive, MachineStep;
    WriteStaysHonest(w, m.board, RequestOf(cfg, m.relay, e), cfg.retries);
    BeliefMoves(w, cfg, m, e);
  }

  // Over every run, faults of that kind at any time: a relay believed off is off.
  lemma {:induction false} RunStaysKept(w: Wiring, cfg: Config, f: Faults, m: Machine, es: seq<Event>)
    requires w.Distinct() && Trusted(cfg, f) && Kept(w, cfg, f, m)
    ensures Kept(w, cfg, f, MachineRun(w, cfg, m, es))
    decreases |es|
  {
    if es != [] {
      hide Kept, MachineStep;
      StepStaysKept(w, cfg, f, m, es[0]);
      RunStaysKept(w, cfg, f, MachineStep(w, cfg, m, es[0]), es[1..]);
    }
  }

  lemma RestIsKept(w: Wiring, cfg: Config, f: Faults, b: Board, now: real)
    requires Unused(w, b) && Within(b.port, f)
    ensures Kept(w, cfg, f, Machine(Created(now), b))
  {}

  // A successful start leaves a board at rest, whatever faults lie ahead.
  lemma StartedIsUnused(w: Wiring, b: Board, f: Faults)
    requires !b.enabled && b.port.startFates != [] && b.port.startFates[0] == Up && Within(b.port, f)
    ensures Unused(w, Started(w, b)) && Within(Started(w, b).port, f)
  {
    var port := Configure(b.port, w.Pins(), w.LevelFor(false)).0;
    assert forall pin :: pin in w.Pins() ==> LevelOf(port, pin) == w.LevelFor(false);
  }

  ghost predicate NeverSilentlyOn(w: Wiring, cfg: Config, f: Faults) {
    forall b: Board, start: real, es: seq<Event> | Unused(w, b) && Within(b.port, f) ::
      var r := MachineRun(w, cfg, Machine(Created(start), b), es);
      !r.relay.on ==> !PinActive(w, r.board, w.red) && !PinActive(w, r.board, w.buzzer)
  }

  // ---- a missing reading hides a failed OFF ----

  // One raised OFF write and one missing reading: the second attempt skips red, whose flag
  // is already down, and the report falls back on the flags.
  lemma MissingReadHidesRaise(w: Wiring, b: Board, retries: int)
    requires w.Distinct() && 2 <= retries && Owned(b) && b.red == {SECURITY} && b.buzzer == {SECURITY}
    requires b.redOn && b.buzzerOn && PinActive(w, b, w.red) && PinActive(w, b, w.buzzer)
    requires b.port.writeFates == [WriteRaises] && b.port.readFates == [Faithful, Unreadable]
    ensures var r := Executed(w, b, false, false, retries);
            r.ok && PinActive(w, r.board, w.red) && !r.board.redOn && !r.board.buzzerOn && Working(r.board.port)
  {
    assert b.red - {SECURITY} == {} && b.buzzer - {SECURITY} == {};
    var one := b.(red := {}, buzzer := {}, redOn := false, port := b.port.(writeFates := []));
    assert SecuritySet(w, b, false) == Outcome(one, true);
    assert Attempted(w, b, false, false) == (one, None);
    assert one.red - {SECURITY} == {} && one.buzzer - {SECURITY} == {};
    var two := one.(buzzerOn := false,
                    port := Port(one.port.levels[w.buzzer := w.LevelFor(false)], [], [Unreadable],
                                 one.port.startFates));
    assert one.port.readFates[1..] == [Unreadable];
    assert PinWritten(w, one.(buzzerOn := false), w.buzzer, false) == Outcome(two, false);
    assert SecuritySet(w, one, false) == Outcome(two, false);
    var three := two.(port := two.port.(readFates := []));
    assert Attempted(w, one, false, false) == (three, Some(false));
    assert Retried(w, b, false, false, retries)
        == Retried(w, one, false, false, retries - 1) == WriteResult(three, true);
  }

  // One call that lands and is read back, one that is lost with the reading missing.
  lemma LandsAndReads(w: Wiring, b: Board, pin: int, active: bool)
    requires b.enabled && |b.port.writeFates| > 0 && b.port.writeFates[0] == Lands
    requires |b.port.readFates| > 0 && b.port.readFates[0] == Faithful
    ensures PinWritten(w, b, pin, active)
         == Outcome(b.(port := Port(b.port.levels[pin := w.LevelFor(active)], b.port.writeFates[1..],
                                    b.port.readFates[1..], b.port.startFates)), false)
  {}

  lemma LostUnread(w: Wiring, b: Board, pin: int, active: bool)
    requires b.enabled && |b.port.writeFates| > 0 && b.port.writeFates[0] == Lost
    requires |b.port.readFates| > 0 && b.port.readFates[0] == Unreadable
    ensures PinWritten(w, b, pin, active)
         == Outcome(b.(port := Port(b.port.levels, b.port.writeFates[1..], b.port.readFates[1..],
                                    b.port.startFates)), false)
  {}

  // ON lands; then red's OFF writes are lost and unread, and the buzzer's land.
  function HiddenOff(w: Wiring): Board {
    Board(true, {}, {}, false, false, false, false,
          Port(map[w.red := w.LevelFor(false), w.buzzer := w.LevelFor(false)],
               [Lands, Lands, Lost, Lands, Lost, Lands],
               [Faithful, Faithful, Faithful, Faithful, Unreadable, Faithful, Unreadable, Faithful, Unreadable], []))
  }

  // That board once ON: red and buzzer driven, the faults still ahead.
  function HiddenOn(w: Wiring): Board {
    Board(true, {SECURITY}, {SECURITY}, true, true, false, false,
          Port(map[w.red := w.LevelFor(true), w.buzzer := w.LevelFor(true)],
               [Lost, Lands, Lost, Lands], [Unreadable, Faithful, Unreadable, Faithful, Unreadable], []))
  }

  lemma HiddenTurnsOn(w: Wiring, retries: int)
    requires w.Distinct() && 1 <= retries
    ensures Executed(w, HiddenOff(w), true, false, retries) == WriteResult(HiddenOn(w), true)
  {
    hide PinWritten;
    var b := HiddenOff(w);
    var s := b.(red := {SECURITY}, buzzer := {SECURITY});
    assert b.red + {SECURITY} == s.red && b.buzzer + {SECURITY} == s.buzzer;
    LandsAndReads(w, s.(redOn := true), w.red, true);
    var half := RedApplied(w, s).board;
    LandsAndReads(w, half.(buzzerOn := true), w.buzzer, true);
    var both := BuzzerApplied(w, half).board;
    assert both.port.writeFates == [Lost, Lands, Lost, Lands];
    assert both.port.readFates == [Faithful, Faithful, Unreadable, Faithful, Unreadable, Faithful, Unreadable];
    assert both.port.levels == HiddenOn(w).port.levels;
    assert SecuritySet(w, b, true) == Outcome(both, false);
    assert RelaysRead(w, both).0.port.readFates == HiddenOn(w).port.readFates;
    assert RelaysRead(w, both) == (HiddenOn(w), true);
    assert Attempted(w, b, true, false) == (HiddenOn(w), Some(true));
  }

  lemma HiddenTurnsOff(w: Wiring, retries: int)
    requires w.Distinct() && 1 <= retries
    ensures var r := Executed(w, HiddenOn(w), false, true, retries);
            r.ok && PinActive(w, r.board, w.red) && Working(r.board.port)
  {
    hide PinWritten;
    var b := HiddenOn(w);
    var s := b.(red := {}, buzzer := {});
    assert b.red - {SECURITY} == s.red && b.buzzer - {SECURITY} == s.buzzer;
    LostUnread(w, s.(redOn := false), w.red, false);
    var one := RedApplied(w, s).board;
    LandsAndReads(w, one.(buzzerOn := false), w.buzzer, false);
    var two := BuzzerApplied(w, one).board;
    assert two.port.writeFates == [Lost, Lands] && two.port.readFates == [Unreadable, Faithful, Unreadable];
    assert BothApplied(w, s) == Outcome(two, false);
    LostUnread(w, two.(redOn := false), w.red, false);
    var three := PinWritten(w, two.(redOn := false), w.red, false).board;
    LandsAndReads(w, three.(buzzerOn := false), w.buzzer, false);
    var four := PinWritten(w, three.(buzzerOn := false), w.buzzer, false).board;
    assert four.port.writeFates == [] && four.port.readFates == [Unreadable];
    assert ForcedOff(w, b) == four;
    assert RelaysRead(w, four).1 == false;
    assert Attempted(w, b, false, true) == (RelaysRead(w, four).0, Some(false));
  }

  // ---- a wrong reading hides a working ON ----

  function WrongReads(w: Wiring, n: nat): (fates: seq<ReadFate>)
    ensures |fates| == n && forall i :: 0 <= i < n ==> fates[i] == Stuck(w.LevelFor(false))
  {
    seq(n, _ => Stuck(w.LevelFor(false)))
  }

  // Every write lands; after the two readbacks each of the n readouts is wrong.
  function WrongOn(w: Wiring, n: nat): Board {
    Board(true, {}, {}, false, false, false, false,
          Port(map[w.red := w.LevelFor(false), w.buzzer := w.LevelFor(false)], [Lands, Lands],
               [Faithful, Faithful] + WrongReads(w, 2 * n), []))
  }

  // With both flags set and every readout wrong, no attempt is reported.
  lemma {:induction false} WrongReadsFail(w: Wiring, b: Board, n: nat)
    requires Owned(b) && b.redOn && b.buzzerOn && SomePinActive(w, b)
    requires b.port.writeFates == [] && b.port.readFates == WrongReads(w, 2 * n)
    ensures var r := Retried(w, b, true, false, n);
            !r.ok && r.board.port.levels == b.port.levels && Working(r.board.port)
    decreases n
  {
    if n != 0 {
      var s := b.(red := b.red + {SECURITY}, buzzer := b.buzzer + {SECURITY});
      assert SECURITY in s.red && SECURITY in s.buzzer;
      assert SecuritySet(w, b, true) == Outcome(s, false);
      hide RelaysRead, SecuritySet;
      WrongReadout(w, s, n);
      WrongReadsFail(w, RelaysRead(w, s).0, n - 1);
    }
  }

  lemma WrongReadout(w: Wiring, b: Board, n: nat)
    requires b.enabled && n != 0 && b.port.readFates == WrongReads(w, 2 * n)
    ensures RelaysRead(w, b) == (b.(port := b.port.(readFates := WrongReads(w, 2 * (n - 1)))), false)
  {
    assert b.port.readFates[1..][1..] == WrongReads(w, 2 * (n - 1));
  }

  // That board after its first attempt, every readout still ahead.
  function WrongBoth(w: Wiring, n: nat): Board {
    Board(true, {SECURITY}, {SECURITY}, true, true, false, false,
          Port(map[w.red := w.LevelFor(true), w.buzzer := w.LevelFor(true)], [], WrongReads(w, 2 * n), []))
  }

  lemma WrongOnDrives(w: Wiring, n: nat)
    requires w.Distinct()
    ensures SecuritySet(w, WrongOn(w, n), true) == Outcome(WrongBoth(w, n), false)
  {
    hide PinWritten;
    var b := WrongOn(w, n);
    var s := b.(red := {SECURITY}, buzzer := {SECURITY});
    assert b.red + {SECURITY} == s.red && b.buzzer + {SECURITY} == s.buzzer;
    LandsAndReads(w, s.(redOn := true), w.red, true);
    var half := RedApplied(w, s).board;
    assert half.port.readFates == [Faithful] + WrongReads(w, 2 * n) && half.port.writeFates == [Lands];
    LandsAndReads(w, half.(buzzerOn := true), w.buzzer, true);
    var both := BuzzerApplied(w, half).board;
    assert both.port.readFates == WrongReads(w, 2 * n) && both.port.writeFates == [];
    assert both.port.levels == WrongBoth(w, n).port.levels;
  }

  lemma WrongOnFails(w: Wiring, retries: int)
    requires w.Distinct() && 1 <= retries
    ensures var r := Executed(w, WrongOn(w, retries), true, false, retries);
            !r.ok && PinActive(w, r.board, w.red) && Working(r.board.port)
  {
    hide SecuritySet, RelaysRead, WrongOn;
    WrongOnDrives(w, retries);
    WrongReadout(w, WrongBoth(w, retries), retries);
    WrongReadsFail(w, RelaysRead(w, WrongBoth(w, retries)).0, retries - 1);
  }

  // ---- with a single attempt ----

  // Red lands, the buzzer raises, and from then on every write works.
  function HalfDriven(w: Wiring): Board {
    Board(true, {}, {}, false, false, false, false,
          Port(map[w.red := w.LevelFor(false), w.buzzer := w.LevelFor(false)], [Lands, WriteRaises], [], []))
  }

  lemma HalfDrivenFails(w: Wiring)
    requires w.Distinct()
    ensures Unused(w, HalfDriven(w)) && Within(HalfDriven(w).port, WRITE_FAULTS)
    ensures var r := Executed(w, HalfDriven(w), true, false, 1);
            !r.ok && Working(r.board.port) && PinActive(w, r.board, w.red)
  {
    var b := HalfDriven(w);
    var s := b.(red := {SECURITY}, buzzer := {SECURITY});
    assert b.red + {SECURITY} == s.red && b.buzzer + {SECURITY} == s.buzzer;
    var landed := Output(b.port, w.red, w.LevelFor(true)).0;
    OneInput(landed, w.red);
    var half := s.(redOn := true, port := Input(landed, w.red).0);
    assert RedApplied(w, s) == Outcome(half, false);
    assert half.port.writeFates == [WriteRaises];
    var o := BuzzerApplied(w, half);
    assert o.raised && o.board.port == half.port.(writeFates := []);
    assert Attempted(w, b, true, false) == (o.board, None);
  }


  // ---- runs that end silently on ----

  // Idle and believed off, a pin active, hardware that works again.
  ghost predicate SilentlyOn(w: Wiring, m: Machine) {
    && Coherent(m.relay) && m.relay.life == Idle && !m.relay.on
    && Owned(m.board) && Working(m.board.port) && SomePinActive(w, m.board)
  }

  // When the failsafe is due on a relay that started waiting at 2.0.
  function FailsafeTime(cfg: Config): real { 2.0 + if cfg.failsafe < 0.0 then 0.0 else cfg.failsafe }

  function FailsafeRun(cfg: Config): seq<Event> {
    [Detect(InternalPerson, 1.0, true), Clear(InternalPerson, 2.0), Tick(FailsafeTime(cfg), true)]
  }

  lemma DetectAsks(w: Wiring, cfg: Config, b: Board)
    ensures var e := Detect(InternalPerson, 1.0, true);
            var r := Executed(w, b, true, false, cfg.retries);
            MachineStep(w, cfg, Machine(Created(1.0), b), e) ==
            Machine(Relay(Active, r.ok, 1.0, 1.0 + cfg.timeout, 1.0, {InternalPerson}, map[InternalPerson := 1.0]),
                    r.board)
  {
    hide Executed;
  }

  lemma ClearWaits(w: Wiring, cfg: Config, b: Board)
    ensures var s := Relay(Active, true, 1.0, 1.0 + cfg.timeout, 1.0, {InternalPerson}, map[InternalPerson := 1.0]);
            MachineStep(w, cfg, Machine(s, b), Clear(InternalPerson, 2.0)) ==
            Machine(Relay(WaitingOff, true, 1.0, 2.0 + cfg.timeout, 2.0, {}, map[]), b)
  {
    var s := Relay(Active, true, 1.0, 1.0 + cfg.timeout, 1.0, {InternalPerson}, map[InternalPerson := 1.0]);
    assert s.sources - {InternalPerson} == {} && s.lastEvent - {InternalPerson} == map[];
  }

  lemma FailsafeFires(w: Wiring, cfg: Config, b: Board)
    ensures var s := Relay(WaitingOff, true, 1.0, 2.0 + cfg.timeout, 2.0, {}, map[]);
            var r := Executed(w, b, false, true, cfg.retries);
            MachineStep(w, cfg, Machine(s, b), Tick(FailsafeTime(cfg), true)) ==
            Machine(Relay(Idle, !r.ok, 1.0, 0.0, FailsafeTime(cfg), {}, map[]), r.board)
  {
    hide Executed;
    var s := Relay(WaitingOff, true, 1.0, 2.0 + cfg.timeout, 2.0, {}, map[]);
    assert Expired(cfg, s, FailsafeTime(cfg)) == s;
  }

  lemma ThreeSteps(w: Wiring, cfg: Config, m: Machine, e: Event, f: Event, g: Event)
    ensures MachineRun(w, cfg, m, [e, f, g])
         == MachineStep(w, cfg, MachineStep(w, cfg, MachineStep(w, cfg, m, e), f), g)
  {
    hide MachineStep;
    assert [e, f, g][1..] == [f, g] && [f, g][1..] == [g] && [g][1..] == [];
    var one := MachineStep(w, cfg, m, e);
    var two := MachineStep(w, cfg, one, f);
    assert MachineRun(w, cfg, m, [e, f, g]) == MachineRun(w, cfg, one, [f, g]) == MachineRun(w, cfg, two, [g]);
    assert MachineRun(w, cfg, two, [g]) == MachineRun(w, cfg, MachineStep(w, cfg, two, g), []);
  }

  lemma HiddenOffIsUnused(w: Wiring)
    requires w.Distinct()
    ensures Unused(w, HiddenOff(w)) && Within(HiddenOff(w).port, Faults(true, true, false)) && Owned(HiddenOn(w))
  {}

  // Hidden by missing readings: the failsafe's own OFF write is reported.
  lemma MissingReadsStick(w: Wiring, cfg: Config)
    requires w.Distinct() && 1 <= cfg.retries
    ensures Unused(w, HiddenOff(w)) && Within(HiddenOff(w).port, Faults(true, true, false))
    ensures SilentlyOn(w, MachineRun(w, cfg, Machine(Created(1.0), HiddenOff(w)), FailsafeRun(cfg)))
  {
    hide Executed, HiddenOff, HiddenOn, MachineStep, MachineRun, FailsafeTime, Within, Unused;
    HiddenOffIsUnused(w);
    DetectAsks(w, cfg, HiddenOff(w));
    HiddenTurnsOn(w, cfg.retries);
    HiddenTurnsOff(w, cfg.retries);
    ClearWaits(w, cfg, HiddenOn(w));
    FailsafeFires(w, cfg, HiddenOn(w));
    ExecutedReaches(w, HiddenOn(w), false, true, cfg.retries, NO_FAULTS);
    var es := FailsafeRun(cfg);
    ThreeSteps(w, cfg, Machine(Created(1.0), HiddenOff(w)), es[0], es[1], es[2]);
  }

  // A detection whose ON write is not reported, and its clear.
  lemma UnreportedOnSticks(w: Wiring, cfg: Config, b: Board)
    requires var r := Executed(w, b, true, false, cfg.retries);
             !r.ok && Owned(r.board) && Working(r.board.port) && SomePinActive(w, r.board)
    ensures var es := [Detect(InternalPerson, 1.0, true), Clear(InternalPerson, 2.0)];
            SilentlyOn(w, MachineRun(w, cfg, Machine(Created(1.0), b), es))
  {
    DetectAsks(w, cfg, b);
    hide Executed, SomePinActive;
    var es := [Detect(InternalPerson, 1.0, true), Clear(InternalPerson, 2.0)];
    var m := Machine(Created(1.0), b);
    assert es[1..] == [es[1]] && es[1..][1..] == [];
    var one := MachineStep(w, cfg, m, es[0]);
    var two := MachineStep(w, cfg, one, es[1]);
    assert two.relay.sources == {} && !two.relay.on && two.relay.life == Idle && two.board == one.board;
    assert two.relay.lastEvent == map[];
    assert MachineRun(w, cfg, m, es) == MachineRun(w, cfg, one, [es[1]]) == MachineRun(w, cfg, two, []);
  }

  lemma OneAttemptSticks(w: Wiring, cfg: Config)
    requires w.Distinct() && cfg.retries == 1
    ensures Unused(w, HalfDriven(w)) && Within(HalfDriven(w).port, WRITE_FAULTS)
    ensures var es := [Detect(InternalPerson, 1.0, true), Clear(InternalPerson, 2.0)];
            SilentlyOn(w, MachineRun(w, cfg, Machine(Created(1.0), HalfDriven(w)), es))
  {
    HalfDrivenFails(w);
    hide Executed, HalfDriven;
    assert Owned(HalfDriven(w));
    ExecutedReaches(w, HalfDriven(w), true, false, 1, NO_FAULTS);
    UnreportedOnSticks(w, cfg, HalfDriven(w));
  }

  lemma WrongOnIsUnused(w: Wiring, n: nat)
    requires w.Distinct()
    ensures Unused(w, WrongOn(w, n)) && Owned(WrongOn(w, n)) && Within(WrongOn(w, n).port, Faults(false, false, true))
  {}

  lemma WrongReadsStick(w: Wiring, cfg: Config)
    requires w.Distinct() && 1 <= cfg.retries
    ensures Unused(w, WrongOn(w, cfg.retries)) && Within(WrongOn(w, cfg.retries).port, Faults(false, false, true))
    ensures var es := [Detect(InternalPerson, 1.0, true), Clear(InternalPerson, 2.0)];
            SilentlyOn(w, MachineRun(w, cfg, Machine(Created(1.0), WrongOn(w, cfg.retries)), es))
  {
    WrongOnIsUnused(w, cfg.retries);
    hide Executed, WrongOn, Within, Unused;
    WrongOnFails(w, cfg.retries);
    ExecutedReaches(w, WrongOn(w, cfg.retries), true, false, cfg.retries, NO_FAULTS);
    UnreportedOnSticks(w, cfg, WrongOn(w, cfg.retries));
  }

  lemma RunsAreTimed(cfg: Config)
    ensures Timed([Detect(InternalPerson, 1.0, true), Clear(InternalPerson, 2.0)], 1.0, FailsafeTime(cfg))
    ensures Timed(FailsafeRun(cfg), 1.0, FailsafeTime(cfg))
  {
    var end := FailsafeTime(cfg);
    var d, c, t := Detect(InternalPerson, 1.0, true), Clear(InternalPerson, 2.0), Tick(end, true);
    assert [d, c][1..] == [c] && [d, c, t][1..] == [c, t] && [c, t][1..] == [t];
    assert Timed([c], 1.0, end) && Timed([t], 2.0, end) && Timed([c, t], 1.0, end);
  }

  // Whenever the belief cannot be trusted, for every wiring and configuration, some run of
  // such faults ends silently on.
  lemma UntrustedSticks(w: Wiring, cfg: Config, f: Faults) returns (b: Board, es: seq<Event>)
    requires w.Distinct() && !Trusted(cfg, f)
    ensures Unused(w, b) && Within(b.port, f) && Timed(es, 1.0, FailsafeTime(cfg))
    ensures SilentlyOn(w, MachineRun(w, cfg, Machine(Created(1.0), b), es))
  {
    hide SilentlyOn, MachineRun, HiddenOff, HalfDriven, WrongOn;
    RunsAreTimed(cfg);
    es := [Detect(InternalPerson, 1.0, true), Clear(InternalPerson, 2.0)];
    if f.wrong {
      WrongReadsStick(w, cfg);
      b := WrongOn(w, cfg.retries);
    } else if f.missing {
      MissingReadsStick(w, cfg);
      b, es := HiddenOff(w), FailsafeRun(cfg);
    } else {
      OneAttemptSticks(w, cfg);
      b := HalfDriven(w);
    }
  }

  // Exactly which faults a belief in OFF survives: none of the readings wrong, and either
  // every write landing, or every reading there and two attempts or more.
  lemma NeverSilentlyOnExactlyWhen(w: Wiring, cfg: Config, f: Faults)
    requires w.Distinct()
    ensures NeverSilentlyOn(w, cfg, f) <==>
            cfg.retries <= 0 || (!f.wrong && (!f.writes || (!f.missing && 2 <= cfg.retries)))
  {
    hide Within, MachineRun, Unused;
    if Trusted(cfg, f) {
      forall b: Board, start: real, es: seq<Event> | Unused(w, b) && Within(b.port, f)
        ensures var r := MachineRun(w, cfg, Machine(Created(start), b), es); !r.relay.on ==> !SomePinActive(w, r.board)
      {
        RestIsKept(w, cfg, f, b, start);
        RunStaysKept(w, cfg, f, Machine(Created(start), b), es);
      }
    } else {
      var b, es := UntrustedSticks(w, cfg, f);
      assert !MachineRun(w, cfg, Machine(Created(1.0), b), es).relay.on;
    }
  }
}
