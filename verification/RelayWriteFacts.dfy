// What a verified relay write guarantees, under faults and on working hardware.
module RelayWriteFacts {
  import opened Common
  import opened GpioPort
  import opened RelayBoard
  import opened RelayBoardFacts
  import opened SecurityRelay

  // ---- arbitrary write faults, truthful readback ----

  ghost predicate Readable(b: Board) { b.enabled && FaithfulReads(b.port) }

  // One faulty write: no other pin moves, and this one either keeps its level or reaches
  // the target, in which case nothing was raised.
  ghost predicate Written(w: Wiring, b: Board, o: Outcome, pin: int, active: bool) {
    && Readable(o.board) && o.board == b.(port := o.board.port)
    && (forall other :: other != pin ==> LevelOf(o.board.port, other) == LevelOf(b.port, other))
    && (PinActive(w, o.board, pin) == PinActive(w, b, pin) || (PinActive(w, o.board, pin) == active && !o.raised))
  }

  lemma OneOutput(w: Wiring, b: Board, pin: int, active: bool)
    requires Readable(b)
    ensures var (sent, raised) := Output(b.port, pin, w.LevelFor(active));
            && Written(w, b, Outcome(b.(port := sent), raised), pin, active)
            && (!raised ==> var read := b.(port := Input(sent, pin).0);
                            && Readable(read) && Written(w, b, Outcome(read, false), pin, active)
                            && Input(sent, pin).1 == Some(LevelOf(read.port, pin)))
  {
    hide Input;
    var sent := Output(b.port, pin, w.LevelFor(active)).0;
    assert FaithfulReads(sent);
    OneInput(sent, pin);
  }

  lemma WrittenTwice(w: Wiring, b: Board, c: Board, o: Outcome, pin: int, active: bool)
    requires Written(w, b, Outcome(c, false), pin, active) && Written(w, c, o, pin, active)
    requires PinActive(w, c, pin) != active
    ensures Written(w, b, o, pin, active)
  {}

  lemma OneInput(p: Port, pin: int)
    requires FaithfulReads(p)
    ensures var (next, seen) := Input(p, pin);
            FaithfulReads(next) && next.levels == p.levels && seen == Some(LevelOf(p, pin))
  {}

  lemma {:induction false} AttemptsWrite(w: Wiring, b: Board, pin: int, active: bool, n: nat)
    requires Readable(b)
    ensures Written(w, b, WriteAttempts(w, b, pin, active, n), pin, active)
    decreases n
  {
    if n != 0 {
      hide Output, Input, Written, Readable;
      OneOutput(w, b, pin, active);
      var (sent, raised) := Output(b.port, pin, w.LevelFor(active));
      if !raised {
        var read := b.(port := Input(sent, pin).0);
        if PinActive(w, read, pin) != active {
          AttemptsWrite(w, read, pin, active, n - 1);
          WrittenTwice(w, b, read, WriteAttempts(w, read, pin, active, n - 1), pin, active);
        }
      }
    } else {
      assert WriteAttempts(w, b, pin, active, n) == Outcome(b, false);
    }
  }

  lemma FaultyWrite(w: Wiring, b: Board, pin: int, active: bool)
    requires Readable(b)
    ensures Written(w, b, PinWritten(w, b, pin, active), pin, active)
  {
    AttemptsWrite(w, b, pin, active, w.writeRetries);
  }

  lemma ApplyKeepsReadable(w: Wiring, b: Board)
    requires Readable(b)
    ensures var c := BothApplied(w, b).board;
            Readable(c) && c.red == b.red && c.buzzer == b.buzzer
  {
    hide PinWritten;
    FaultyWrite(w, b.(redOn := b.red != {}), w.red, b.red != {});
    var half := RedApplied(w, b).board;
    FaultyWrite(w, half.(buzzerOn := b.buzzer != {}), w.buzzer, b.buzzer != {});
  }

  lemma ForceKeepsReadable(w: Wiring, b: Board)
    requires Readable(b)
    ensures Readable(ForcedOff(w, b))
  {
    hide PinWritten, RedApplied, BuzzerApplied;
    var cut := b.(red := b.red - {SECURITY}, buzzer := b.buzzer - {SECURITY});
    ApplyKeepsReadable(w, cut);
    var c := BothApplied(w, cut).board;
    FaultyWrite(w, c.(redOn := false), w.red, false);
    var d := if c.red == {} then PinWritten(w, c.(redOn := false), w.red, false).board else c;
    FaultyWrite(w, d.(buzzerOn := false), w.buzzer, false);
  }

  ghost predicate SomePinActive(w: Wiring, b: Board) {
    PinActive(w, b, w.red) || PinActive(w, b, w.buzzer)
  }

  lemma AttemptIsTruthful(w: Wiring, b: Board, active: bool, force: bool)
    requires Readable(b)
    ensures var (c, seen) := Attempted(w, b, active, force);
            Readable(c) && (seen.Some? ==> seen.value == SomePinActive(w, c))
  {
    hide BothApplied, ForcedOff, RelaysRead;
    ApplyKeepsReadable(w, b.(red := Toggle(b.red, SECURITY, active), buzzer := Toggle(b.buzzer, SECURITY, active)));
    ForceKeepsReadable(w, b);
    var sent := if !active && force then ForcedOff(w, b) else SecuritySet(w, b, active).board;
    WorkingReadout(w, sent);
  }

  lemma {:induction false} RetriesAreTruthful(w: Wiring, b: Board, active: bool, force: bool, n: nat)
    requires Readable(b)
    ensures var r := Retried(w, b, active, force, n);
            Readable(r.board) && (r.ok ==> SomePinActive(w, r.board) == active)
    decreases n
  {
    hide Attempted;
    if n != 0 {
      AttemptIsTruthful(w, b, active, force);
      RetriesAreTruthful(w, Attempted(w, b, active, force).0, active, force, n - 1);
    }
  }

  // Whatever writes were lost or raised: a reported OFF left both pins inactive, a
  // reported ON left at least one active.
  lemma ReportsAreTruthful(w: Wiring, b: Board, active: bool, force: bool, retries: int)
    requires Readable(b)
    ensures var r := Executed(w, b, active, force, retries);
            r.ok ==> SomePinActive(w, r.board) == active
  {
    hide Retried, ForcedOff, RelaysRead;
    var n := if retries < 0 then 0 else retries;
    RetriesAreTruthful(w, b, active, force, n);
    var r := Retried(w, b, active, force, n);
    ForceKeepsReadable(w, r.board);
    WorkingReadout(w, ForcedOff(w, r.board));
  }

  // ON is verified as an OR: on any wiring, when the red write lands and every buzzer
  // write is lost, ON is still reported.
  lemma OnReportMayMissTheBuzzer(w: Wiring, b: Board, retries: int)
    requires w.Distinct() && 1 <= retries && AtRest(w, b)
    requires b.port.writeFates == [Lands] + Losses(w.writeRetries)
    ensures var r := Executed(w, b, true, false, retries);
            r.ok && PinActive(w, r.board, w.red) && !PinActive(w, r.board, w.buzzer)
  {
    hide RelaysRead, BuzzerApplied;
    var s := b.(red := {SECURITY}, buzzer := {SECURITY});
    assert b.red + {SECURITY} == s.red && b.buzzer + {SECURITY} == s.buzzer;
    var landed := Output(b.port, w.red, w.LevelFor(true)).0;
    OneInput(landed, w.red);
    var half := s.(redOn := true, port := Input(landed, w.red).0);
    assert RedApplied(w, s) == Outcome(half, false);
    BuzzerIsLost(w, half);
    WorkingReadout(w, SecuritySet(w, b, true).board);
  }

  lemma BuzzerIsLost(w: Wiring, b: Board)
    requires Readable(b) && b.buzzer != {} && !b.buzzerOn && !PinActive(w, b, w.buzzer)
    requires b.port.writeFates == Losses(w.writeRetries)
    ensures var o := BuzzerApplied(w, b);
            !o.raised && Readable(o.board) && o.board.port.levels == b.port.levels
  {
    LossesChangeNothing(w, b.(buzzerOn := true), w.buzzer, w.writeRetries);
  }

  // A started board nobody uses: flags off, both pins inactive, whatever faults lie ahead.
  ghost predicate Unused(w: Wiring, b: Board) {
    && b.enabled && b.red == {} && b.buzzer == {} && !b.redOn && !b.buzzerOn
    && !PinActive(w, b, w.red) && !PinActive(w, b, w.buzzer)
  }

  ghost predicate AtRest(w: Wiring, b: Board) { Unused(w, b) && FaithfulReads(b.port) }

  function Losses(n: nat): (fates: seq<WriteFate>)
    ensures |fates| == n
  {
    seq(n, _ => Lost)
  }

  lemma {:induction false} LossesChangeNothing(w: Wiring, b: Board, pin: int, n: nat)
    requires Readable(b) && !PinActive(w, b, pin) && b.port.writeFates == Losses(n)
    ensures var o := WriteAttempts(w, b, pin, true, n);
            && !o.raised && Readable(o.board) && o.board == b.(port := o.board.port)
            && o.board.port.levels == b.port.levels
    decreases n
  {
    if n != 0 {
      var (sent, _) := Output(b.port, pin, w.LevelFor(true));
      var (read, _) := Input(sent, pin);
      assert FaithfulReads(sent) && FaithfulReads(read);
      assert sent.writeFates == Losses(n - 1);
      LossesChangeNothing(w, b.(port := read), pin, n - 1);
    }
  }

  // A write keeps trying: it reaches its target exactly when fewer writes are lost in a row
  // than it has attempts.
  lemma {:induction false} LostAttempts(w: Wiring, b: Board, pin: int, active: bool, lost: nat, n: nat)
    requires Readable(b) && PinActive(w, b, pin) != active && b.port.writeFates == Losses(lost)
    ensures var o := WriteAttempts(w, b, pin, active, n);
            !o.raised && (PinActive(w, o.board, pin) == active <==> lost < n)
    decreases n
  {
    if n != 0 {
      var (sent, _) := Output(b.port, pin, w.LevelFor(active));
      assert FaithfulReads(sent);
      OneInput(sent, pin);
      if lost != 0 {
        assert sent.writeFates == Losses(lost - 1);
        LostAttempts(w, b.(port := Input(sent, pin).0), pin, active, lost - 1, n - 1);
      }
    }
  }

  lemma LostWritesAreRetried(w: Wiring, b: Board, pin: int, active: bool, lost: nat)
    requires Readable(b) && PinActive(w, b, pin) != active && b.port.writeFates == Losses(lost)
    ensures PinActive(w, PinWritten(w, b, pin, active).board, pin) == active <==> lost < w.writeRetries
  {
    LostAttempts(w, b, pin, active, lost, w.writeRetries);
  }

  // A red write that raises ends the call before the buzzer is touched: in an alert, and in
  // the force path, whose direct writes are then skipped too.
  lemma RaisedRedEndsCall(w: Wiring, b: Board, source: string)
    requires b.enabled && b.port.writeFates != [] && b.port.writeFates[0] == WriteRaises
    ensures b.red == {} && !b.redOn ==>
              var o := AlertSet(w, b, source, true);
              o.raised && o.board.buzzer == b.buzzer && o.board.buzzerOn == b.buzzerOn
              && o.board.port.levels == b.port.levels
    ensures b.red <= {SECURITY} && b.redOn ==>
              var c := ForcedOff(w, b);
              c.port.levels == b.port.levels && c.port.writeFates == b.port.writeFates[1..] && c.buzzerOn == b.buzzerOn
              && !c.redOn && SECURITY !in c.red && SECURITY !in c.buzzer
  {
    assert source in b.red + {source};
    assert b.red <= {SECURITY} ==> b.red - {SECURITY} == {};
  }

  // The force path first starts a stopped controller: if that succeeds, every channel ends
  // off and nobody holds an output.
  lemma ForceStarts(w: Wiring, b: Board)
    requires !b.enabled && Working(b.port) && b.port.startFates != [] && b.port.startFates[0] == Up
    ensures var c := ForcedOff(w, b);
            && c.enabled && c.red == {} && c.buzzer == {} && !SomePinActive(w, c)
            && (w.Distinct() ==> !PinActive(w, c, w.locker) && !PinActive(w, c, w.green))
  {
    hide PinWritten;
    StartedIsMirrored(w, b);
    var s := Started(w, b);
    assert s.red - {SECURITY} == {} && s.buzzer - {SECURITY} == {};
    ForceReachesPins(w, s);
    if w.Distinct() { WorkingForce(w, s); }
  }

  // Without a GPIO backend the flags stand in for the pins: writes change nothing else, and
  // are reported from them.
  lemma DryRunFollowsFlags(w: Wiring, b: Board, retries: int)
    requires !b.enabled && 1 <= retries
    ensures var r := Executed(w, b, true, false, retries);
            && r.ok && r.board.redOn && r.board.buzzerOn && r.board.port == b.port && !r.board.enabled
            && SECURITY in r.board.red && SECURITY in r.board.buzzer
    ensures b.red <= {SECURITY} && b.buzzer <= {SECURITY} ==>
              var r := Executed(w, b, false, false, retries);
              r.ok && !r.board.redOn && !r.board.buzzerOn && r.board.port == b.port && !r.board.enabled
  {
    assert SECURITY in b.red + {SECURITY} && SECURITY in b.buzzer + {SECURITY};
    var cut := b.(red := b.red - {SECURITY}, buzzer := b.buzzer - {SECURITY});
    if b.red <= {SECURITY} && b.buzzer <= {SECURITY} {
      assert cut.red == {} && cut.buzzer == {};
      assert Attempted(w, b, false, false) == (cut.(redOn := false, buzzerOn := false), Some(false));
    }
  }

  // With no attempts configured ON and a forced OFF do nothing; a plain OFF still gets its
  // last forced try.
  lemma NoAttempts(w: Wiring, b: Board, retries: int)
    requires retries <= 0
    ensures Executed(w, b, true, false, retries) == WriteResult(b, false)
    ensures Executed(w, b, false, true, retries) == WriteResult(b, false)
    ensures b.enabled && Working(b.port) && b.red <= {SECURITY} && b.buzzer <= {SECURITY} ==>
              var r := Executed(w, b, false, false, retries);
              r.ok && !SomePinActive(w, r.board)
  {
    if b.enabled && Working(b.port) && b.red <= {SECURITY} && b.buzzer <= {SECURITY} {
      hide Executed;
      OffAlwaysRecovers(w, b, false, retries);
    }
  }

  // ---- recovery after faults ----

  // Once both outputs are flagged on, an ON command writes no pin: a relay that missed
  // its write stays off through every later ON, however healthy the hardware now is.
  lemma {:induction false} OnNeverRewritten(w: Wiring, b: Board, n: nat)
    requires Readable(b) && b.redOn && b.buzzerOn && !SomePinActive(w, b)
    ensures var r := Retried(w, b, true, false, n);
            !r.ok && r.board.port.levels == b.port.levels && r.board.redOn && r.board.buzzerOn
            && (Working(b.port) ==> Working(r.board.port))
    decreases n
  {
    if n != 0 {
      var s := b.(red := b.red + {SECURITY}, buzzer := b.buzzer + {SECURITY});
      assert SECURITY in s.red && SECURITY in s.buzzer;
      assert SecuritySet(w, b, true) == Outcome(s, false);
      WorkingReadout(w, s);
      OnNeverRewritten(w, RelaysRead(w, s).0, n - 1);
    }
  }

  // One ON attempt on working hardware: each pin ends active unless its flag was already
  // set while the pin was not.
  lemma OnAttemptDrives(w: Wiring, b: Board)
    requires w.Distinct() && b.enabled && Working(b.port)
    ensures var (c, seen) := Attempted(w, b, true, false);
            && Readable(c) && Working(c.port) && c.redOn && c.buzzerOn && seen == Some(SomePinActive(w, c))
            && (PinActive(w, c, w.red) <==> !b.redOn || PinActive(w, b, w.red))
            && (PinActive(w, c, w.buzzer) <==> !b.buzzerOn || PinActive(w, b, w.buzzer))
  {
    hide PinWritten, RelaysRead;
    var s := b.(red := b.red + {SECURITY}, buzzer := b.buzzer + {SECURITY});
    assert SECURITY in s.red && SECURITY in s.buzzer;
    WorkingWrite(w, s.(redOn := true), w.red, true);
    var half := RedApplied(w, s).board;
    WorkingWrite(w, half.(buzzerOn := true), w.buzzer, true);
    WorkingReadout(w, SecuritySet(w, b, true).board);
  }

  // On hardware that works again, whatever flags and pins the faults left: exactly which
  // pins an ON write reaches, and that its report tells no more than that one of them is on.
  lemma OnDrivesExactlyWhen(w: Wiring, b: Board, retries: int)
    requires w.Distinct() && b.enabled && Working(b.port) && 1 <= retries
    ensures var r := Executed(w, b, true, false, retries);
            && (PinActive(w, r.board, w.red) <==> !b.redOn || PinActive(w, b, w.red))
            && (PinActive(w, r.board, w.buzzer) <==> !b.buzzerOn || PinActive(w, b, w.buzzer))
            && (r.ok <==> PinActive(w, r.board, w.red) || PinActive(w, r.board, w.buzzer))
            && Working(r.board.port)
  {
    hide Attempted;
    OnAttemptDrives(w, b);
    var c := Attempted(w, b, true, false).0;
    if !SomePinActive(w, c) { OnNeverRewritten(w, c, retries - 1); }
  }

  // So an ON write is reported exactly when...
  lemma OnReportedExactlyWhen(w: Wiring, b: Board, retries: int)
    requires w.Distinct() && b.enabled && Working(b.port) && 1 <= retries
    ensures Executed(w, b, true, false, retries).ok
       <==> !b.redOn || !b.buzzerOn || SomePinActive(w, b)
  {
    hide Executed;
    OnDrivesExactlyWhen(w, b, retries);
  }

  // ...and has driven both relays exactly when neither flag is ahead of its pin.
  lemma OnDrivesBothExactlyWhen(w: Wiring, b: Board, retries: int)
    requires w.Distinct() && b.enabled && Working(b.port) && 1 <= retries
    ensures var r := Executed(w, b, true, false, retries);
            (PinActive(w, r.board, w.red) && PinActive(w, r.board, w.buzzer)
             <==> (!b.redOn || PinActive(w, b, w.red)) && (!b.buzzerOn || PinActive(w, b, w.buzzer)))
  {
    hide Executed;
    OnDrivesExactlyWhen(w, b, retries);
  }

  // The direct force path reaches both pins from any flags and pins.
  lemma ForceReachesPins(w: Wiring, b: Board)
    requires b.enabled && Working(b.port) && b.red <= {SECURITY} && b.buzzer <= {SECURITY}
    ensures var c := ForcedOff(w, b);
            c.enabled && Working(c.port) && !SomePinActive(w, c) && c.red == {} && c.buzzer == {}
  {
    hide PinWritten;
    var cut := b.(red := b.red - {SECURITY}, buzzer := b.buzzer - {SECURITY});
    assert cut.red == {} && cut.buzzer == {};
    WorkingWrite(w, cut.(redOn := false), w.red, false);
    var half := RedApplied(w, cut).board;
    WorkingWrite(w, half.(buzzerOn := false), w.buzzer, false);
    var c := BothApplied(w, cut).board;
    WorkingWrite(w, c.(redOn := false), w.red, false);
    WorkingWrite(w, PinWritten(w, c.(redOn := false), w.red, false).board.(buzzerOn := false), w.buzzer, false);
  }

  lemma OffAttemptWorks(w: Wiring, b: Board, force: bool)
    requires b.enabled && Working(b.port) && b.red <= {SECURITY} && b.buzzer <= {SECURITY}
    ensures var (c, seen) := Attempted(w, b, false, force);
            && c.enabled && Working(c.port) && c.red == {} && c.buzzer == {}
            && seen == Some(SomePinActive(w, c)) && (force ==> !SomePinActive(w, c))
  {
    hide PinWritten, ForcedOff;
    ForceReachesPins(w, b);
    var s := b.(red := b.red - {SECURITY}, buzzer := b.buzzer - {SECURITY});
    assert s.red == {} && s.buzzer == {};
    WorkingWrite(w, s.(redOn := false), w.red, false);
    var half := RedApplied(w, s).board;
    WorkingWrite(w, half.(buzzerOn := false), w.buzzer, false);
    WorkingReadout(w, SecuritySet(w, b, false).board);
    WorkingReadout(w, ForcedOff(w, b));
  }

  lemma {:induction false} OffRetriesWork(w: Wiring, b: Board, force: bool, n: nat)
    requires b.enabled && Working(b.port) && b.red <= {SECURITY} && b.buzzer <= {SECURITY}
    ensures var r := Retried(w, b, false, force, n);
            && r.board.enabled && Working(r.board.port)
            && r.board.red <= {SECURITY} && r.board.buzzer <= {SECURITY}
            && (r.ok ==> !SomePinActive(w, r.board)) && (force && n != 0 ==> r.ok)
    decreases n
  {
    hide Attempted;
    if n != 0 {
      OffAttemptWorks(w, b, force);
      OffRetriesWork(w, Attempted(w, b, false, force).0, force, n - 1);
    }
  }

  // OFF does better: with no other user of the outputs it succeeds from every
  // combination of flags and pins earlier faults may have left.
  lemma OffAlwaysRecovers(w: Wiring, b: Board, force: bool, retries: int)
    requires b.enabled && Working(b.port) && b.red <= {SECURITY} && b.buzzer <= {SECURITY}
    requires force ==> 1 <= retries
    ensures var r := Executed(w, b, false, force, retries);
            r.ok && !PinActive(w, r.board, w.red) && !PinActive(w, r.board, w.buzzer)
  {
    hide Retried, ForcedOff, RelaysRead;
    var n := if retries < 0 then 0 else retries;
    OffRetriesWork(w, b, force, n);
    var r := Retried(w, b, false, force, n);
    ForceReachesPins(w, r.board);
    WorkingReadout(w, ForcedOff(w, r.board));
  }

  // ---- working hardware from a mirrored board ----

  lemma OnWorks(w: Wiring, b: Board, retries: int)
    requires w.Distinct() && Mirrored(w, b) && 1 <= retries
    ensures var r := Executed(w, b, true, false, retries);
            && r.ok && Mirrored(w, r.board)
            && PinActive(w, r.board, w.red) && PinActive(w, r.board, w.buzzer)
            && r.board.red == b.red + {SECURITY} && r.board.buzzer == b.buzzer + {SECURITY}
  {
    hide BothApplied, RelaysRead;
    BothDriven(w, b, b.red + {SECURITY}, b.buzzer + {SECURITY});
    WorkingReadout(w, SecuritySet(w, b, true).board);
  }

  lemma OffAttemptFromMirrored(w: Wiring, b: Board, force: bool)
    requires w.Distinct() && Mirrored(w, b)
    ensures var (c, seen) := Attempted(w, b, false, force);
            && Mirrored(w, c) && OthersUntouched(w, b, c)
            && c.red == b.red - {SECURITY} && c.buzzer == b.buzzer - {SECURITY}
            && seen == Some(c.red != {} || c.buzzer != {})
  {
    hide BothApplied, ForcedOff, RelaysRead;
    BothDriven(w, b, b.red - {SECURITY}, b.buzzer - {SECURITY});
    WorkingForce(w, b);
    WorkingReadout(w, SecuritySet(w, b, false).board);
    WorkingReadout(w, ForcedOff(w, b));
  }

  lemma {:induction false} OffRetriesFromMirrored(w: Wiring, b: Board, force: bool, n: nat)
    requires w.Distinct() && Mirrored(w, b)
    ensures var r := Retried(w, b, false, force, n);
            && Mirrored(w, r.board) && OthersUntouched(w, b, r.board)
            && r.board.red - {SECURITY} == b.red - {SECURITY} && r.board.buzzer - {SECURITY} == b.buzzer - {SECURITY}
            && (n != 0 ==> SECURITY !in r.board.red && SECURITY !in r.board.buzzer)
            && (r.ok <==> n != 0 && b.red <= {SECURITY} && b.buzzer <= {SECURITY})
    decreases n
  {
    hide Attempted;
    if n != 0 {
      OffAttemptFromMirrored(w, b, force);
      var c := Attempted(w, b, false, force).0;
      assert c.red == {} <==> b.red <= {SECURITY};
      assert c.buzzer == {} <==> b.buzzer <= {SECURITY};
      OffRetriesFromMirrored(w, c, force, n - 1);
    }
  }

  // An OFF write clears the security source on both outputs, leaves every other holder
  // (and the locker and green pins) alone, and succeeds iff there is no other holder.
  lemma OffWorksIffUnshared(w: Wiring, b: Board, force: bool, retries: int)
    requires w.Distinct() && Mirrored(w, b) && (force ==> 1 <= retries)
    ensures var r := Executed(w, b, false, force, retries);
            && (r.ok <==> b.red <= {SECURITY} && b.buzzer <= {SECURITY})
            && Mirrored(w, r.board) && OthersUntouched(w, b, r.board)
            && r.board.red == b.red - {SECURITY} && r.board.buzzer == b.buzzer - {SECURITY}
            && (PinActive(w, r.board, w.red) <==> b.red - {SECURITY} != {})
            && (PinActive(w, r.board, w.buzzer) <==> b.buzzer - {SECURITY} != {})
  {
    hide Retried, ForcedOff, RelaysRead;
    var n := if retries < 0 then 0 else retries;
    OffRetriesFromMirrored(w, b, force, n);
    var r := Retried(w, b, false, force, n);
    WorkingForce(w, r.board);
    WorkingReadout(w, ForcedOff(w, r.board));
  }
}
