// Scanner threads, validation workers, the unlock worker and every other caller of the
// relay controller, interleaved at will.
module UnlockCycle {
  import opened Common
  import opened GpioPort
  import opened RelayBoard
  import opened RelayBoardFacts
  import opened QrScanner

  // A validation worker: waiting for the backend, or past it with its key still held.
  datatype Scan = Scan(key: string, answered: bool)

  // The unlock worker's next action.
  datatype Phase = DropAlert | LightGreen | Unlock | Hold | Relock | DarkenGreen | Finish

  datatype Cycle = Cycle(phase: Phase, seconds: real)

  datatype Reservation = Reservation(key: string, at: real)

  datatype Desk = Desk(tokens: Tokens, live: seq<Scan>, history: seq<Reservation>, accepted: nat,
                       running: bool, board: Board, workers: seq<Cycle>, cycles: nat)

  function Opening(b: Board): Desk { Desk(NO_TOKENS, [], [], 0, false, b, [], 0) }

  datatype Step =
    | Decode(key: string, at: real)              // a decoded QR value asks for its token
    | Answer(scan: nat, response: Option<Json>)  // the backend answers; None when the call raised
    | EndScan(scan: nat)                         // the validation worker's finally block
    | Work(worker: nat)                          // one action of an unlock worker
    | Call(op: Op)                               // another caller of the relay controller

  predicate Enabled(s: Desk, step: Step) {
    match step
    case Decode(_, _) => true
    case Answer(i, _) => i < |s.live| && !s.live[i].answered
    case EndScan(i) => i < |s.live| && s.live[i].answered
    case Work(i) => i < |s.workers|
    case Call(op) => !op.Locker?
  }

  // qr_success: ignored while a cycle runs, else one new worker.
  function Pulsed(s: Desk, seconds: real): Desk {
    if s.running then s
    else s.(running := true, cycles := s.cycles + 1,
            workers := s.workers + [Cycle(DropAlert, if seconds < 0.1 then 0.1 else seconds)])
  }

  const QR_FAILURE := "qr_failure"

  // What each action asks of the controller.
  function Acted(w: Wiring, b: Board, phase: Phase): Outcome {
    match phase
    case DropAlert => AlertCleared(w, b, QR_FAILURE)
    case LightGreen => GreenSet(w, b, true)
    case Unlock => LockerSet(w, b, true)
    case Hold => Outcome(b, false)
    case Relock => LockerSet(w, b, false)
    case DarkenGreen => GreenSet(w, b, false)
    case Finish => Outcome(b, false)
  }

  // Any action that raises before the hold ends goes straight to relocking; a failed
  // relock skips the green LED.
  function NextPhase(phase: Phase, raised: bool): Phase {
    match phase
    case DropAlert => if raised then Relock else LightGreen
    case LightGreen => if raised then Relock else Unlock
    case Unlock => if raised then Relock else Hold
    case Hold => Relock
    case Relock => if raised then Finish else DarkenGreen
    case DarkenGreen => Finish
    case Finish => Finish
  }

  function Worked(w: Wiring, s: Desk, i: nat): Desk
    requires i < |s.workers|
  {
    var phase := s.workers[i].phase;
    if phase == Finish then
      s.(running := false, workers := s.workers[..i] + s.workers[i + 1..])
    else
      var o := Acted(w, s.board, phase);
      s.(board := o.board, workers := s.workers[i := s.workers[i].(phase := NextPhase(phase, o.raised))])
  }

  function Answered(cfg: Config, s: Desk, i: nat, response: Option<Json>): Desk
    requires i < |s.live|
  {
    var t := s.(live := s.live[i := s.live[i].(answered := true)]);
    if response.Some? && ShouldOpen(response.value)
    then Pulsed(t.(accepted := t.accepted + 1), UnlockSeconds(response.value, cfg.defaultUnlock) as real)
    else t
  }

  function Stepped(w: Wiring, cfg: Config, s: Desk, step: Step): Desk
    requires Enabled(s, step)
  {
    match step
    case Decode(key, at) =>
      var (tokens, ok) := Reserved(cfg, s.tokens, key, at);
      if ok then s.(tokens := tokens, live := s.live + [Scan(key, false)],
                    history := s.history + [Reservation(key, at)])
      else s.(tokens := tokens)
    case Answer(i, response) => Answered(cfg, s, i, response)
    case EndScan(i) =>
      s.(tokens := Released(s.tokens, s.live[i].key), live := s.live[..i] + s.live[i + 1..])
    case Work(i) => Worked(w, s, i)
    case Call(op) => s.(board := Applied(w, s.board, op).board)
  }

  ghost predicate Schedule(w: Wiring, cfg: Config, s: Desk, steps: seq<Step>)
    decreases |steps|
  {
    steps == [] || (Enabled(s, steps[0]) && Schedule(w, cfg, Stepped(w, cfg, s, steps[0]), steps[1..]))
  }

  function Ran(w: Wiring, cfg: Config, s: Desk, steps: seq<Step>): Desk
    requires Schedule(w, cfg, s, steps)
    decreases |steps|
  {
    if steps == [] then s else Ran(w, cfg, Stepped(w, cfg, s, steps[0]), steps[1..])
  }

  // ---- in-flight keys ----

  // Live workers hold distinct keys, and exactly those are in flight.
  ghost predicate KeysMatch(live: seq<Scan>, processing: set<string>) {
    && (forall i, j :: 0 <= i < j < |live| ==> live[i].key != live[j].key)
    && (forall i :: 0 <= i < |live| ==> live[i].key in processing)
    && (forall key :: key in processing ==> exists i :: 0 <= i < |live| && live[i].key == key)
  }

  lemma KeyAdded(live: seq<Scan>, processing: set<string>, key: string)
    requires KeysMatch(live, processing) && key !in processing
    ensures KeysMatch(live + [Scan(key, false)], processing + {key})
  {
    var more := live + [Scan(key, false)];
    assert more[|live|].key == key;
    forall k | k in processing ensures exists i :: 0 <= i < |more| && more[i].key == k {
      var i :| 0 <= i < |live| && live[i].key == k;
      assert more[i].key == k;
    }
  }

  lemma KeyRemoved(live: seq<Scan>, processing: set<string>, i: nat)
    requires KeysMatch(live, processing) && i < |live|
    ensures KeysMatch(live[..i] + live[i + 1..], processing - {live[i].key})
  {
    var fewer := live[..i] + live[i + 1..];
    forall j | 0 <= j < |fewer| ensures fewer[j] == live[if j < i then j else j + 1] {}
    forall k | k in processing - {live[i].key} ensures exists j :: 0 <= j < |fewer| && fewer[j].key == k {
      var j :| 0 <= j < |live| && live[j].key == k;
      assert fewer[if j < i then j else j - 1].key == k;
    }
  }

  lemma KeyAnswered(live: seq<Scan>, processing: set<string>, i: nat)
    requires KeysMatch(live, processing) && i < |live|
    ensures KeysMatch(live[i := live[i].(answered := true)], processing)
  {
    var same := live[i := live[i].(answered := true)];
    assert forall j :: 0 <= j < |live| ==> same[j].key == live[j].key;
    forall k | k in processing ensures exists j :: 0 <= j < |same| && same[j].key == k {
      var j :| 0 <= j < |live| && live[j].key == k;
      assert same[j].key == k;
    }
  }

  lemma StepKeepsKeys(w: Wiring, cfg: Config, s: Desk, step: Step)
    requires KeysMatch(s.live, s.tokens.processing) && Enabled(s, step)
    ensures var t := Stepped(w, cfg, s, step); KeysMatch(t.live, t.tokens.processing)
  {
    hide KeysMatch;
    match step
    case Decode(key, at) =>
      if Reserved(cfg, s.tokens, key, at).1 { KeyAdded(s.live, s.tokens.processing, key); }
    case Answer(i, _) => KeyAnswered(s.live, s.tokens.processing, i);
    case EndScan(i) => KeyRemoved(s.live, s.tokens.processing, i);
    case Work(_) =>
    case Call(_) =>
  }

  // ---- the unlock cycle ----

  function Waiting(live: seq<Scan>): (n: nat)
    ensures n <= |live|
    decreases |live|
  {
    if live == [] then 0 else Waiting(live[..|live| - 1]) + if live[|live| - 1].answered then 0 else 1
  }

  ghost predicate OneWorker(s: Desk) {
    && |s.workers| == (if s.running then 1 else 0)
    && (s.board.unlocked ==> s.running && (s.workers[0].phase == Hold || s.workers[0].phase == Relock))
    && (forall i :: 0 <= i < |s.workers| ==> s.workers[i].seconds >= 1.0)
  }

  ghost predicate Counted(s: Desk) {
    s.cycles <= s.accepted && s.accepted + Waiting(s.live) <= |s.history|
  }

  lemma {:induction false} WaitingConcat(a: seq<Scan>, b: seq<Scan>)
    ensures Waiting(a + b) == Waiting(a) + Waiting(b)
    decreases |b|
  {
    if b == [] {
      assert a + b == a;
    } else {
      assert (a + b)[..|a + b| - 1] == a + b[..|b| - 1];
      WaitingConcat(a, b[..|b| - 1]);
    }
  }

  lemma WaitingAt(live: seq<Scan>, i: nat)
    requires i < |live|
    ensures Waiting(live) == Waiting(live[..i] + live[i + 1..]) + if live[i].answered then 0 else 1
    ensures Waiting(live[i := live[i].(answered := true)]) == Waiting(live[..i] + live[i + 1..])
  {
    var a, b := live[..i], live[i + 1..];
    var done := live[i].(answered := true);
    assert live == a + [live[i]] + b && live[i := done] == a + [done] + b;
    WaitingConcat(a, b);
    WaitingConcat(a, [live[i]]);
    WaitingConcat(a + [live[i]], b);
    WaitingConcat(a, [done]);
    WaitingConcat(a + [done], b);
    assert [live[i]][..0] == [] && [done][..0] == [];
  }

  lemma UnlockIsAtLeastASecond(response: Json, default: int)
    ensures UnlockSeconds(response, default) >= 1
  {}

  lemma KeptStaysLocked(w: Wiring, b: Board, c: Board)
    requires LockerKept(w, b, c)
    ensures c.unlocked ==> b.unlocked
  {}

  // The locker flag after one action, raised or not.
  lemma ActMovesFlag(w: Wiring, b: Board, phase: Phase)
    requires w.Distinct()
    ensures var c := Acted(w, b, phase).board;
            if phase == Unlock then c.unlocked else if phase == Relock then !c.unlocked else c.unlocked ==> b.unlocked
  {
    hide PinWritten, BothApplied;
    OpKeepsLocker(w, b, Op.ClearAlert(QR_FAILURE));
    OpKeepsLocker(w, b, Green(phase == LightGreen));
    UnfoldWrites(w, b.(unlocked := phase == Unlock), w.locker, phase == Unlock);
  }

  lemma UnfoldWrites(w: Wiring, b: Board, pin: int, active: bool)
    ensures PinWritten(w, b, pin, active).board.unlocked == b.unlocked
  {
    WriteTouchesOnly(w, b, pin, active, w.writeRetries);
  }

  lemma StepKeepsOneWorker(w: Wiring, cfg: Config, s: Desk, step: Step)
    requires w.Distinct() && OneWorker(s) && Enabled(s, step)
    ensures OneWorker(Stepped(w, cfg, s, step))
  {
    hide UnlockSeconds, ShouldOpen, Reserved, Acted, Applied, LockerKept;
    match step
    case Decode(key, at) =>
    case Answer(i, response) =>
      if response.Some? { UnlockIsAtLeastASecond(response.value, cfg.defaultUnlock); }
    case EndScan(i) =>
    case Work(i) =>
      assert i == 0 && s.running;
      ActMovesFlag(w, s.board, s.workers[0].phase);
    case Call(op) =>
      OpKeepsLocker(w, s.board, op);
      KeptStaysLocked(w, s.board, Applied(w, s.board, op).board);
  }

  lemma StepKeepsCounts(w: Wiring, cfg: Config, s: Desk, step: Step)
    requires Counted(s) && Enabled(s, step)
    ensures Counted(Stepped(w, cfg, s, step))
  {
    hide UnlockSeconds, ShouldOpen, Reserved, Waiting;
    match step
    case Decode(key, at) => WaitingMore(s.live, key);
    case Answer(i, response) => WaitingAt(s.live, i);
    case EndScan(i) => WaitingAt(s.live, i);
    case Work(i) =>
    case Call(op) =>
  }

  lemma WaitingMore(live: seq<Scan>, key: string)
    ensures Waiting(live + [Scan(key, false)]) == Waiting(live) + 1
  {
    assert (live + [Scan(key, false)])[..|live|] == live;
  }

  // Every interleaving from start-up, whatever the hardware does: in-flight keys are
  // unique, at most one unlock worker, the locker flag up only inside a running cycle,
  // never more cycles than accepted scans, each holding a second or more.
  lemma {:induction false} RunsAreSafe(w: Wiring, cfg: Config, s: Desk, steps: seq<Step>)
    requires w.Distinct() && KeysMatch(s.live, s.tokens.processing) && OneWorker(s) && Counted(s)
    requires Schedule(w, cfg, s, steps)
    ensures var t := Ran(w, cfg, s, steps);
            && KeysMatch(t.live, t.tokens.processing) && OneWorker(t) && Counted(t)
            && |t.workers| <= 1 && (!t.running ==> !t.board.unlocked) && t.cycles <= t.accepted <= |t.history|
    decreases |steps|
  {
    if steps != [] {
      StepKeepsKeys(w, cfg, s, steps[0]);
      StepKeepsOneWorker(w, cfg, s, steps[0]);
      StepKeepsCounts(w, cfg, s, steps[0]);
      hide KeysMatch, OneWorker, Counted, Stepped, Enabled;
      RunsAreSafe(w, cfg, Stepped(w, cfg, s, steps[0]), steps[1..]);
    }
  }

  lemma OpeningIsSafe(b: Board)
    requires !b.unlocked
    ensures var s := Opening(b); KeysMatch(s.live, s.tokens.processing) && OneWorker(s) && Counted(s)
  {}

  // ---- the locker pin on working hardware ----

  // Each action is one of the controller's calls, or none.
  lemma ActKeepsMirrored(w: Wiring, b: Board, phase: Phase)
    requires w.Distinct() && Mirrored(w, b)
    ensures var o := Acted(w, b, phase);
            && !o.raised && Mirrored(w, o.board)
            && o.board.unlocked == (if phase == Unlock then true else if phase == Relock then false else b.unlocked)
            && o.board.greenOn == (if phase == LightGreen then true else if phase == DarkenGreen then false
                                   else b.greenOn)
  {
    hide AlertCleared, GreenSet, LockerSet, Mirrored;
    OpKeepsMirrored(w, b, Op.ClearAlert(QR_FAILURE));
    OpKeepsMirrored(w, b, Green(phase == LightGreen));
    OpKeepsMirrored(w, b, Op.Locker(phase == Unlock));
  }

  // Every interleaving with every other caller: the locker pin follows its flag, so it is
  // active only while a cycle is between its unlock and its relock.
  lemma {:induction false} LockerPinFollowsCycle(w: Wiring, cfg: Config, s: Desk, steps: seq<Step>)
    requires w.Distinct() && OneWorker(s) && Mirrored(w, s.board) && Schedule(w, cfg, s, steps)
    ensures var t := Ran(w, cfg, s, steps);
            && Mirrored(w, t.board)
            && (PinActive(w, t.board, w.locker) ==>
                  t.running && |t.workers| == 1 && (t.workers[0].phase == Hold || t.workers[0].phase == Relock))
    decreases |steps|
  {
    if steps != [] {
      hide Mirrored, OneWorker, Acted, Applied, PinActive, Reserved, ShouldOpen, UnlockSeconds;
      var step := steps[0];
      StepKeepsOneWorker(w, cfg, s, step);
      if step.Work? { ActKeepsMirrored(w, s.board, s.workers[step.worker].phase); }
      if step.Call? { OpKeepsMirrored(w, s.board, step.op); }
      LockerPinFollowsCycle(w, cfg, Stepped(w, cfg, s, step), steps[1..]);
    }
  }

  // ---- a cycle left to itself ----

  function Drained(w: Wiring, s: Desk, n: nat): Desk
    decreases n
  {
    if n == 0 || s.workers == [] then s else Drained(w, Worked(w, s, 0), n - 1)
  }

  function Left(phase: Phase): nat {
    match phase
    case DropAlert => 7
    case LightGreen => 6
    case Unlock => 5
    case Hold => 4
    case Relock => 3
    case DarkenGreen => 2
    case Finish => 1
  }

  lemma WorkKeepsOneWorker(w: Wiring, s: Desk)
    requires w.Distinct() && OneWorker(s) && s.running
    ensures var t := Worked(w, s, 0);
            OneWorker(t) && (t.running ==> Left(t.workers[0].phase) < Left(s.workers[0].phase))
            && (t.running <==> s.workers[0].phase != Finish)
  {
    hide Acted;
    ActMovesFlag(w, s.board, s.workers[0].phase);
  }

  // Whichever of its actions raise, it ends within seven: no worker, ready for the next
  // one, the locker flag down.
  lemma {:induction false} CycleEnds(w: Wiring, s: Desk, n: nat)
    requires w.Distinct() && OneWorker(s) && (s.running ==> Left(s.workers[0].phase) <= n)
    ensures var t := Drained(w, s, n); !t.running && !t.board.unlocked && t.workers == []
    decreases n
  {
    if n != 0 && s.workers != [] {
      hide Worked;
      WorkKeepsOneWorker(w, s);
      CycleEnds(w, Worked(w, s, 0), n - 1);
    }
  }

  // But that flag is all a raised relock moves: the cycle ends with the pin still active.
  lemma RaisedRelockEndsOpen(w: Wiring, s: Desk)
    requires w.Distinct() && OneWorker(s) && s.running && s.workers[0].phase == Relock && s.board.unlocked
    requires s.board.enabled && PinActive(w, s.board, w.locker)
    requires s.board.port.writeFates != [] && s.board.port.writeFates[0] == WriteRaises
    ensures var t := Drained(w, s, 7);
            && !t.running && t.workers == [] && !t.board.unlocked && PinActive(w, t.board, w.locker)
            && t.board.enabled && t.board.greenOn == s.board.greenOn
  {
    RaisedRelockIsLost(w, s.board);
    var one := Worked(w, s, 0);
    var two := Worked(w, one, 0);
    assert Drained(w, s, 7) == Drained(w, one, 6) == Drained(w, two, 5) == two;
  }

  // A raise before the unlock ends the cycle without one: straight to the relock, which
  // finds the locker locked.
  lemma RaisedEarlyNeverOpens(w: Wiring, s: Desk, k: nat)
    requires w.Distinct() && OneWorker(s) && s.running && s.board.enabled
    requires s.workers[0].phase == DropAlert || s.workers[0].phase == LightGreen
    requires Acted(w, s.board, s.workers[0].phase).raised
    ensures var t := Drained(w, s, k);
            !t.board.unlocked && PinActive(w, t.board, w.locker) == PinActive(w, s.board, w.locker)
    ensures k >= 4 ==> !Drained(w, s, k).running
  {
    hide Acted;
    if k > 0 {
      var one := Worked(w, s, 0);
      ActSparesLocker(w, s.board, s.workers[0].phase);
      ActMovesFlag(w, s.board, s.workers[0].phase);
      LockedStaysPut(w, one, k - 1);
    }
  }

  lemma ActSparesLocker(w: Wiring, b: Board, phase: Phase)
    requires w.Distinct() && b.enabled && (phase == DropAlert || phase == LightGreen || phase == DarkenGreen)
    ensures LockerKept(w, b, Acted(w, b, phase).board)
  {
    hide BothApplied, GreenSet, LockerKept;
    OpKeepsLocker(w, b, Op.ClearAlert(QR_FAILURE));
    OpKeepsLocker(w, b, Green(true));
    OpKeepsLocker(w, b, Green(false));
  }

  // From the relock on, a locked locker is not touched.
  lemma {:induction false} LockedStaysPut(w: Wiring, s: Desk, k: nat)
    requires w.Distinct() && |s.workers| <= 1 && s.board.enabled && !s.board.unlocked
    requires s.workers != [] ==> s.running && Left(s.workers[0].phase) <= 3
    requires s.workers == [] ==> !s.running
    ensures var t := Drained(w, s, k);
            && !t.board.unlocked && PinActive(w, t.board, w.locker) == PinActive(w, s.board, w.locker)
            && ((s.workers == [] || Left(s.workers[0].phase) <= k) ==> !t.running)
    decreases k
  {
    if k != 0 && s.workers != [] {
      if s.workers[0].phase == DarkenGreen { ActSparesLocker(w, s.board, DarkenGreen); }
      hide GreenSet;
      LockedStaysPut(w, Worked(w, s, 0), k - 1);
    }
  }

  // A raise in the unlock itself goes straight to the relock, flag still up; the relock then
  // writes the pin.
  lemma RaisedUnlockIsRelocked(w: Wiring, s: Desk)
    requires OneWorker(s) && s.running && s.workers[0].phase == Unlock && Acted(w, s.board, Unlock).raised
    ensures var t := Worked(w, s, 0);
            t.workers[0].phase == Relock && t.board.unlocked && t.workers[0].seconds == s.workers[0].seconds
  {
    UnfoldWrites(w, s.board.(unlocked := true), w.locker, true);
  }

  // The first action takes the failure alert off both outputs.
  lemma FirstActionDropsAlert(w: Wiring, s: Desk)
    requires w.Distinct() && OneWorker(s) && s.running && s.workers[0].phase == DropAlert && Mirrored(w, s.board)
    ensures var t := Worked(w, s, 0);
            && t.board.red == s.board.red - {"qr_failure"} && t.board.buzzer == s.board.buzzer - {"qr_failure"}
            && (PinActive(w, t.board, w.red) <==> t.board.red != {})
            && (PinActive(w, t.board, w.buzzer) <==> t.board.buzzer != {})
  {
    hide BothApplied;
    BothDriven(w, s.board, s.board.red - {QR_FAILURE}, s.board.buzzer - {QR_FAILURE});
  }

  // Whether a cycle on working hardware, with nobody else calling, will end locked.
  predicate WillLock(w: Wiring, s: Desk)
    requires s.workers != []
  {
    Left(s.workers[0].phase) >= 5 || s.board.unlocked || LevelOf(s.board.port, w.locker) != w.LevelFor(true)
  }

  lemma ActWorks(w: Wiring, b: Board, phase: Phase)
    requires w.Distinct() && b.enabled && Working(b.port)
    ensures var o := Acted(w, b, phase);
            var c := o.board;
            && !o.raised && c.enabled && Working(c.port)
            && (phase == Unlock ==> c.unlocked)
            && (phase == Relock ==>
                  !c.unlocked && (PinActive(w, c, w.locker) <==> !b.unlocked && PinActive(w, b, w.locker)))
            && (phase != Unlock && phase != Relock ==>
                  c.unlocked == b.unlocked && PinActive(w, c, w.locker) == PinActive(w, b, w.locker))
  {
    hide PinWritten;
    match phase
    case DropAlert =>
      var s := b.(red := b.red - {QR_FAILURE}, buzzer := b.buzzer - {QR_FAILURE});
      WorkingWrite(w, s.(redOn := s.red != {}), w.red, s.red != {});
      var half := RedApplied(w, s).board;
      WorkingWrite(w, half.(buzzerOn := half.buzzer != {}), w.buzzer, half.buzzer != {});
    case LightGreen => WorkingWrite(w, b.(greenOn := true), w.green, true);
    case Unlock => WorkingWrite(w, b.(unlocked := true), w.locker, true);
    case Hold =>
    case Relock => LockWorksExactlyWhen(w, b);
    case DarkenGreen => WorkingWrite(w, b.(greenOn := false), w.green, false);
    case Finish =>
  }

  // From any flags and pins faults have left: exactly when the cycle ends with the locker
  // pin inactive.  A cycle that has not unlocked yet always does, so the next one repairs
  // a lost relock.
  lemma {:induction false} EndsLockedExactlyWhen(w: Wiring, s: Desk, n: nat)
    requires w.Distinct() && OneWorker(s) && s.running && s.board.enabled && Working(s.board.port)
    requires Left(s.workers[0].phase) <= n
    ensures !PinActive(w, Drained(w, s, n).board, w.locker) <==> WillLock(w, s)
    decreases n
  {
    hide Acted, Working;
    WorkKeepsOneWorker(w, s);
    ActWorks(w, s.board, s.workers[0].phase);
    if s.workers[0].phase != Finish {
      EndsLockedExactlyWhen(w, Worked(w, s, 0), n - 1);
    } else {
      assert Worked(w, s, 0).workers == [];
      assert Drained(w, s, n) == Drained(w, Worked(w, s, 0), n - 1) == Worked(w, s, 0);
    }
  }

  // A whole cycle on a mirrored board: the green pin is on for as long as the locker pin is
  // and beyond on both sides, and both are off at the end.
  lemma CleanCycleInOrder(w: Wiring, s: Desk, k: nat)
    requires w.Distinct() && OneWorker(s) && s.running && s.workers[0].phase == DropAlert && Mirrored(w, s.board)
    requires k <= 7
    ensures var t := Drained(w, s, k);
            && (PinActive(w, t.board, w.locker) <==> 3 <= k < 5)
            && (2 <= k ==> (PinActive(w, t.board, w.green) <==> k < 6))
            && (t.running <==> k < 7)
  {
    CleanActions(w, s, k, k);
    CleanPins(w, Drained(w, s, k), k);
  }

  // Seven actions, `done` of them behind.
  ghost predicate CleanAt(w: Wiring, s: Desk, done: nat) {
    && Mirrored(w, s.board)
    && |s.workers| == (if done < 7 then 1 else 0) && (s.running <==> done < 7)
    && (done < 7 ==> Left(s.workers[0].phase) == 7 - done)
    && (s.board.unlocked <==> 3 <= done < 5) && (2 <= done ==> (s.board.greenOn <==> done < 6))
  }

  lemma CleanPins(w: Wiring, s: Desk, done: nat)
    requires CleanAt(w, s, done)
    ensures (PinActive(w, s.board, w.locker) <==> 3 <= done < 5)
            && (2 <= done ==> (PinActive(w, s.board, w.green) <==> done < 6)) && (s.running <==> done < 7)
  {}

  lemma CleanAction(w: Wiring, s: Desk, done: nat)
    requires w.Distinct() && done < 7 && CleanAt(w, s, done)
    ensures CleanAt(w, Worked(w, s, 0), done + 1)
  {
    hide Acted, Mirrored;
    ActKeepsMirrored(w, s.board, s.workers[0].phase);
  }

  lemma {:induction false} CleanActions(w: Wiring, s: Desk, n: nat, k: nat)
    requires w.Distinct() && n <= k <= 7 && CleanAt(w, s, k - n)
    ensures CleanAt(w, Drained(w, s, n), k)
    decreases n
  {
    if n != 0 {
      assert s.workers != [];
      hide CleanAt, Worked;
      CleanAction(w, s, k - n);
      CleanActions(w, Worked(w, s, 0), n - 1, k);
    }
  }

  // An explicit yes: success and can_open_locker are both the literal true.
  predicate Yes(step: Step) {
    step.Answer? && step.response.Some? && var r := step.response.value;
    && r.Object? && "success" in r.fields && r.fields["success"] == Bool(true)
    && "data" in r.fields && r.fields["data"].Object?
    && "can_open_locker" in r.fields["data"].fields && r.fields["data"].fields["can_open_locker"] == Bool(true)
  }

  // Without one, no interleaving with any other caller ever unlocks the locker: neither its
  // flag nor, on a started controller or one whose starts do not let it float, its pin,
  // whatever the hardware does.
  lemma {:induction false} NoYesNoUnlock(w: Wiring, cfg: Config, s: Desk, steps: seq<Step>)
    requires w.Distinct() && Schedule(w, cfg, s, steps)
    requires !s.running && s.workers == [] && !s.board.unlocked
    requires forall i :: 0 <= i < |steps| ==> !Yes(steps[i])
    ensures var t := Ran(w, cfg, s, steps);
            && !t.running && t.workers == [] && !t.board.unlocked
            && t.accepted == s.accepted && t.cycles == s.cycles
            && (!PinActive(w, s.board, w.locker) && (s.board.enabled || SteadyStarts(w, s.board.port)) ==>
                  !PinActive(w, t.board, w.locker))
    decreases |steps|
  {
    if steps != [] {
      assert !Yes(steps[0]);
      hide Applied, Reserved, UnlockSeconds;
      if steps[0].Call? { OpKeepsLocker(w, s.board, steps[0].op); }
      NoYesNoUnlock(w, cfg, Stepped(w, cfg, s, steps[0]), steps[1..]);
    }
  }

  // With one, the worker it starts holds for as long as that very answer asked.
  ghost predicate AskedBy(cfg: Config, step: Step, cycle: Cycle) {
    Yes(step) && cycle.seconds == UnlockSeconds(step.response.value, cfg.defaultUnlock) as real
  }

  lemma StepAsks(w: Wiring, cfg: Config, s: Desk, step: Step, i: nat)
    requires Enabled(s, step) && i < |Stepped(w, cfg, s, step).workers|
    ensures var cycle := Stepped(w, cfg, s, step).workers[i];
            || AskedBy(cfg, step, cycle)
            || exists j :: 0 <= j < |s.workers| && s.workers[j].seconds == cycle.seconds
  {
    hide Applied, Acted, Reserved, UnlockSeconds;
    match step
    case Answer(k, response) =>
      if i < |s.workers| { assert s.workers[i].seconds == Stepped(w, cfg, s, step).workers[i].seconds; }
      else { UnlockIsAtLeastASecond(response.value, cfg.defaultUnlock); }
    case Work(k) =>
      var t := Stepped(w, cfg, s, step);
      assert t.workers[i].seconds == s.workers[if |t.workers| < |s.workers| && k <= i then i + 1 else i].seconds;
    case _ => assert s.workers[i].seconds == Stepped(w, cfg, s, step).workers[i].seconds;
  }

  // What such an answer asks for, read off its own fields.
  ghost predicate Asks(response: Json, default: int, seconds: real)
    requires response.Object? && "data" in response.fields && response.fields["data"].Object?
  {
    var data := response.fields["data"].fields;
    var fallback := if default < 1 then 1.0 else default as real;
    if "unlock_duration_seconds" !in data then seconds == fallback
    else match data["unlock_duration_seconds"]
      case Whole(n) => seconds == (if n < 1 then 1.0 else n as real)
      case Number(x) =>
        if x < 2.0 then seconds == 1.0 else seconds <= x < seconds + 1.0 && seconds.Floor as real == seconds
      case Bool(_) => seconds == 1.0
      case Text(whole) =>
        seconds == (if whole.None? then fallback else if whole.value < 1 then 1.0 else whole.value as real)
      case _ => seconds == fallback
  }

  lemma YesAsks(response: Json, default: int)
    requires response.Object? && "data" in response.fields && response.fields["data"].Object?
    ensures Asks(response, default, UnlockSeconds(response, default) as real)
  {}

  // A yes while no cycle runs starts exactly one, at its first action, for as long as the
  // answer asked; during a running cycle it starts none.  Either way it counts.
  lemma YesStartsOneCycle(w: Wiring, cfg: Config, s: Desk, i: nat, response: Json)
    requires Enabled(s, Answer(i, Some(response))) && Yes(Answer(i, Some(response))) && OneWorker(s)
    ensures var t := Stepped(w, cfg, s, Answer(i, Some(response)));
            && t.accepted == s.accepted + 1 && t.running && |t.workers| == 1
            && t.board == s.board && t.live == s.live[i := s.live[i].(answered := true)]
            && if s.running then t.workers == s.workers && t.cycles == s.cycles
               else t.cycles == s.cycles + 1 && t.workers[0].phase == DropAlert
                    && Asks(response, cfg.defaultUnlock, t.workers[0].seconds)
  {
    YesAsks(response, cfg.defaultUnlock);
    UnlockIsAtLeastASecond(response, cfg.defaultUnlock);
  }

  // And on a mirrored board it does open: the locker pin is active after three actions.
  lemma YesOpens(w: Wiring, cfg: Config, s: Desk, i: nat, response: Json)
    requires w.Distinct() && OneWorker(s) && !s.running && Mirrored(w, s.board)
    requires Enabled(s, Answer(i, Some(response))) && Yes(Answer(i, Some(response)))
    ensures var t := Stepped(w, cfg, s, Answer(i, Some(response)));
            PinActive(w, Drained(w, t, 3).board, w.locker) && !PinActive(w, Drained(w, t, 5).board, w.locker)
  {
    hide Mirrored, Drained;
    YesStartsOneCycle(w, cfg, s, i, response);
    StepKeepsOneWorker(w, cfg, s, Answer(i, Some(response)));
    var t := Stepped(w, cfg, s, Answer(i, Some(response)));
    CleanCycleInOrder(w, t, 3);
    CleanCycleInOrder(w, t, 5);
  }

  // Any other answer starts nothing and counts nothing.
  lemma NoStartsNothing(w: Wiring, cfg: Config, s: Desk, i: nat, response: Option<Json>)
    requires Enabled(s, Answer(i, response)) && !Yes(Answer(i, response))
    ensures Stepped(w, cfg, s, Answer(i, response)) == s.(live := s.live[i := s.live[i].(answered := true)])
  {}

  // Over every interleaving: each unlock worker comes from an explicit yes, and holds
  // for the time asked there.
  lemma {:induction false} CyclesAreAsked(w: Wiring, cfg: Config, s: Desk, steps: seq<Step>, i: nat)
    requires Schedule(w, cfg, s, steps) && i < |Ran(w, cfg, s, steps).workers|
    ensures var cycle := Ran(w, cfg, s, steps).workers[i];
            || (exists j :: 0 <= j < |steps| && AskedBy(cfg, steps[j], cycle))
            || exists j :: 0 <= j < |s.workers| && s.workers[j].seconds == cycle.seconds
    decreases |steps|
  {
    if steps != [] {
      hide AskedBy, Stepped;
      var next := Stepped(w, cfg, s, steps[0]);
      CyclesAreAsked(w, cfg, next, steps[1..], i);
      var cycle := Ran(w, cfg, s, steps).workers[i];
      if j :| 0 <= j < |steps[1..]| && AskedBy(cfg, steps[1..][j], cycle) {
        assert AskedBy(cfg, steps[j + 1], cycle);
      } else {
        var k :| 0 <= k < |next.workers| && next.workers[k].seconds == cycle.seconds;
        StepAsks(w, cfg, s, steps[0], k);
        SameSeconds(cfg, steps[0], next.workers[k], cycle);
      }
    } else {
      assert s.workers[i].seconds == Ran(w, cfg, s, steps).workers[i].seconds;
    }
  }

  lemma SameSeconds(cfg: Config, step: Step, one: Cycle, two: Cycle)
    requires one.seconds == two.seconds
    ensures AskedBy(cfg, step, one) ==> AskedBy(cfg, step, two)
  {}

  // ---- spacing with local suppression on ----

  ghost predicate Clocked(steps: seq<Step>, from: real)
    decreases |steps|
  {
    steps == [] ||
    if steps[0].Decode? then from <= steps[0].at && Clocked(steps[1..], steps[0].at) else Clocked(steps[1..], from)
  }

  ghost predicate Spaced(cfg: Config, history: seq<Reservation>) {
    forall i, j :: 0 <= i < j < |history| ==>
      && history[j].at - history[i].at >= cfg.cooldown
      && (history[i].key == history[j].key ==> history[j].at - history[i].at >= cfg.duplicateCache)
  }

  // The cooldown covers every reservation; each cache entry lasts until it has aged out.
  ghost predicate Remembered(cfg: Config, s: Desk, now: real) {
    forall i :: 0 <= i < |s.history| ==>
      var r := s.history[i];
      && r.at + cfg.cooldown <= s.tokens.cooldownUntil
      && (r.at + cfg.duplicateCache <= now
          || (r.key in s.tokens.cache && r.at + cfg.duplicateCache <= s.tokens.cache[r.key]))
  }

  ghost predicate Past(history: seq<Reservation>, now: real) {
    forall i :: 0 <= i < |history| ==> history[i].at <= now
  }

  lemma DecodeKeepsSpacing(w: Wiring, cfg: Config, s: Desk, key: string, now: real, from: real)
    requires cfg.suppression && 0.0 <= cfg.cooldown && from <= now
    requires Spaced(cfg, s.history) && Remembered(cfg, s, from) && Past(s.history, from)
    ensures var t := Stepped(w, cfg, s, Decode(key, now));
            Spaced(cfg, t.history) && Remembered(cfg, t, now) && Past(t.history, now)
  {
    var t := Stepped(w, cfg, s, Decode(key, now));
    var left := Unexpired(s.tokens.cache, now);
    forall i | 0 <= i < |s.history|
      ensures s.history[i].at + cfg.cooldown <= s.tokens.cooldownUntil
      ensures s.history[i].at + cfg.duplicateCache <= now
           || (s.history[i].key in left && s.history[i].at + cfg.duplicateCache <= left[s.history[i].key])
    {}
    if Reserved(cfg, s.tokens, key, now).1 {
      assert s.tokens.cooldownUntil <= now && key !in left;
      assert t.history == s.history + [Reservation(key, now)];
    }
  }

  lemma StepKeepsSpacing(w: Wiring, cfg: Config, s: Desk, step: Step, from: real)
    requires cfg.suppression && 0.0 <= cfg.cooldown && Enabled(s, step) && (step.Decode? ==> from <= step.at)
    requires Spaced(cfg, s.history) && Remembered(cfg, s, from) && Past(s.history, from)
    ensures var t := Stepped(w, cfg, s, step);
            var now := if step.Decode? then step.at else from;
            Spaced(cfg, t.history) && Remembered(cfg, t, now) && Past(t.history, now)
  {
    if step.Decode? {
      DecodeKeepsSpacing(w, cfg, s, step.key, step.at, from);
    } else {
      var t := Stepped(w, cfg, s, step);
      assert t.history == s.history && t.tokens.cache == s.tokens.cache
          && t.tokens.cooldownUntil == s.tokens.cooldownUntil;
    }
  }

  // ---- and nothing else is refused ----

  // The deadlines kept are those of the history.
  ghost predicate Grounded(cfg: Config, tokens: Tokens, history: seq<Reservation>) {
    && tokens.cooldownUntil == (if history == [] then 0.0 else history[|history| - 1].at + cfg.cooldown)
    && forall key :: key in tokens.cache ==>
         exists i :: 0 <= i < |history| && history[i].key == key
             && tokens.cache[key] == history[i].at + cfg.duplicateCache
  }

  lemma ReservationKeepsGrounded(cfg: Config, tokens: Tokens, history: seq<Reservation>, key: string, now: real)
    requires cfg.suppression && Grounded(cfg, tokens, history)
    ensures var (next, ok) := Reserved(cfg, tokens, key, now);
            Grounded(cfg, next, if ok then history + [Reservation(key, now)] else history)
  {
    var (next, ok) := Reserved(cfg, tokens, key, now);
    var after := if ok then history + [Reservation(key, now)] else history;
    forall k | k in next.cache
      ensures exists i :: 0 <= i < |after| && after[i].key == k && next.cache[k] == after[i].at + cfg.duplicateCache
    {
      if ok && k == key {
        assert after[|history|] == Reservation(key, now);
      } else {
        var i :| 0 <= i < |history| && history[i].key == k && tokens.cache[k] == history[i].at + cfg.duplicateCache;
        assert after[i] == history[i];
      }
    }
  }

  lemma StepKeepsGrounded(w: Wiring, cfg: Config, s: Desk, step: Step)
    requires cfg.suppression && Enabled(s, step) && Grounded(cfg, s.tokens, s.history)
    ensures var t := Stepped(w, cfg, s, step); Grounded(cfg, t.tokens, t.history)
  {
    if step.Decode? {
      hide Grounded, Reserved;
      ReservationKeepsGrounded(cfg, s.tokens, s.history, step.key, step.at);
    } else {
      var t := Stepped(w, cfg, s, step);
      assert t.history == s.history && t.tokens.cache == s.tokens.cache
          && t.tokens.cooldownUntil == s.tokens.cooldownUntil;
    }
  }

  // Everything kept about the records, up to the time of the latest decode.
  ghost predicate Records(cfg: Config, s: Desk, now: real) {
    && Spaced(cfg, s.history) && Remembered(cfg, s, now) && Past(s.history, now)
    && Grounded(cfg, s.tokens, s.history) && KeysMatch(s.live, s.tokens.processing)
  }

  lemma StepKeepsRecords(w: Wiring, cfg: Config, s: Desk, step: Step, from: real)
    requires cfg.suppression && 0.0 <= cfg.cooldown && Enabled(s, step) && (step.Decode? ==> from <= step.at)
    requires Records(cfg, s, from)
    ensures Records(cfg, Stepped(w, cfg, s, step), if step.Decode? then step.at else from)
  {
    hide Spaced, Remembered, Past, Grounded, KeysMatch, Stepped, Enabled;
    StepKeepsSpacing(w, cfg, s, step, from);
    StepKeepsGrounded(w, cfg, s, step);
    StepKeepsKeys(w, cfg, s, step);
  }

  lemma {:induction false} RunKeepsRecords(w: Wiring, cfg: Config, s: Desk, steps: seq<Step>, from: real, until: real)
    returns (now: real)
    requires cfg.suppression && 0.0 <= cfg.cooldown && Schedule(w, cfg, s, steps) && Clocked(steps, from)
    requires Records(cfg, s, from) && from <= until
    requires forall i :: 0 <= i < |steps| && steps[i].Decode? ==> steps[i].at <= until
    ensures from <= now <= until && Records(cfg, Ran(w, cfg, s, steps), now)
    decreases |steps|
  {
    if steps == [] {
      now := from;
    } else {
      hide Records, Stepped, Enabled;
      var step := steps[0];
      StepKeepsRecords(w, cfg, s, step, from);
      now := RunKeepsRecords(w, cfg, Stepped(w, cfg, s, step), steps[1..], if step.Decode? then step.at else from,
                             until);
    }
  }

  // In flight, within the cooldown of any accepted reservation, or within the cache time
  // of one with the same key: refused.  Anything else: accepted.
  ghost predicate MayReserve(cfg: Config, s: Desk, key: string, now: real) {
    && (forall i :: 0 <= i < |s.live| ==> s.live[i].key != key)
    && (forall i :: 0 <= i < |s.history| ==>
          && s.history[i].at + cfg.cooldown <= now
          && (s.history[i].key == key ==> s.history[i].at + cfg.duplicateCache <= now))
  }

  lemma ReservedExactlyWhen(w: Wiring, cfg: Config, b: Board, steps: seq<Step>, key: string, now: real)
    requires cfg.suppression && 0.0 <= cfg.cooldown && 0.0 <= now
    requires Schedule(w, cfg, Opening(b), steps) && Clocked(steps + [Decode(key, now)], 0.0)
    ensures var s := Ran(w, cfg, Opening(b), steps);
            Reserved(cfg, s.tokens, key, now).1 <==> MayReserve(cfg, s, key, now)
  {
    ClockedPrefix(steps, key, now, 0.0);
    var last := RunKeepsRecords(w, cfg, Opening(b), steps, 0.0, now);
    var s := Ran(w, cfg, Opening(b), steps);
    assert key in s.tokens.processing <==> exists i :: 0 <= i < |s.live| && s.live[i].key == key;
  }

  lemma {:induction false} RunKeepsKeys(w: Wiring, cfg: Config, s: Desk, steps: seq<Step>)
    requires KeysMatch(s.live, s.tokens.processing) && Schedule(w, cfg, s, steps)
    ensures var t := Ran(w, cfg, s, steps); KeysMatch(t.live, t.tokens.processing)
    decreases |steps|
  {
    if steps != [] {
      hide KeysMatch, Stepped, Enabled;
      StepKeepsKeys(w, cfg, s, steps[0]);
      RunKeepsKeys(w, cfg, Stepped(w, cfg, s, steps[0]), steps[1..]);
    }
  }

  // With local suppression off, cooldown and cache play no part: only a key in flight is
  // refused, and an accepted one is in flight from then on.
  lemma ReservedWithoutSuppression(w: Wiring, cfg: Config, b: Board, steps: seq<Step>, key: string, now: real)
    requires !cfg.suppression && Schedule(w, cfg, Opening(b), steps)
    ensures var s := Ran(w, cfg, Opening(b), steps);
            var t := Stepped(w, cfg, s, Decode(key, now));
            && (Reserved(cfg, s.tokens, key, now).1 <==> forall i :: 0 <= i < |s.live| ==> s.live[i].key != key)
            && t.live == (if exists i :: 0 <= i < |s.live| && s.live[i].key == key then s.live
                          else s.live + [Scan(key, false)])
  {
    RunKeepsKeys(w, cfg, Opening(b), steps);
    var s := Ran(w, cfg, Opening(b), steps);
    assert key in s.tokens.processing <==> exists i :: 0 <= i < |s.live| && s.live[i].key == key;
  }

  lemma {:induction false} ClockedPrefix(steps: seq<Step>, key: string, now: real, from: real)
    requires Clocked(steps + [Decode(key, now)], from)
    ensures Clocked(steps, from) && from <= now
    ensures forall i :: 0 <= i < |steps| && steps[i].Decode? ==> steps[i].at <= now
    decreases |steps|
  {
    if steps != [] {
      assert (steps + [Decode(key, now)])[1..] == steps[1..] + [Decode(key, now)];
      ClockedPrefix(steps[1..], key, now, if steps[0].Decode? then steps[0].at else from);
    }
  }

  // Accepted reservations are pairwise a cooldown apart, and those of one key also the
  // cache time.
  lemma {:induction false} ReservationsAreSpaced(w: Wiring, cfg: Config, s: Desk, steps: seq<Step>, from: real)
    requires cfg.suppression && 0.0 <= cfg.cooldown && Schedule(w, cfg, s, steps) && Clocked(steps, from)
    requires Spaced(cfg, s.history) && Remembered(cfg, s, from) && Past(s.history, from)
    ensures Spaced(cfg, Ran(w, cfg, s, steps).history)
    decreases |steps|
  {
    if steps != [] {
      var step := steps[0];
      StepKeepsSpacing(w, cfg, s, step, from);
      ReservationsAreSpaced(w, cfg, Stepped(w, cfg, s, step), steps[1..], if step.Decode? then step.at else from);
    }
  }
}
