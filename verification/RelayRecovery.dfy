// No relay stuck ON: what faults leave behind, what repairs it, and how soon both pins are
// off once the hardware works again.
module RelayRecovery {
  import opened Common
  import opened GpioPort
  import opened RelayBoard
  import opened RelayBoardFacts
  import opened SecurityRelay
  import opened SecurityRelayRuns
  import opened SecurityRelayRelease
  import opened RelayWriteFacts
  import opened RelayMachine
  import opened RelayFaults

  // ---- repair ----

  // On hardware that works again, any write the manager issues makes it honest, whatever
  // flags, pins and belief the faults left.
  lemma AnyWriteRepairs(w: Wiring, cfg: Config, m: Machine, e: Event)
    requires w.Distinct() && 1 <= cfg.retries && Coherent(m.relay) && Guarded(m.board) && Working(m.board.port)
    requires RequestOf(cfg, m.relay, e) != NoWrite
    ensures var next := MachineStep(w, cfg, m, e); Honest(w, next) && Working(next.board.port)
  {
    hide MachineStep, RequestOf, Performed, SomePinActive;
    var request := RequestOf(cfg, m.relay, e);
    BeliefMoves(w, cfg, m, e);
    WriteStaysHonest(w, m.board, request, cfg.retries);
    WriteOnRecovered(w, m.board, request, cfg.retries);
    if request.TurnOn? { OnReportsSome(w, m.board, cfg.retries); }
  }

  lemma OnReportsSome(w: Wiring, b: Board, retries: int)
    requires w.Distinct() && b.enabled && Working(b.port) && 1 <= retries
    ensures var r := Performed(w, b, TurnOn, retries); r.ok <==> SomePinActive(w, r.board)
  {
    hide Executed;
    OnDrivesExactlyWhen(w, b, retries);
  }

  lemma SilentStep(w: Wiring, cfg: Config, m: Machine, e: Event)
    requires SilentlyOn(w, m)
    ensures RequestOf(cfg, m.relay, e) == NoWrite <==> !e.Detect? && !e.Force?
    ensures !e.Detect? && !e.Force? ==> MachineStep(w, cfg, m, e) == m
  {
    hide Performed, SomePinActive, Working;
    assert m.relay.lastEvent.Keys == {};
    assert m.relay.lastEvent == map[];
    NoWriteNoEffect(w, cfg, m.board, m.relay, e);
    if e.Tick? {
      assert Expired(cfg, m.relay, e.at) == m.relay;
    } else if e.Clear? {
      assert m.relay.sources - {e.source} == m.relay.sources && m.relay.lastEvent - {e.source} == m.relay.lastEvent;
    }
  }

  lemma {:induction false} WorkingRunStaysHonest(w: Wiring, cfg: Config, m: Machine, es: seq<Event>)
    requires w.Distinct() && 1 <= cfg.retries && Honest(w, m) && Working(m.board.port)
    ensures var r := MachineRun(w, cfg, m, es); Honest(w, r) && Working(r.board.port)
    decreases |es|
  {
    if es != [] {
      hide MachineStep, SomePinActive, Working;
      StepStaysHonest(w, cfg, m, es[0]);
      StepStaysWorking(w, cfg, m, es[0]);
      WorkingRunStaysHonest(w, cfg, MachineStep(w, cfg, m, es[0]), es[1..]);
    }
  }

  lemma StepStaysWorking(w: Wiring, cfg: Config, m: Machine, e: Event)
    requires w.Distinct() && 1 <= cfg.retries && Coherent(m.relay) && Guarded(m.board) && Working(m.board.port)
    ensures var next := MachineStep(w, cfg, m, e);
            Coherent(next.relay) && Guarded(next.board) && Working(next.board.port)
  {
    hide MachineStep, RequestOf, Performed, SomePinActive;
    BeliefMoves(w, cfg, m, e);
    WriteStaysHonest(w, m.board, RequestOf(cfg, m.relay, e), cfg.retries);
    WriteOnRecovered(w, m.board, RequestOf(cfg, m.relay, e), cfg.retries);
  }

  // A silently active pin stays through any number of ticks and clears; the next detection
  // or manual off, and nothing else, repairs it, and it stays repaired.
  lemma {:induction false} RepairedExactlyWhen(w: Wiring, cfg: Config, m: Machine, es: seq<Event>)
    requires w.Distinct() && 1 <= cfg.retries && SilentlyOn(w, m)
    ensures var r := MachineRun(w, cfg, m, es);
            && (Honest(w, r) <==> exists i :: 0 <= i < |es| && (es[i].Detect? || es[i].Force?))
            && (!Honest(w, r) ==> r == m)
    decreases |es|
  {
    if es != [] {
      hide MachineStep, SomePinActive, RequestOf;
      SilentStep(w, cfg, m, es[0]);
      var next := MachineStep(w, cfg, m, es[0]);
      if es[0].Detect? || es[0].Force? {
        AnyWriteRepairs(w, cfg, m, es[0]);
        WorkingRunStaysHonest(w, cfg, next, es[1..]);
      } else {
        RepairedExactlyWhen(w, cfg, m, es[1..]);
        assert forall i :: 0 <= i < |es[1..]| ==> es[1..][i] == es[i + 1];
      }
    }
  }

  // ---- release ----

  // No step of the run asks for a write.
  ghost predicate Silent(w: Wiring, cfg: Config, m: Machine, es: seq<Event>)
    decreases |es|
  {
    es == [] || (RequestOf(cfg, m.relay, es[0]) == NoWrite && Silent(w, cfg, MachineStep(w, cfg, m, es[0]), es[1..]))
  }

  lemma {:induction false} RecoveredRun(w: Wiring, cfg: Config, m: Machine, es: seq<Event>)
    requires w.Distinct() && 1 <= cfg.retries && Coherent(m.relay) && Guarded(m.board) && Working(m.board.port)
    requires forall i :: 0 <= i < |es| ==> !es[i].Detect?
    ensures Quiet(cfg, m.relay, Answers(w, cfg, m, es))
    ensures var r := MachineRun(w, cfg, m, es);
            if Silent(w, cfg, m, es) then r.board == m.board && r.relay.on == m.relay.on else Honest(w, r)
    decreases |es|
  {
    if es != [] {
      hide RequestOf, Performed, SomePinActive, Working, MachineStep, Honest;
      var e := es[0];
      var next := MachineStep(w, cfg, m, e);
      StepStaysWorking(w, cfg, m, e);
      QuietStep(w, cfg, m, e);
      BeliefMoves(w, cfg, m, e);
      RecoveredRun(w, cfg, next, es[1..]);
      assert Answers(w, cfg, m, es)[1..] == Answers(w, cfg, next, es[1..]);
      if RequestOf(cfg, m.relay, e) != NoWrite {
        AnyWriteRepairs(w, cfg, m, e);
        WorkingRunStaysHonest(w, cfg, next, es[1..]);
      }
    }
  }

  lemma QuietStep(w: Wiring, cfg: Config, m: Machine, e: Event)
    requires w.Distinct() && 1 <= cfg.retries && Guarded(m.board) && Working(m.board.port) && !e.Detect?
    ensures var a := Answered(w, cfg, m, e);
            && !a.Detect? && (RequestOf(cfg, m.relay, a).TurnOff? ==> a.ok)
            && Stepped(cfg, m.relay, a) == MachineStep(w, cfg, m, e).relay
  {
    hide RequestOf, Performed, Stepped;
    NoWriteNoEffect(w, cfg, m.board, m.relay, e);
    RequestIgnoresAnswer(cfg, m.relay, e, Answered(w, cfg, m, e));
    WriteOnRecovered(w, m.board, RequestOf(cfg, m.relay, e), cfg.retries);
  }

  // After faults of any kind, readings wrong or missing included: the GPIO works from t on
  // and no detection comes.  From this bound on the relay is believed off, and a pin is
  // still active exactly when one was at t and the manager has issued no write since; a
  // relay believed on at t is off at both pins.
  lemma ReleasedAfterAnyFaults(w: Wiring, cfg: Config, m: Machine, t: real, es: seq<Event>, period: real, end: real)
    requires w.Distinct() && 1 <= cfg.retries && Coherent(m.relay) && Owned(m.board) && Working(m.board.port)
    requires cfg.ttl > 0.0 && cfg.failsafe > 0.0 && 0.0 <= period
    requires Recorded(cfg, m.relay, t)
    requires forall i :: 0 <= i < |es| ==> !es[i].Detect?
    requires Timed(es, t, end) && KeepsUp(es, t, period, end)
    requires t + Drain(cfg, LeftOn(m.relay)) + cfg.failsafe + 2.0 * period <= end
    ensures var r := MachineRun(w, cfg, m, es);
            && !r.relay.on && r.relay.sources == {}
            && (SomePinActive(w, r.board) <==> SomePinActive(w, m.board) && Silent(w, cfg, m, es))
            && (m.relay.on ==> !SomePinActive(w, r.board))
  {
    RecoveredRun(w, cfg, m, es);
    MachineRunIsRun(w, cfg, m, es);
    AnswersKeepTime(w, cfg, m, es, t, t, period, end);
    ReleasedAfterQuiet(cfg, m.relay, t, Answers(w, cfg, m, es), period, end);
  }

  lemma PinsReleased(w: Wiring, cfg: Config, m: Machine, t: real, es: seq<Event>, period: real, end: real)
    requires w.Distinct() && 1 <= cfg.retries && Believable(w, m) && Working(m.board.port)
    requires cfg.ttl > 0.0 && cfg.failsafe > 0.0 && 0.0 <= period
    requires Recorded(cfg, m.relay, t)
    requires forall i :: 0 <= i < |es| ==> !es[i].Detect?
    requires Timed(es, t, end) && KeepsUp(es, t, period, end)
    requires t + Drain(cfg, LeftOn(m.relay)) + cfg.failsafe + 2.0 * period <= end
    ensures var r := MachineRun(w, cfg, m, es);
            !PinActive(w, r.board, w.red) && !PinActive(w, r.board, w.buzzer) && !r.relay.on && r.relay.sources == {}
  {
    hide MachineRun, Silent;
    ReleasedAfterAnyFaults(w, cfg, m, t, es, period, end);
  }

  // Over whole runs from start-up: faults of kind f before t, a working GPIO and no
  // detection after it; both pins inactive from the bound on.
  ghost predicate NeverStuckOn(w: Wiring, cfg: Config, f: Faults) {
    forall b: Board, start: real, before: seq<Event>, t: real, es: seq<Event>, period: real, end: real ::
      Quieted(w, cfg, f, b, start, before, t, es, period, end)
      ==> var r := MachineRun(w, cfg, MachineRun(w, cfg, Machine(Created(start), b), before), es);
          !PinActive(w, r.board, w.red) && !PinActive(w, r.board, w.buzzer)
  }

  ghost predicate Quieted(w: Wiring, cfg: Config, f: Faults, b: Board, start: real, before: seq<Event>, t: real,
                          es: seq<Event>, period: real, end: real)
  {
    var m := MachineRun(w, cfg, Machine(Created(start), b), before);
    && Unused(w, b) && Within(b.port, f) && Timed(before, start, t) && Working(m.board.port)
    && (forall i :: 0 <= i < |es| ==> !es[i].Detect?)
    && Timed(es, t, end) && KeepsUp(es, t, period, end) && 0.0 <= period
    && t + Drain(cfg, LeftOn(m.relay)) + cfg.failsafe + 2.0 * period <= end
  }

  lemma NoRelayStuckOn(w: Wiring, cfg: Config, f: Faults, b: Board, start: real, before: seq<Event>, t: real,
                       es: seq<Event>, period: real, end: real)
    requires w.Distinct() && 1 <= cfg.retries && Trusted(cfg, f) && cfg.ttl > 0.0 && cfg.failsafe > 0.0
    requires Quieted(w, cfg, f, b, start, before, t, es, period, end)
    ensures var r := MachineRun(w, cfg, MachineRun(w, cfg, Machine(Created(start), b), before), es);
            !PinActive(w, r.board, w.red) && !PinActive(w, r.board, w.buzzer) && !r.relay.on && r.relay.sources == {}
  {
    hide MachineRun, Within, Unused, PinActive, Recorded, Trusted, Drain;
    var m := Machine(Created(start), b);
    RestIsKept(w, cfg, f, b, start);
    RunStaysKept(w, cfg, f, m, before);
    MachineRunIsRun(w, cfg, m, before);
    AnswersKeepTime(w, cfg, m, before, start, start, 0.0, t);
    StartIsRecorded(cfg, start);
    RunStaysRecorded(cfg, m.relay, Answers(w, cfg, m, before), start, t);
    PinsReleased(w, cfg, MachineRun(w, cfg, m, before), t, es, period, end);
  }

  lemma StartIsRecorded(cfg: Config, start: real)
    ensures Recorded(cfg, Created(start), start) && Coherent(Created(start))
  {}

  // Two ticks in step with the bound, on a silently active pin.
  lemma TwoIdleTicks(w: Wiring, cfg: Config, m: Machine, t: real, p: real)
    requires SilentlyOn(w, m) && 0.0 <= p
    ensures var es := [Tick(t + p, true), Tick(t + 2.0 * p, true)];
            && Timed(es, t, t + 3.0 * p) && KeepsUp(es, t, p, t + 3.0 * p) && MachineRun(w, cfg, m, es) == m
  {
    hide MachineStep, SilentlyOn;
    var one, two := Tick(t + p, true), Tick(t + 2.0 * p, true);
    assert [one, two][1..] == [two] && [two][1..] == [];
    var end := t + 3.0 * p;
    assert t + p <= two.at <= end && two.at - (t + p) == p && end - two.at == p;
    assert Timed([], two.at, end) && KeepsUp([], two.at, p, end);
    assert Timed([two], t + p, end) && KeepsUp([two], t + p, p, end);
    SilentStep(w, cfg, m, one);
    SilentStep(w, cfg, m, two);
    assert MachineRun(w, cfg, m, [one, two]) == MachineRun(w, cfg, m, [two]) == MachineRun(w, cfg, m, []);
  }

  // Exactly the faults after which no relay can be stuck ON.
  lemma NeverStuckOnExactlyWhen(w: Wiring, cfg: Config, f: Faults)
    requires w.Distinct() && 1 <= cfg.retries && cfg.ttl > 0.0 && cfg.failsafe > 0.0
    ensures NeverStuckOn(w, cfg, f) <==> !f.wrong && (!f.writes || (!f.missing && 2 <= cfg.retries))
  {
    hide MachineRun, Quieted, PinActive;
    if Trusted(cfg, f) {
      forall b: Board, start: real, before: seq<Event>, t: real, es: seq<Event>, period: real, end: real |
        Quieted(w, cfg, f, b, start, before, t, es, period, end)
        ensures var r := MachineRun(w, cfg, MachineRun(w, cfg, Machine(Created(start), b), before), es);
                !PinActive(w, r.board, w.red) && !PinActive(w, r.board, w.buzzer)
      {
        NoRelayStuckOn(w, cfg, f, b, start, before, t, es, period, end);
      }
    } else {
      SomeRunIsStuck(w, cfg, f);
    }
  }

  lemma SomeRunIsStuck(w: Wiring, cfg: Config, f: Faults)
    requires w.Distinct() && 1 <= cfg.retries && cfg.ttl > 0.0 && cfg.failsafe > 0.0 && !Trusted(cfg, f)
    ensures !NeverStuckOn(w, cfg, f)
  {
    hide MachineRun, Within, Unused, PinActive, Timed, KeepsUp;
    var b, before := UntrustedSticks(w, cfg, f);
    var m := MachineRun(w, cfg, Machine(Created(1.0), b), before);
    var t, p := FailsafeTime(cfg), cfg.ttl + cfg.failsafe;
    var es := [Tick(t + p, true), Tick(t + 2.0 * p, true)];
    TwoIdleTicks(w, cfg, m, t, p);
    assert Quieted(w, cfg, f, b, 1.0, before, t, es, p, t + 3.0 * p);
    assert MachineRun(w, cfg, MachineRun(w, cfg, Machine(Created(1.0), b), before), es) == m;
  }
}
