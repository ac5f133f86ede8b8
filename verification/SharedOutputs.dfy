// Red and buzzer shared with other users, alerts and manual switching, on working GPIO:
// the security event still lets go in time, and the relay with it once the others have.
module SharedOutputs {
  import opened Common
  import opened GpioPort
  import opened RelayBoard
  import opened RelayBoardFacts
  import opened SecurityRelay
  import opened SecurityRelayRuns
  import opened SecurityRelayRelease
  import opened RelayWriteFacts
  import opened RelayMachine

  // A step of the manager, or a call from anybody else.
  datatype Mixed = Managed(e: Event) | Other(op: Op)

  predicate Foreign(op: Op) {
    match op
    case Security(_) => false
    case Force => false
    case Alert(source, _) => source != SECURITY
    case ClearAlert(source) => source != SECURITY
    case _ => true
  }

  predicate Bystander(x: Mixed) { if x.Managed? then !x.e.Detect? else Foreign(x.op) }

  // A call that adds no user to an output.
  predicate Leaves(op: Op) {
    match op
    case Red(on) => !on
    case Buzzer(on) => !on
    case Alert(_, on) => !on
    case _ => true
  }

  function MixedStep(w: Wiring, cfg: Config, m: Machine, x: Mixed): Machine {
    match x
    case Managed(e) => MachineStep(w, cfg, m, e)
    case Other(op) => Machine(m.relay, Applied(w, m.board, op).board)
  }

  function MixedRun(w: Wiring, cfg: Config, m: Machine, xs: seq<Mixed>): Machine
    decreases |xs|
  {
    if xs == [] then m else MixedRun(w, cfg, MixedStep(w, cfg, m, xs[0]), xs[1..])
  }

  // The manager's events among them, as they came and as the hardware answered them.
  function Events(xs: seq<Mixed>): seq<Event>
    decreases |xs|
  {
    if xs == [] then [] else (if xs[0].Managed? then [xs[0].e] else []) + Events(xs[1..])
  }

  function MixedAnswers(w: Wiring, cfg: Config, m: Machine, xs: seq<Mixed>): seq<Event>
    decreases |xs|
  {
    if xs == [] then []
    else (if xs[0].Managed? then [Answered(w, cfg, m, xs[0].e)] else [])
         + MixedAnswers(w, cfg, MixedStep(w, cfg, m, xs[0]), xs[1..])
  }

  // Mirrored board; the security event is held only while the relay is believed on.
  ghost predicate Settled(w: Wiring, m: Machine) {
    && Mirrored(w, m.board) && Coherent(m.relay)
    && (SECURITY in m.board.red ==> m.relay.on)
    && (m.relay.life == Active ==> m.relay.on)
  }

  ghost predicate Unshared(m: Machine) { m.board.red <= {SECURITY} && m.board.buzzer <= {SECURITY} }

  ghost predicate Released(m: Machine) { SECURITY !in m.board.red && m.relay.sources == {} }

  lemma WriteMoves(w: Wiring, cfg: Config, b: Board, request: Request)
    requires w.Distinct() && 1 <= cfg.retries && Mirrored(w, b)
    ensures var r := Performed(w, b, request, cfg.retries);
            && Mirrored(w, r.board)
            && match request
               case NoWrite => r.board == b
               case TurnOn => r.ok && r.board.red == b.red + {SECURITY} && r.board.buzzer == b.buzzer + {SECURITY}
               case TurnOff(_) =>
                 && r.board.red == b.red - {SECURITY} && r.board.buzzer == b.buzzer - {SECURITY}
                 && (r.ok <==> b.red <= {SECURITY} && b.buzzer <= {SECURITY})
  {
    hide Executed, Mirrored;
    match request
    case NoWrite =>
    case TurnOn => OnWorks(w, b, cfg.retries);
    case TurnOff(force) => OffWorksIffUnshared(w, b, force, cfg.retries);
  }

  // What an event without detection asks for, and what that leaves of the sources.
  lemma BystanderRequest(cfg: Config, s: Relay, e: Event)
    requires Coherent(s) && (s.life == Active ==> s.on) && !e.Detect?
    ensures RequestOf(cfg, s, e) != TurnOn
    ensures var t := Stepped(cfg, s, e);
            && t.sources <= s.sources && Coherent(t)
            && (RequestOf(cfg, s, e).TurnOff? ==> t.sources == {})
            && (RequestOf(cfg, s, e) == NoWrite ==> t.on == s.on)
            && (RequestOf(cfg, s, e).TurnOff? ==> t.on == (s.on && !e.ok))
            && (t.life == Active ==> t.on)
  {
    StepStaysCoherent(cfg, s, e);
    ExpiredStaysCoherent(cfg, s, e.at);
  }

  lemma ManagedStep(w: Wiring, cfg: Config, m: Machine, e: Event)
    requires w.Distinct() && 1 <= cfg.retries && Settled(w, m) && !e.Detect?
    ensures var next := MachineStep(w, cfg, m, e);
            var a := Answered(w, cfg, m, e);
            && Settled(w, next) && next.relay == Stepped(cfg, m.relay, a) && !a.Detect?
            && RequestOf(cfg, m.relay, a) == RequestOf(cfg, m.relay, e) != TurnOn
            && (Released(m) || RequestOf(cfg, m.relay, e).TurnOff? ==> Released(next))
            && next.board.red <= m.board.red && next.board.buzzer <= m.board.buzzer
            && (Unshared(m) && RequestOf(cfg, m.relay, e).TurnOff? ==> a.ok)
  {
    hide Stepped, RequestOf, Performed, Mirrored, Coherent;
    var a := Answered(w, cfg, m, e);
    RequestIgnoresAnswer(cfg, m.relay, e, a);
    WriteMoves(w, cfg, m.board, RequestOf(cfg, m.relay, e));
    BystanderRequest(cfg, m.relay, a);
    ClearAsksNothing(cfg, m.relay, e);
  }

  lemma ClearAsksNothing(cfg: Config, s: Relay, e: Event)
    ensures e.Clear? ==> RequestOf(cfg, s, e) == NoWrite
  {}

  // Anybody else's call leaves the security event where it is.
  lemma OtherStep(w: Wiring, m: Machine, op: Op)
    requires w.Distinct() && Settled(w, m) && Foreign(op)
    ensures var c := Applied(w, m.board, op).board;
            && Settled(w, Machine(m.relay, c)) && (SECURITY in c.red <==> SECURITY in m.board.red)
            && (m.board.red <= {SECURITY} && m.board.buzzer <= {SECURITY} && Leaves(op) ==>
                  c.red <= {SECURITY} && c.buzzer <= {SECURITY})
  {
    OpKeepsMirrored(w, m.board, op);
    ForeignKeepsSecurity(w, m.board, op);
    var c := Applied(w, m.board, op).board;
    hide Applied, Mirrored, Coherent;
    if m.board.red <= {SECURITY} && m.board.buzzer <= {SECURITY} && Leaves(op) {
      NobodyJoins(m.board.red, c.red, op, true);
      NobodyJoins(m.board.buzzer, c.buzzer, op, false);
    }
  }

  lemma NobodyJoins(held: set<string>, after: set<string>, op: Op, red: bool)
    requires held <= {SECURITY} && Leaves(op) && after - {SECURITY} == HoldersStep(held, op, red) - {SECURITY}
    ensures after <= {SECURITY}
  {
    assert after <= (after - {SECURITY}) + {SECURITY};
    assert HoldersStep(held, op, red) <= held;
    assert after - {SECURITY} == {};
  }

  lemma ForeignKeepsSecurity(w: Wiring, b: Board, op: Op)
    requires w.Distinct() && Mirrored(w, b) && Foreign(op)
    ensures SECURITY in Applied(w, b, op).board.red <==> SECURITY in b.red
  {
    hide RedSourceSet, BuzzerSourceSet, AlertSet, BothApplied, RelaysRead, LockerSet, GreenSet, Mirrored;
    match op
    case Red(on) => RedDriven(w, b, on);
    case Buzzer(on) => BuzzerDriven(w, b, on);
    case Alert(source, on) => AlertDriven(w, b, source, on);
    case ClearAlert(source) => ClearDriven(w, b, source);
    case Read => ReadDriven(w, b);
    case Locker(open) => LockerDriven(w, b, open);
    case Green(on) => GreenDriven(w, b, on);
  }

  lemma ClearDriven(w: Wiring, b: Board, source: string)
    requires w.Distinct() && Mirrored(w, b) && source != SECURITY
    ensures AlertCleared(w, b, source).board.red == b.red - {source}
  {
    hide BothApplied;
    BothDriven(w, b, b.red - {source}, b.buzzer - {source});
  }

  lemma {:induction false} MixedAnswersKeepTime(w: Wiring, cfg: Config, m: Machine, xs: seq<Mixed>,
                                                from: real, last: real, period: real, end: real)
    ensures Timed(Events(xs), from, end) ==> Timed(MixedAnswers(w, cfg, m, xs), from, end)
    ensures KeepsUp(Events(xs), last, period, end) ==> KeepsUp(MixedAnswers(w, cfg, m, xs), last, period, end)
    ensures MixedRun(w, cfg, m, xs).relay == Ran(cfg, m.relay, MixedAnswers(w, cfg, m, xs))
    decreases |xs|
  {
    if xs != [] {
      hide Stepped, Performed, RequestOf, Applied;
      var next := MixedStep(w, cfg, m, xs[0]);
      if xs[0].Managed? {
        var e, a := xs[0].e, Answered(w, cfg, m, xs[0].e);
        assert a.at == e.at && a.Tick? == e.Tick? && next.relay == Stepped(cfg, m.relay, a);
        assert Events(xs)[1..] == Events(xs[1..]);
        assert MixedAnswers(w, cfg, m, xs)[1..] == MixedAnswers(w, cfg, next, xs[1..]);
        hide MixedStep, Answered;
        MixedAnswersKeepTime(w, cfg, next, xs[1..], e.at, if e.Tick? then e.at else last, period, end);
      } else {
        assert Events(xs) == Events(xs[1..]);
        assert MixedAnswers(w, cfg, m, xs) == MixedAnswers(w, cfg, next, xs[1..]);
        hide MixedStep, Answered;
        MixedAnswersKeepTime(w, cfg, next, xs[1..], from, last, period, end);
      }
    }
  }

  lemma DetectStaysSettled(w: Wiring, cfg: Config, m: Machine, e: Event)
    requires w.Distinct() && 1 <= cfg.retries && Settled(w, m) && e.Detect?
    ensures Settled(w, MachineStep(w, cfg, m, e))
  {
    hide Performed, Mirrored;
    WriteMoves(w, cfg, m.board, RequestOf(cfg, m.relay, e));
    StepStaysCoherent(cfg, m.relay, Answered(w, cfg, m, e));
  }

  // From start-up on, every mix of detections, clears, ticks, manual offs and other callers.
  lemma {:induction false} MixedRunStaysSettled(w: Wiring, cfg: Config, m: Machine, xs: seq<Mixed>)
    requires w.Distinct() && 1 <= cfg.retries && Settled(w, m)
    requires forall i :: 0 <= i < |xs| && xs[i].Other? ==> Foreign(xs[i].op)
    ensures Settled(w, MixedRun(w, cfg, m, xs))
    decreases |xs|
  {
    if xs != [] {
      hide Settled, MachineStep, Applied, RequestOf, Stepped, Answered;
      match xs[0] {
        case Managed(e) => if e.Detect? { DetectStaysSettled(w, cfg, m, e); } else { ManagedStep(w, cfg, m, e); }
        case Other(op) => OtherStep(w, m, op);
      }
      MixedRunStaysSettled(w, cfg, MixedStep(w, cfg, m, xs[0]), xs[1..]);
    }
  }

  lemma StartIsSettled(w: Wiring, b: Board, now: real)
    requires !b.enabled && Working(b.port) && b.port.startFates != [] && b.port.startFates[0] == Up
    ensures Settled(w, Machine(Created(now), Started(w, b)))
  {
    StartedIsMirrored(w, b);
  }

  // Either some OFF write has taken the security event off both outputs, or none was asked
  // for and the manager's run is a quiet one.
  lemma {:induction false} MixedRunReleases(w: Wiring, cfg: Config, m: Machine, xs: seq<Mixed>)
    requires w.Distinct() && 1 <= cfg.retries && Settled(w, m)
    requires forall i :: 0 <= i < |xs| ==> Bystander(xs[i])
    ensures Settled(w, MixedRun(w, cfg, m, xs))
    ensures Released(m) ==> Released(MixedRun(w, cfg, m, xs))
    ensures Released(MixedRun(w, cfg, m, xs)) || Quiet(cfg, m.relay, MixedAnswers(w, cfg, m, xs))
    decreases |xs|
  {
    if xs != [] {
      hide Settled, MachineStep, Stepped, RequestOf, Answered, Applied;
      var next := MixedStep(w, cfg, m, xs[0]);
      assert Bystander(xs[0]);
      if xs[0].Managed? {
        ManagedStep(w, cfg, m, xs[0].e);
        MixedRunReleases(w, cfg, next, xs[1..]);
        assert MixedAnswers(w, cfg, m, xs)[1..] == MixedAnswers(w, cfg, next, xs[1..]);
      } else {
        OtherStep(w, m, xs[0].op);
        MixedRunReleases(w, cfg, next, xs[1..]);
        assert MixedAnswers(w, cfg, m, xs) == MixedAnswers(w, cfg, next, xs[1..]);
      }
    }
  }

  // Whoever else holds red and buzzer in between: with no detection after t the security
  // event has left both source sets by the usual bound, and the pins show what is left.
  lemma SecurityLetsGo(w: Wiring, cfg: Config, m: Machine, t: real, xs: seq<Mixed>, period: real, end: real)
    requires w.Distinct() && 1 <= cfg.retries && Settled(w, m) && Recorded(cfg, m.relay, t)
    requires cfg.ttl > 0.0 && cfg.failsafe > 0.0 && 0.0 <= period
    requires forall i :: 0 <= i < |xs| ==> Bystander(xs[i])
    requires Timed(Events(xs), t, end) && KeepsUp(Events(xs), t, period, end)
    requires t + Drain(cfg, LeftOn(m.relay)) + cfg.failsafe + 2.0 * period <= end
    ensures var r := MixedRun(w, cfg, m, xs);
            && SECURITY !in r.board.red && SECURITY !in r.board.buzzer && r.relay.sources == {}
            && (PinActive(w, r.board, w.red) <==> r.board.red != {})
            && (PinActive(w, r.board, w.buzzer) <==> r.board.buzzer != {})
  {
    hide MixedRun, MixedAnswers, Recorded;
    MixedRunReleases(w, cfg, m, xs);
    MixedAnswersKeepTime(w, cfg, m, xs, t, t, period, end);
    var r := MixedRun(w, cfg, m, xs);
    if !Released(r) {
      ReleasedAfterQuiet(cfg, m.relay, t, MixedAnswers(w, cfg, m, xs), period, end);
    }
  }

  lemma {:induction false} UnsharedRunIsQuiet(w: Wiring, cfg: Config, m: Machine, xs: seq<Mixed>)
    requires w.Distinct() && 1 <= cfg.retries && Settled(w, m) && Unshared(m)
    requires forall i :: 0 <= i < |xs| ==> Bystander(xs[i]) && (xs[i].Other? ==> Leaves(xs[i].op))
    ensures Settled(w, MixedRun(w, cfg, m, xs)) && Unshared(MixedRun(w, cfg, m, xs))
    ensures Quiet(cfg, m.relay, MixedAnswers(w, cfg, m, xs))
    decreases |xs|
  {
    if xs != [] {
      hide Settled, MachineStep, Stepped, RequestOf, Answered, Applied;
      var next := MixedStep(w, cfg, m, xs[0]);
      assert Bystander(xs[0]) && (xs[0].Other? ==> Leaves(xs[0].op));
      if xs[0].Managed? {
        ManagedStep(w, cfg, m, xs[0].e);
        UnsharedRunIsQuiet(w, cfg, next, xs[1..]);
        assert MixedAnswers(w, cfg, m, xs)[1..] == MixedAnswers(w, cfg, next, xs[1..]);
      } else {
        OtherStep(w, m, xs[0].op);
        UnsharedRunIsQuiet(w, cfg, next, xs[1..]);
        assert MixedAnswers(w, cfg, m, xs) == MixedAnswers(w, cfg, next, xs[1..]);
      }
    }
  }

  // Once the last other user has let go at h, the belief follows: the relay is believed
  // off, and both pins are inactive, from this bound on.
  lemma RelayLetsGo(w: Wiring, cfg: Config, m: Machine, h: real, xs: seq<Mixed>, period: real, end: real)
    requires w.Distinct() && 1 <= cfg.retries && Settled(w, m) && Unshared(m) && Recorded(cfg, m.relay, h)
    requires cfg.ttl > 0.0 && cfg.failsafe > 0.0 && 0.0 <= period
    requires forall i :: 0 <= i < |xs| ==> Bystander(xs[i]) && (xs[i].Other? ==> Leaves(xs[i].op))
    requires Timed(Events(xs), h, end) && KeepsUp(Events(xs), h, period, end)
    requires h + Drain(cfg, LeftOn(m.relay)) + cfg.failsafe + 2.0 * period <= end
    ensures var r := MixedRun(w, cfg, m, xs);
            !r.relay.on && !PinActive(w, r.board, w.red) && !PinActive(w, r.board, w.buzzer)
  {
    hide MixedRun, MixedAnswers, Recorded;
    UnsharedRunIsQuiet(w, cfg, m, xs);
    MixedAnswersKeepTime(w, cfg, m, xs, h, h, period, end);
    ReleasedAfterQuiet(cfg, m.relay, h, MixedAnswers(w, cfg, m, xs), period, end);
    var r := MixedRun(w, cfg, m, xs);
    assert SECURITY !in r.board.red && SECURITY !in r.board.buzzer;
    assert r.board.red == {} && r.board.buzzer == {};
  }

  // One tick is not enough for that: a failsafe that failed while the outputs were shared
  // asks for nothing before its time has passed again.
  lemma FailedFailsafeWaits(cfg: Config, s: Relay, at: real, later: real)
    requires Coherent(s) && s.life == WaitingOff && FailsafeDue(cfg, s, at) && at <= later < at + cfg.failsafe
    ensures var next := Ticked(cfg, s, at, false);
            LeftOn(next) && TickRequest(cfg, next, later) == NoWrite
  {
    assert Expired(cfg, s, at) == s;
    var next := Ticked(cfg, s, at, false);
    assert Expired(cfg, next, later) == next;
  }
}
