// The relay manager driving the real board: with working GPIO and the outputs reserved
// for security (the default), what the manager believes is what the pins do.
module RelayMachine {
  import opened Common
  import opened GpioPort
  import opened RelayBoard
  import opened RelayBoardFacts
  import opened SecurityRelay
  import opened SecurityRelayRuns
  import opened SecurityRelayRelease
  import opened RelayWriteFacts

  datatype Machine = Machine(relay: Relay, board: Board)

  // An event as the hardware answered it; a step that writes nothing cannot fail.
  function Answered(w: Wiring, cfg: Config, m: Machine, e: Event): Event {
    var request := RequestOf(cfg, m.relay, e);
    var ok := request == NoWrite || Performed(w, m.board, request, cfg.retries).ok;
    if e.Clear? then e else e.(ok := ok)
  }

  function MachineStep(w: Wiring, cfg: Config, m: Machine, e: Event): Machine {
    Machine(Stepped(cfg, m.relay, Answered(w, cfg, m, e)),
            Performed(w, m.board, RequestOf(cfg, m.relay, e), cfg.retries).board)
  }

  function MachineRun(w: Wiring, cfg: Config, m: Machine, es: seq<Event>): Machine
    decreases |es|
  {
    if es == [] then m else MachineRun(w, cfg, MachineStep(w, cfg, m, es[0]), es[1..])
  }

  function Answers(w: Wiring, cfg: Config, m: Machine, es: seq<Event>): (answered: seq<Event>)
    ensures |answered| == |es|
    decreases |es|
  {
    if es == [] then [] else [Answered(w, cfg, m, es[0])] + Answers(w, cfg, MachineStep(w, cfg, m, es[0]), es[1..])
  }

  // What the manager believes is what both pins do.
  ghost predicate Faithfully(w: Wiring, m: Machine) {
    && Mirrored(w, m.board) && Coherent(m.relay)
    && m.board.red <= {SECURITY} && m.board.buzzer <= {SECURITY}
    && (m.relay.on <==> PinActive(w, m.board, w.red))
    && (m.relay.on <==> PinActive(w, m.board, w.buzzer))
    && (m.relay.life == Active ==> m.relay.on) && !LeftOn(m.relay)
  }

  lemma WriteSucceeds(w: Wiring, cfg: Config, b: Board, request: Request)
    requires w.Distinct() && 1 <= cfg.retries && Mirrored(w, b)
    requires b.red <= {SECURITY} && b.buzzer <= {SECURITY} && request != NoWrite
    ensures var r := Performed(w, b, request, cfg.retries);
            && r.ok && Mirrored(w, r.board) && r.board.red <= {SECURITY} && r.board.buzzer <= {SECURITY}
            && (PinActive(w, r.board, w.red) <==> request == TurnOn)
            && (PinActive(w, r.board, w.buzzer) <==> request == TurnOn)
  {
    hide Executed;
    match request
    case TurnOn => OnWorks(w, b, cfg.retries);
    case TurnOff(force) => OffWorksIffUnshared(w, b, force, cfg.retries);
  }

  // How the believed relay state moves with the write a step issues.
  lemma BeliefFollowsWrite(cfg: Config, s: Relay, e: Event)
    requires Coherent(s) && (s.life == Active ==> s.on) && !LeftOn(s) && (e.Clear? || e.ok)
    ensures var t := Stepped(cfg, s, e);
            && Coherent(t) && (t.life == Active ==> t.on) && !LeftOn(t)
            && match RequestOf(cfg, s, e)
               case NoWrite => t.on == s.on
               case TurnOn => t.on
               case TurnOff(_) => !t.on
  {
    StepStaysCoherent(cfg, s, e);
    ExpiredStaysCoherent(cfg, s, e.at);
  }

  lemma StepStaysFaithful(w: Wiring, cfg: Config, m: Machine, e: Event)
    requires w.Distinct() && 1 <= cfg.retries && Faithfully(w, m)
    ensures Faithfully(w, MachineStep(w, cfg, m, e))
    ensures var a := Answered(w, cfg, m, e); a.Clear? || a.ok
  {
    hide Stepped, RequestOf, Executed;
    var request := RequestOf(cfg, m.relay, e);
    if request != NoWrite { WriteSucceeds(w, cfg, m.board, request); }
    var a := Answered(w, cfg, m, e);
    assert RequestOf(cfg, m.relay, a) == request by { RequestIgnoresAnswer(cfg, m.relay, e, a); }
    BeliefFollowsWrite(cfg, m.relay, a);
  }

  lemma RequestIgnoresAnswer(cfg: Config, s: Relay, e: Event, a: Event)
    requires e == a || (!e.Clear? && !a.Clear? && a == e.(ok := a.ok))
    ensures RequestOf(cfg, s, e) == RequestOf(cfg, s, a)
  {}

  // Over every run the pins follow the manager, and the manager's run is the abstract
  // one in which every write succeeds.
  lemma {:induction false} RunStaysFaithful(w: Wiring, cfg: Config, m: Machine, es: seq<Event>)
    requires w.Distinct() && 1 <= cfg.retries && Faithfully(w, m)
    ensures Faithfully(w, MachineRun(w, cfg, m, es))
    ensures var answered := Answers(w, cfg, m, es);
            && WritesOk(answered)
            && MachineRun(w, cfg, m, es).relay == Ran(cfg, m.relay, answered)
            && forall i :: 0 <= i < |es| ==>
                 answered[i] == es[i] || (!es[i].Clear? && answered[i] == es[i].(ok := true))
    decreases |es|
  {
    if es != [] {
      StepStaysFaithful(w, cfg, m, es[0]);
      var next := MachineStep(w, cfg, m, es[0]);
      RunStaysFaithful(w, cfg, next, es[1..]);
      var answered := Answers(w, cfg, m, es);
      assert answered[1..] == Answers(w, cfg, next, es[1..]);
      forall i | 0 <= i < |es|
        ensures answered[i].Clear? || answered[i].ok
        ensures answered[i] == es[i] || (!es[i].Clear? && answered[i] == es[i].(ok := true))
      {
        if i > 0 { assert answered[i] == answered[1..][i - 1] && es[i] == es[1..][i - 1]; }
      }
    }
  }

  // Whatever the hardware answers, the manager's own run is the abstract one on those
  // answers, at the same times.
  lemma {:induction false} MachineRunIsRun(w: Wiring, cfg: Config, m: Machine, es: seq<Event>)
    ensures MachineRun(w, cfg, m, es).relay == Ran(cfg, m.relay, Answers(w, cfg, m, es))
    decreases |es|
  {
    if es != [] {
      hide Stepped, Answered, Performed;
      var next := MachineStep(w, cfg, m, es[0]);
      MachineRunIsRun(w, cfg, next, es[1..]);
      assert Answers(w, cfg, m, es)[1..] == Answers(w, cfg, next, es[1..]);
    }
  }

  lemma {:induction false} AnswersKeepTime(w: Wiring, cfg: Config, m: Machine, es: seq<Event>,
                                           from: real, last: real, period: real, end: real)
    ensures Timed(es, from, end) ==> Timed(Answers(w, cfg, m, es), from, end)
    ensures KeepsUp(es, last, period, end) ==> KeepsUp(Answers(w, cfg, m, es), last, period, end)
    decreases |es|
  {
    if es != [] {
      var next := MachineStep(w, cfg, m, es[0]);
      var a := Answered(w, cfg, m, es[0]);
      assert a.at == es[0].at && a.Tick? == es[0].Tick?;
      hide MachineStep, Answered;
      assert Answers(w, cfg, m, es)[1..] == Answers(w, cfg, next, es[1..]);
      AnswersKeepTime(w, cfg, next, es[1..], es[0].at, if es[0].Tick? then es[0].at else last, period, end);
    }
  }

  // While any source is active both pins are.
  lemma ActiveSourceMeansPinsActive(w: Wiring, cfg: Config, m: Machine, es: seq<Event>)
    requires w.Distinct() && 1 <= cfg.retries && Faithfully(w, m)
    ensures var r := MachineRun(w, cfg, m, es);
            r.relay.sources != {} ==> PinActive(w, r.board, w.red) && PinActive(w, r.board, w.buzzer)
  {
    RunStaysFaithful(w, cfg, m, es);
  }

  lemma StartIsFaithful(w: Wiring, b: Board, now: real)
    requires !b.enabled && Working(b.port) && b.port.startFates != [] && b.port.startFates[0] == Up
    ensures Faithfully(w, Machine(Created(now), Started(w, b)))
  {
    StartedIsMirrored(w, b);
  }
}
