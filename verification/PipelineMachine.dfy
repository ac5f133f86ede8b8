// The whole chain on the device: detectors' reports, state manager, relay manager and the
// board they end in.
module PipelineMachine {
  import opened Common
  import opened RelayBoard
  import opened RelayBoardFacts
  import opened SecurityRelay
  import SecurityRelayRuns
  import opened RelayMachine
  import DetectionState
  import opened Pipeline
  import opened KeepAlive

  datatype Rig = Rig(sys: System, board: Board)

  function MachineOf(rig: Rig): Machine { Machine(rig.sys.relay, rig.board) }

  // A step as the hardware answered the write it asks for, if any.
  function Settled(w: Wiring, st: Settings, rig: Rig, step: Step): Step {
    var request := WriteOf(st, rig.sys, step);
    step.(ok := request == NoWrite || Performed(w, rig.board, request, st.cfg.retries).ok)
  }

  function Driven(w: Wiring, st: Settings, rig: Rig, step: Step): Rig {
    Rig(Advanced(st, rig.sys, Settled(w, st, rig, step)),
        Performed(w, rig.board, WriteOf(st, rig.sys, step), st.cfg.retries).board)
  }

  function DrivenAll(w: Wiring, st: Settings, rig: Rig, steps: seq<Step>): Rig
    decreases |steps|
  {
    if steps == [] then rig else DrivenAll(w, st, Driven(w, st, rig, steps[0]), steps[1..])
  }

  // What the relay manager sees of a step, if anything.
  function RelayEvent(st: Settings, sys: System, step: Step): Option<SecurityRelayRuns.Event> {
    match step
    case WorkerTick(at, ok) => Some(SecurityRelayRuns.Tick(at, ok))
    case ManualOff(at, ok) => Some(SecurityRelayRuns.Force(at, ok))
    case _ =>
      var es := Raised(st, sys, step);
      if es == [] || DetectionState.SourceOf(es[0]).None? then None
      else
        var source := DetectionState.SourceOf(es[0]).value;
        Some(if es[0].detected then SecurityRelayRuns.Detect(source, step.at, step.ok)
             else SecurityRelayRuns.Clear(source, step.at))
  }

  lemma StepIsEvent(st: Settings, sys: System, step: Step)
    ensures match RelayEvent(st, sys, step)
            case None => Advanced(st, sys, step).relay == sys.relay && WriteOf(st, sys, step) == NoWrite
            case Some(e) =>
              && Advanced(st, sys, step).relay == SecurityRelayRuns.Stepped(st.cfg, sys.relay, e)
              && WriteOf(st, sys, step) == SecurityRelayRuns.RequestOf(st.cfg, sys.relay, e)
  {
    hide DetectionState.Events, DetectionState.Updated, DetectionState.PresenceUpdated;
  }

  lemma AnswerKeepsEvent(st: Settings, sys: System, step: Step, ok: bool)
    ensures WriteOf(st, sys, step.(ok := ok)) == WriteOf(st, sys, step)
    ensures match RelayEvent(st, sys, step)
            case None => RelayEvent(st, sys, step.(ok := ok)).None?
            case Some(e) => RelayEvent(st, sys, step.(ok := ok)) == Some(if e.Clear? then e else e.(ok := ok))
  {
    hide DetectionState.Events;
  }

  // The chain moves manager and board as one event of the relay machine does, or not at all.
  lemma DrivenIsMachineStep(w: Wiring, st: Settings, rig: Rig, step: Step)
    ensures MachineOf(Driven(w, st, rig, step)) ==
            match RelayEvent(st, rig.sys, step)
            case None => MachineOf(rig)
            case Some(e) => MachineStep(w, st.cfg, MachineOf(rig), e)
  {
    hide RelayEvent, Advanced, WriteOf, SecurityRelayRuns.Stepped, SecurityRelayRuns.RequestOf, Executed;
    StepIsEvent(st, rig.sys, step);
    var settled := Settled(w, st, rig, step);
    AnswerKeepsEvent(st, rig.sys, step, settled.ok);
    StepIsEvent(st, rig.sys, settled);
  }

  // Agreement of flags, log and sources, and of the manager's belief with both pins.
  ghost predicate Sound(w: Wiring, rig: Rig) {
    Agrees(rig.sys) && Faithfully(w, MachineOf(rig))
  }

  lemma DrivenStaysFaithful(w: Wiring, st: Settings, rig: Rig, step: Step)
    requires w.Distinct() && 1 <= st.cfg.retries && Faithfully(w, MachineOf(rig))
    ensures Faithfully(w, MachineOf(Driven(w, st, rig, step)))
  {
    hide Faithfully, Driven, MachineStep, MachineOf, RelayEvent;
    DrivenIsMachineStep(w, st, rig, step);
    var e := RelayEvent(st, rig.sys, step);
    if e.Some? { StepStaysFaithful(w, st.cfg, MachineOf(rig), e.value); }
  }

  lemma {:induction false} RunStaysSound(w: Wiring, st: Settings, rig: Rig, steps: seq<Step>)
    requires w.Distinct() && 1 <= st.cfg.retries && Sound(w, rig)
    ensures Sound(w, DrivenAll(w, st, rig, steps))
    decreases |steps|
  {
    if steps != [] {
      hide Agrees, Faithfully, Advanced, Settled, WriteOf, Performed;
      StepKeepsAgreement(st, rig.sys, Settled(w, st, rig, steps[0]));
      DrivenStaysFaithful(w, st, rig, steps[0]);
      RunStaysSound(w, st, Driven(w, st, rig, steps[0]), steps[1..]);
    }
  }

  // Both pins active now and after every further step.
  ghost predicate PinsHeld(w: Wiring, st: Settings, rig: Rig, steps: seq<Step>)
    decreases |steps|
  {
    && PinActive(w, rig.board, w.red) && PinActive(w, rig.board, w.buzzer)
    && (steps == [] || PinsHeld(w, st, Driven(w, st, rig, steps[0]), steps[1..]))
  }

  lemma WarmMeansPins(w: Wiring, st: Settings, rig: Rig, last: real, from: real, gap: real, k: nat)
    requires Faithfully(w, MachineOf(rig)) && Warm(st, rig.sys, last, from, gap, k)
    ensures PinActive(w, rig.board, w.red) && PinActive(w, rig.board, w.buzzer)
  {}

  lemma {:induction false} PinsHeldWhileWarm(w: Wiring, st: Settings, rig: Rig, steps: seq<Step>,
                                             last: real, from: real, gap: real, k: nat)
    requires w.Distinct() && 1 <= st.cfg.retries && Faithfully(w, MachineOf(rig))
    requires 0.0 <= gap && 0.0 < st.refresh && Fits(st, gap)
    requires Warm(st, rig.sys, last, from, gap, k) && Fed(steps, last, from, gap)
    ensures PinsHeld(w, st, rig, steps)
    decreases |steps|
  {
    WarmMeansPins(w, st, rig, last, from, gap, k);
    if steps != [] {
      hide Faithfully, Warm, Fits, PinActive, Advanced, WriteOf, Performed;
      var e := Settled(w, st, rig, steps[0]);
      assert Fed([e], last, from, gap) by { assert [e][1..] == []; }
      var next := StepStaysWarm(st, rig.sys, e, last, from, gap, k);
      DrivenStaysFaithful(w, st, rig, steps[0]);
      PinsHeldWhileWarm(w, st, Driven(w, st, rig, steps[0]), steps[1..],
                        if ReportsPerson(steps[0]) then e.at else last, e.at, gap, next);
    }
  }

  // From any state the device can reach with nobody present: the first report of a person
  // switches both pins on, and while reports keep coming they stay on after every step.
  lemma PersonKeepsPinsActive(w: Wiring, st: Settings, rig: Rig, first: Step, steps: seq<Step>, gap: real)
    requires w.Distinct() && 1 <= st.cfg.retries && Sound(w, rig)
    requires 0.0 <= gap && 0.0 < st.refresh && Fits(st, gap)
    requires !PersonOf(rig.sys).active && ReportsPerson(first) && first.person && 0.0 < first.at
    requires Fed(steps, first.at, first.at, gap)
    ensures PinsHeld(w, st, Driven(w, st, rig, first), steps)
  {
    hide Agrees, Faithfully, Warm, Fits, Advanced, WriteOf, Performed;
    FirstReportWarms(st, rig.sys, Settled(w, st, rig, first), gap);
    DrivenStaysFaithful(w, st, rig, first);
    PinsHeldWhileWarm(w, st, Driven(w, st, rig, first), steps, first.at, first.at, gap, 0);
  }
}
