// Detectors, state manager and relay manager as one system: each step runs under the
// state manager's lock and delivers its event to the relay manager before it ends.
module Pipeline {
  import opened Common
  import opened SecurityRelay
  import opened SecurityRelayRuns
  import opened DetectionState

  datatype Settings = Settings(cfg: Config, refresh: real)

  datatype System = System(cams: Cameras, relay: Relay, log: seq<DetectionState.Event>)

  // clear_presence and clear_tamper are the reports with every flag false.
  datatype Step =
    | Presence(camera: string, face: bool, hand: bool, person: bool, at: real, ok: bool)
    | TamperReport(camera: string, tamper: bool, at: real, ok: bool)
    | WorkerTick(at: real, ok: bool)
    | ManualOff(at: real, ok: bool)

  function Raised(st: Settings, sys: System, step: Step): (es: seq<DetectionState.Event>)
    ensures |es| <= 1
  {
    match step
    case Presence(camera, _, _, person, at, _) => Events(sys.cams, camera, Signal.Person, person, at, st.refresh)
    case TamperReport(camera, tamper, at, _) => Events(sys.cams, camera, Signal.Tamper, tamper, at, st.refresh)
    case _ => []
  }

  function CamerasAfter(st: Settings, sys: System, step: Step): Cameras {
    match step
    case Presence(camera, face, hand, person, at, _) =>
      PresenceUpdated(sys.cams, camera, face, hand, person, at, st.refresh)
    case TamperReport(camera, tamper, at, _) => Updated(sys.cams, camera, Signal.Tamper, tamper, at, st.refresh)
    case _ => sys.cams
  }

  function Advanced(st: Settings, sys: System, step: Step): System {
    var es := Raised(st, sys, step);
    var relay := match step
      case WorkerTick(at, ok) => Ticked(st.cfg, sys.relay, at, ok)
      case ManualOff(at, ok) => ForcedIdle(sys.relay, at, ok)
      case _ => Delivered(st.cfg, sys.relay, es, step.at, step.ok);
    System(CamerasAfter(st, sys, step), relay, sys.log + es)
  }

  function WriteOf(st: Settings, sys: System, step: Step): Request {
    match step
    case WorkerTick(at, _) => TickRequest(st.cfg, sys.relay, at)
    case ManualOff(_, _) => TurnOff(true)
    case _ => DeliveryRequest(st.cfg, sys.relay, Raised(st, sys, step), step.at)
  }

  function AdvancedAll(st: Settings, sys: System, steps: seq<Step>): System
    decreases |steps|
  {
    if steps == [] then sys else AdvancedAll(st, Advanced(st, sys, steps[0]), steps[1..])
  }

  function Boot(now: real): System { System(INITIAL, Created(now), []) }

  predicate Flag(cams: Cameras, camera: string, signal: Signal) {
    CameraOf(cams, camera).Get(signal).active
  }

  predicate SourceFlag(cams: Cameras, source: Source) {
    match source
    case InternalPerson => Flag(cams, "internal", Signal.Person)
    case InternalTamper => Flag(cams, "internal", Signal.Tamper)
    case ExternalTamper => Flag(cams, "external", Signal.Tamper)
  }

  // ---- agreement between the flags, the published events and the relay sources ----

  // Whether the last event published for a signal says it is detected.
  predicate LastDetected(log: seq<DetectionState.Event>, camera: string, signal: Signal)
    decreases |log|
  {
    log != [] &&
    var last := log[|log| - 1];
    if last.camera == camera && last.signal == signal then last.detected
    else LastDetected(log[..|log| - 1], camera, signal)
  }

  // Every CLEARED ends an active period that no other CLEARED has ended.
  ghost predicate OneClearPerPeriod(log: seq<DetectionState.Event>) {
    forall i :: 0 <= i < |log| && !log[i].detected ==> LastDetected(log[..i], log[i].camera, log[i].signal)
  }

  ghost predicate FlagsMatchLog(sys: System) {
    forall camera, signal | camera != "" && Published(signal) ::
      Flag(sys.cams, camera, signal) <==> LastDetected(sys.log, camera, signal)
  }

  ghost predicate SourcesFlagged(sys: System) {
    forall source :: source in sys.relay.sources ==> SourceFlag(sys.cams, source)
  }

  ghost predicate Agrees(sys: System) {
    Coherent(sys.relay) && SourcesFlagged(sys) && FlagsMatchLog(sys) && OneClearPerPeriod(sys.log)
  }

  lemma CameraUpdate(cams: Cameras, camera: string, signal: Signal, active: bool, now: real, refresh: real,
                     other: string, which: Signal)
    ensures Flag(Updated(cams, camera, signal, active, now, refresh), other, which)
         == if Role(other) == Role(camera) && which == signal then active else Flag(cams, other, which)
  {}

  // A step moves only the flags it reports.
  lemma FlagAfter(st: Settings, sys: System, step: Step, camera: string, signal: Signal)
    requires Published(signal)
    ensures Flag(CamerasAfter(st, sys, step), camera, signal) ==
            if step.Presence? && Role(camera) == Role(step.camera) && signal == Signal.Person then step.person
            else if step.TamperReport? && Role(camera) == Role(step.camera) && signal == Signal.Tamper then step.tamper
            else Flag(sys.cams, camera, signal)
  {
    match step
    case Presence(c, face, hand, person, at, _) =>
      var one := Updated(sys.cams, c, Signal.Face, face, at, st.refresh);
      var two := Updated(one, c, Signal.Hand, hand, at, st.refresh);
      CameraUpdate(sys.cams, c, Signal.Face, face, at, st.refresh, camera, signal);
      CameraUpdate(one, c, Signal.Hand, hand, at, st.refresh, camera, signal);
      CameraUpdate(two, c, Signal.Person, person, at, st.refresh, camera, signal);
    case TamperReport(c, tamper, at, _) =>
      CameraUpdate(sys.cams, c, Signal.Tamper, tamper, at, st.refresh, camera, signal);
    case _ =>
  }

  lemma LogAfter(st: Settings, sys: System, step: Step, camera: string, signal: Signal)
    requires FlagsMatchLog(sys) && camera != "" && Published(signal)
    ensures LastDetected(sys.log + Raised(st, sys, step), camera, signal)
         == Flag(CamerasAfter(st, sys, step), camera, signal)
  {
    FlagAfter(st, sys, step, camera, signal);
    var es := Raised(st, sys, step);
    if es != [] {
      assert (sys.log + es)[..|sys.log + es| - 1] == sys.log;
    } else {
      assert sys.log + es == sys.log;
    }
    assert Flag(sys.cams, camera, signal) <==> LastDetected(sys.log, camera, signal);
  }

  // A delivery adds only the source it detects and removes the one it clears.
  lemma DeliverySources(cfg: Config, s: Relay, es: seq<DetectionState.Event>, now: real, ok: bool)
    requires |es| <= 1 && Coherent(s)
    ensures var t := Delivered(cfg, s, es, now, ok);
            && Coherent(t)
            && forall source :: source in t.sources ==>
                 if es != [] && SourceOf(es[0]) == Some(source) then es[0].detected else source in s.sources
  {
    if es != [] && SourceOf(es[0]).Some? {
      StepStaysCoherent(cfg, s, Detect(SourceOf(es[0]).value, now, ok));
      StepStaysCoherent(cfg, s, Clear(SourceOf(es[0]).value, now));
    }
  }

  lemma RelaySourcesAfter(st: Settings, sys: System, step: Step)
    requires Coherent(sys.relay)
    ensures var t := Advanced(st, sys, step).relay;
            var es := Raised(st, sys, step);
            && Coherent(t)
            && forall source :: source in t.sources ==>
                 if es != [] && SourceOf(es[0]) == Some(source) then es[0].detected else source in sys.relay.sources
  {
    match step
    case WorkerTick(at, ok) =>
      StepStaysCoherent(st.cfg, sys.relay, Tick(at, ok));
      ExpiredStaysCoherent(st.cfg, sys.relay, at);
    case ManualOff(at, ok) => StepStaysCoherent(st.cfg, sys.relay, Force(at, ok));
    case _ => DeliverySources(st.cfg, sys.relay, Raised(st, sys, step), step.at, step.ok);
  }

  function CameraNameOf(source: Source): string {
    if source == ExternalTamper then "external" else "internal"
  }

  function SignalOf(source: Source): Signal {
    if source == InternalPerson then Signal.Person else Signal.Tamper
  }

  lemma SourcesStayFlagged(st: Settings, sys: System, step: Step)
    requires Coherent(sys.relay) && SourcesFlagged(sys)
    ensures Coherent(Advanced(st, sys, step).relay) && SourcesFlagged(Advanced(st, sys, step))
  {
    hide Updated, PresenceUpdated, Delivered, Ticked, ForcedIdle, Coherent;
    RelaySourcesAfter(st, sys, step);
    var next := Advanced(st, sys, step);
    forall source | source in next.relay.sources ensures SourceFlag(next.cams, source) {
      FlagAfter(st, sys, step, CameraNameOf(source), SignalOf(source));
    }
  }

  lemma StepKeepsAgreement(st: Settings, sys: System, step: Step)
    requires Agrees(sys)
    ensures Agrees(Advanced(st, sys, step))
  {
    hide Updated, PresenceUpdated, Delivered;
    SourcesStayFlagged(st, sys, step);
    var next := Advanced(st, sys, step);
    forall camera, signal | camera != "" && Published(signal)
      ensures Flag(next.cams, camera, signal) <==> LastDetected(next.log, camera, signal)
    {
      LogAfter(st, sys, step, camera, signal);
    }
    forall i | 0 <= i < |next.log| && !next.log[i].detected
      ensures LastDetected(next.log[..i], next.log[i].camera, next.log[i].signal)
    {
      if i < |sys.log| {
        assert next.log[..i] == sys.log[..i] && next.log[i] == sys.log[i];
      } else {
        assert next.log[..i] == sys.log;
        assert Flag(sys.cams, next.log[i].camera, next.log[i].signal);
      }
    }
  }

  // Whenever the state manager's lock is free, in every run from start-up.
  lemma {:induction false} RunKeepsAgreement(st: Settings, sys: System, steps: seq<Step>)
    requires Agrees(sys)
    ensures Agrees(AdvancedAll(st, sys, steps))
    decreases |steps|
  {
    if steps != [] {
      StepKeepsAgreement(st, sys, steps[0]);
      RunKeepsAgreement(st, Advanced(st, sys, steps[0]), steps[1..]);
    }
  }

  lemma BootAgrees(now: real)
    ensures Agrees(Boot(now))
  {}
}
