// What a report to the state manager reaches: the event it raises, the relay source, the
// write, and the pins.
module DetectionDelivery {
  import opened Common
  import opened RelayBoard
  import opened RelayBoardFacts
  import opened SecurityRelay
  import opened SecurityRelayRuns
  import DetectionState
  import opened Pipeline
  import opened RelayMachine
  import opened PipelineMachine
  import opened RelayTicks

  // The report that carries a source's signal, and what it says of it.
  predicate Reports(step: Step, source: Source) {
    match source
    case InternalPerson => step.Presence? && (step.camera == "internal" || step.camera == "")
    case InternalTamper => step.TamperReport? && (step.camera == "internal" || step.camera == "")
    case ExternalTamper => step.TamperReport? && step.camera == "external"
  }

  predicate Says(step: Step) {
    match step
    case Presence(_, _, _, person, _, _) => person
    case TamperReport(_, tamper, _, _) => tamper
    case _ => false
  }

  function RecordOf(sys: System, source: Source): DetectionState.SignalState {
    match source
    case InternalPerson => DetectionState.CameraOf(sys.cams, "internal").person
    case InternalTamper => DetectionState.CameraOf(sys.cams, "internal").tamper
    case ExternalTamper => DetectionState.CameraOf(sys.cams, "external").tamper
  }

  // A signal that rises: its relay source is held, and an ON write asked for.
  lemma RisingReachesRelay(st: Settings, sys: System, source: Source, step: Step)
    requires Agrees(sys) && !SourceFlag(sys.cams, source) && Reports(step, source) && Says(step)
    ensures WriteOf(st, sys, step) == TurnOn
    ensures var t := Advanced(st, sys, step).relay;
            && t.sources == sys.relay.sources + {source} && t.lastEvent[source] == step.at
            && t.life == Active && (t.on <==> sys.relay.on || step.ok)
    ensures RecordOf(Advanced(st, sys, step), source) == DetectionState.SignalState(true, step.at, step.at)
  {
    assert source !in sys.relay.sources;
    StepStaysCoherent(st.cfg, sys.relay, Detect(source, step.at, step.ok));
  }

  // One that falls: the source is gone, and no write asked for.
  lemma FallingReachesRelay(st: Settings, sys: System, source: Source, step: Step)
    requires Agrees(sys) && SourceFlag(sys.cams, source) && Reports(step, source) && !Says(step)
    ensures WriteOf(st, sys, step) == NoWrite
    ensures var t := Advanced(st, sys, step).relay;
            && t.sources == sys.relay.sources - {source} && t.on == sys.relay.on
            && (t.sources == {} && t.on ==> t.life == WaitingOff && t.offDeadline == step.at + st.cfg.timeout)
            && (t.sources == {} && !t.on ==> t.life == Idle)
    ensures RecordOf(Advanced(st, sys, step), source) == DetectionState.SignalState(false, 0.0, 0.0)
  {
    StepStaysCoherent(st.cfg, sys.relay, Clear(source, step.at));
  }

  // One that stays up: published again exactly when the last publication is the refresh
  // interval old (or at 0.0, "never"), and then the relay's record is renewed unless the
  // debounce swallows it; a source that had expired comes back.
  lemma SteadyReachesRelay(st: Settings, sys: System, source: Source, step: Step)
    requires Agrees(sys) && SourceFlag(sys.cams, source) && Reports(step, source) && Says(step)
    ensures var before := RecordOf(sys, source).publishedAt;
            var due := before == 0.0 || step.at - before >= st.refresh;
            var heard := due && (source !in sys.relay.sources || sys.relay.lastEvent[source] == 0.0
                                 || step.at - sys.relay.lastEvent[source] >= st.cfg.debounce);
            var next := Advanced(st, sys, step);
            && (next.log == sys.log <==> !due)
            && RecordOf(next, source) == DetectionState.SignalState(true, step.at, if due then step.at else before)
            && next.relay.sources == (if heard then sys.relay.sources + {source} else sys.relay.sources)
            && next.relay.lastEvent == (if heard then sys.relay.lastEvent[source := step.at] else sys.relay.lastEvent)
            && (WriteOf(st, sys, step) == TurnOn <==> due && source !in sys.relay.sources)
            && (WriteOf(st, sys, step) == NoWrite <==> !due || source in sys.relay.sources)
  {
    SteadyRaises(st, sys, source, step);
    hide DetectionState.Updated, DetectionState.PresenceUpdated, DetectionState.Events, Detected, DetectedRequest;
    hide FlagsMatchLog, OneClearPerPeriod;
    DetectLeaves(st.cfg, sys.relay, source, step.at, step.ok);
    assert source in sys.relay.sources ==> sys.relay.sources + {source} == sys.relay.sources;
  }

  // The event such a report raises, and the record it leaves.
  lemma SteadyRaises(st: Settings, sys: System, source: Source, step: Step)
    requires SourceFlag(sys.cams, source) && Reports(step, source) && Says(step)
    ensures var before := RecordOf(sys, source).publishedAt;
            var due := before == 0.0 || step.at - before >= st.refresh;
            var es := Raised(st, sys, step);
            && (due ==> |es| == 1 && es[0].detected && DetectionState.SourceOf(es[0]) == Some(source))
            && (!due ==> es == [])
            && RecordOf(Advanced(st, sys, step), source)
               == DetectionState.SignalState(true, step.at, if due then step.at else before)
  {
    hide DetectionState.Delivered;
  }

  // No other report moves a relay source: not a face or a hand, not the external person.
  lemma OthersReachNothing(st: Settings, sys: System, step: Step)
    requires step.Presence? || step.TamperReport?
    requires forall source :: !Reports(step, source)
    ensures WriteOf(st, sys, step) == NoWrite && Advanced(st, sys, step).relay == sys.relay
  {
    assert !Reports(step, InternalPerson) && !Reports(step, InternalTamper) && !Reports(step, ExternalTamper);
  }

  // A presence report sets its three flags, a tamper report its one, on its own camera.
  lemma ReportSetsFlags(st: Settings, sys: System, step: Step, camera: string)
    requires camera != "" && (step.Presence? || step.TamperReport?)
    ensures var now := DetectionState.CameraOf(CamerasAfter(st, sys, step), camera);
            var was := DetectionState.CameraOf(sys.cams, camera);
            var own := step.camera == camera || (step.camera == "" && camera == "internal");
            && (!own ==> now == was)
            && (own && step.Presence? ==>
                  now.face.active == step.face && now.hand.active == step.hand && now.person.active == step.person
                  && now.tamper == was.tamper)
            && (own && step.TamperReport? ==>
                  && now.tamper.active == step.tamper
                  && now.face == was.face && now.hand == was.hand && now.person == was.person)
  {}

  // Refreshes are a quarter second apart unless configured, and never closer than a tenth.
  lemma RefreshSecondsMeaning(cooldown: real)
    ensures var seconds := DetectionState.RefreshSeconds(cooldown);
            seconds >= 0.1 && (cooldown == 0.0 ==> seconds == 0.25) && (cooldown >= 0.1 ==> seconds == cooldown)
            && (cooldown != 0.0 && cooldown < 0.1 ==> seconds == 0.1)
  {}

  // On working GPIO the pins follow at once.
  lemma RisingReachesPins(w: Wiring, st: Settings, rig: Rig, source: Source, step: Step)
    requires w.Distinct() && 1 <= st.cfg.retries && Sound(w, rig)
    requires !SourceFlag(rig.sys.cams, source) && Reports(step, source) && Says(step)
    ensures var next := Driven(w, st, rig, step);
            && source in next.sys.relay.sources
            && PinActive(w, next.board, w.red) && PinActive(w, next.board, w.buzzer)
  {
    hide Agrees, Advanced, WriteOf, Performed, SourceFlag;
    RisingReachesRelay(st, rig.sys, source, Settled(w, st, rig, step));
    DrivenStaysFaithful(w, st, rig, step);
    ActiveMeansPins(w, Driven(w, st, rig, step));
  }

  lemma ActiveMeansPins(w: Wiring, rig: Rig)
    requires Faithfully(w, MachineOf(rig)) && rig.sys.relay.life == Active
    ensures PinActive(w, rig.board, w.red) && PinActive(w, rig.board, w.buzzer)
  {}
}
