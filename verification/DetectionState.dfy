// The detection state manager: per-camera signals, one event on each change and
// rate-limited refreshes while a signal stays active, delivered synchronously to the
// security relay manager.
module DetectionState {
  import opened Common
  import opened RelayBoard
  import opened SecurityRelay

  datatype Signal = Face | Hand | Person | Tamper

  // A publish time of 0.0 means "never published".
  datatype SignalState = SignalState(active: bool, lastTime: real, publishedAt: real)

  const QUIET := SignalState(false, 0.0, 0.0)

  datatype Camera = Camera(face: SignalState, hand: SignalState, person: SignalState, tamper: SignalState)
  {
    function Get(signal: Signal): SignalState {
      match signal
      case Face => face
      case Hand => hand
      case Person => person
      case Tamper => tamper
    }

    function Put(signal: Signal, state: SignalState): Camera {
      match signal
      case Face => this.(face := state)
      case Hand => this.(hand := state)
      case Person => this.(person := state)
      case Tamper => this.(tamper := state)
    }
  }

  const NEW_CAMERA := Camera(QUIET, QUIET, QUIET, QUIET)

  type Cameras = map<string, Camera>

  const INITIAL: Cameras := map["internal" := NEW_CAMERA, "external" := NEW_CAMERA]

  // Published for person and tamper only: *_DETECTED when detected, else *_CLEARED.
  datatype Event = Event(camera: string, signal: Signal, detected: bool)

  // An empty camera role stands for the internal camera.
  function Role(camera: string): string { if camera == "" then "internal" else camera }

  function CameraOf(cams: Cameras, camera: string): Camera {
    if Role(camera) in cams then cams[Role(camera)] else NEW_CAMERA
  }

  function RefreshSeconds(cooldown: real): real {
    var base := if cooldown == 0.0 then 0.25 else cooldown;
    if base < 0.1 then 0.1 else base
  }

  predicate Published(signal: Signal) { signal == Person || signal == Tamper }

  predicate RefreshDue(s: SignalState, now: real, refresh: real) {
    s.publishedAt == 0.0 || now - s.publishedAt >= refresh
  }

  function SignalNext(signal: Signal, s: SignalState, active: bool, now: real, refresh: real): SignalState {
    if s.active != active then
      if active then SignalState(true, now, now) else SignalState(false, 0.0, 0.0)
    else if active && Published(signal) && RefreshDue(s, now, refresh) then SignalState(true, now, now)
    else if active then s.(lastTime := now)
    else s
  }

  predicate Publishes(signal: Signal, s: SignalState, active: bool, now: real, refresh: real) {
    Published(signal) && (s.active != active || (active && RefreshDue(s, now, refresh)))
  }

  // The events one signal report publishes: none or one.
  function Events(cams: Cameras, camera: string, signal: Signal, active: bool, now: real, refresh: real): seq<Event> {
    if Publishes(signal, CameraOf(cams, camera).Get(signal), active, now, refresh)
    then [Event(Role(camera), signal, active)] else []
  }

  function Updated(cams: Cameras, camera: string, signal: Signal, active: bool, now: real, refresh: real): Cameras {
    var c := CameraOf(cams, camera);
    cams[Role(camera) := c.Put(signal, SignalNext(signal, c.Get(signal), active, now, refresh))]
  }

  function PresenceUpdated(cams: Cameras, camera: string, face: bool, hand: bool, person: bool, now: real,
                           refresh: real): Cameras
  {
    Updated(Updated(Updated(cams, camera, Face, face, now, refresh), camera, Hand, hand, now, refresh),
            camera, Person, person, now, refresh)
  }

  // ---- delivery to the relay manager ----

  function SourceOf(e: Event): Option<Source> {
    if e.camera == "internal" && e.signal == Person then Some(InternalPerson)
    else if e.camera == "internal" && e.signal == Tamper then Some(InternalTamper)
    else if e.camera == "external" && e.signal == Tamper then Some(ExternalTamper)
    else None
  }

  function DeliveryRequest(cfg: Config, s: Relay, es: seq<Event>, now: real): Request
    requires |es| <= 1
  {
    if es != [] && es[0].detected && SourceOf(es[0]).Some?
    then DetectedRequest(cfg, s, SourceOf(es[0]).value, now) else NoWrite
  }

  function Delivered(cfg: Config, s: Relay, es: seq<Event>, now: real, ok: bool): Relay
    requires |es| <= 1
  {
    if es == [] || SourceOf(es[0]).None? then s
    else if es[0].detected then Detected(cfg, s, SourceOf(es[0]).value, now, ok)
    else Cleared(cfg, s, SourceOf(es[0]).value, now)
  }

  class DetectionStateManager {
    const relay: SecurityRelayManager
    const refresh: real
    var cameras: Cameras
    ghost var log: seq<Event>

    constructor (relay: SecurityRelayManager, cooldown: real)
      ensures this.relay == relay && refresh == RefreshSeconds(cooldown) && cameras == INITIAL && log == []
    {
      this.relay := relay;
      this.refresh := RefreshSeconds(cooldown);
      cameras := INITIAL;
      log := [];
    }

    method HandleDetectionEvent(e: Event, now: real)
      modifies relay, relay.controller
      ensures var write := Performed(relay.controller.w, old(relay.controller.View()),
                                     DeliveryRequest(relay.cfg, old(relay.View()), [e], now), relay.cfg.retries);
              && relay.controller.View() == write.board
              && relay.View() == Delivered(relay.cfg, old(relay.View()), [e], now, write.ok)
    {
      var source := SourceOf(e);
      if source.None? { return; }
      if e.detected {
        var _ := relay.HandleDetected(source.value, now);
      } else {
        relay.HandleCleared(source.value, now);
      }
    }

    method UpdateSignal(camera: string, signal: Signal, active: bool, now: real)
      modifies this`cameras, this`log, relay, relay.controller
      ensures cameras == Updated(old(cameras), camera, signal, active, now, refresh)
      ensures var es := Events(old(cameras), camera, signal, active, now, refresh);
              var write := Performed(relay.controller.w, old(relay.controller.View()),
                                     DeliveryRequest(relay.cfg, old(relay.View()), es, now), relay.cfg.retries);
              && log == old(log) + es
              && relay.controller.View() == write.board
              && relay.View() == Delivered(relay.cfg, old(relay.View()), es, now, write.ok)
    {
      hide Detected, Cleared, DetectedRequest, Executed;
      if Role(camera) !in cameras {
        cameras := cameras[Role(camera) := NEW_CAMERA];
      }
      var c := cameras[Role(camera)];
      var state := c.Get(signal);
      if state.active == active {
        if active {
          state := state.(lastTime := now);
          if Published(signal) && (state.publishedAt == 0.0 || now - state.publishedAt >= refresh) {
            state := state.(publishedAt := now);
            cameras := cameras[Role(camera) := c.Put(signal, state)];
            log := log + [Event(Role(camera), signal, true)];
            HandleDetectionEvent(Event(Role(camera), signal, true), now);
            return;
          }
        }
        cameras := cameras[Role(camera) := c.Put(signal, state)];
        return;
      }
      state := if active then SignalState(true, now, now) else SignalState(false, 0.0, 0.0);
      cameras := cameras[Role(camera) := c.Put(signal, state)];
      if Published(signal) {
        log := log + [Event(Role(camera), signal, active)];
        HandleDetectionEvent(Event(Role(camera), signal, active), now);
      }
    }

    method UpdatePresence(camera: string, face: bool, hand: bool, person: bool, now: real)
      modifies this`cameras, this`log, relay, relay.controller
      ensures cameras == PresenceUpdated(old(cameras), camera, face, hand, person, now, refresh)
      ensures var es := Events(old(cameras), camera, Person, person, now, refresh);
              var write := Performed(relay.controller.w, old(relay.controller.View()),
                                     DeliveryRequest(relay.cfg, old(relay.View()), es, now), relay.cfg.retries);
              && log == old(log) + es
              && relay.controller.View() == write.board
              && relay.View() == Delivered(relay.cfg, old(relay.View()), es, now, write.ok)
    {
      UpdateSignal(camera, Face, face, now);
      UpdateSignal(camera, Hand, hand, now);
      UpdateSignal(camera, Person, person, now);
    }

    method UpdateTamper(camera: string, tamper: bool, now: real)
      modifies this`cameras, this`log, relay, relay.controller
      ensures cameras == Updated(old(cameras), camera, Tamper, tamper, now, refresh)
      ensures var es := Events(old(cameras), camera, Tamper, tamper, now, refresh);
              var write := Performed(relay.controller.w, old(relay.controller.View()),
                                     DeliveryRequest(relay.cfg, old(relay.View()), es, now), relay.cfg.retries);
              && log == old(log) + es
              && relay.controller.View() == write.board
              && relay.View() == Delivered(relay.cfg, old(relay.View()), es, now, write.ok)
    {
      UpdateSignal(camera, Tamper, tamper, now);
    }

    // clear_presence and clear_tamper report every signal they cover as inactive.
    method ClearPresence(camera: string, now: real)
      modifies this`cameras, this`log, relay, relay.controller
      ensures cameras == PresenceUpdated(old(cameras), camera, false, false, false, now, refresh)
      ensures log == old(log) + Events(old(cameras), camera, Person, false, now, refresh)
      ensures relay.View() == Delivered(relay.cfg, old(relay.View()),
                                        Events(old(cameras), camera, Person, false, now, refresh), now, false)
      ensures relay.controller.View() == old(relay.controller.View())
    {
      UpdatePresence(camera, false, false, false, now);
    }

    method ClearTamper(camera: string, now: real)
      modifies this`cameras, this`log, relay, relay.controller
      ensures cameras == Updated(old(cameras), camera, Tamper, false, now, refresh)
      ensures log == old(log) + Events(old(cameras), camera, Tamper, false, now, refresh)
      ensures relay.View() == Delivered(relay.cfg, old(relay.View()),
                                        Events(old(cameras), camera, Tamper, false, now, refresh), now, false)
      ensures relay.controller.View() == old(relay.controller.View())
    {
      UpdateTamper(camera, false, now);
    }
  }
}
