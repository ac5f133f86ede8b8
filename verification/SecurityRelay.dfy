// The security relay manager: detection sources with a time-to-live, a debounce,
// an off deadline, a failsafe, and relay writes that are verified and retried.
module SecurityRelay {
  import opened Common
  import opened GpioPort
  import opened RelayBoard

  datatype Life = Idle | Active | WaitingOff

  datatype Source = InternalPerson | InternalTamper | ExternalTamper

  datatype Config = Config(timeout: real, debounce: real, ttl: real, failsafe: real, retries: int)

  datatype Relay = Relay(life: Life, on: bool, lastDetection: real, offDeadline: real, changedAt: real,
                         sources: set<Source>, lastEvent: map<Source, real>)

  const FRESH := Relay(Idle, false, 0.0, 0.0, 0.0, {}, map[])

  function Created(now: real): Relay { FRESH.(changedAt := now) }

  // ---- one relay write: the retry loop over the controller ----

  datatype Request = NoWrite | TurnOn | TurnOff(force: bool)

  datatype WriteResult = WriteResult(board: Board, ok: bool)

  // One command and one readback; None when the command raised.
  function Attempted(w: Wiring, b: Board, active: bool, force: bool): (Board, Option<bool>) {
    var sent := if !active && force then Outcome(ForcedOff(w, b), false) else SecuritySet(w, b, active);
    if sent.raised then (sent.board, None)
    else var (c, on) := RelaysRead(w, sent.board); (c, Some(on))
  }

  function Retried(w: Wiring, b: Board, active: bool, force: bool, n: nat): WriteResult
    decreases n
  {
    if n == 0 then WriteResult(b, false)
    else
      var (c, seen) := Attempted(w, b, active, force);
      if seen == Some(active) then WriteResult(c, true) else Retried(w, c, active, force, n - 1)
  }

  function Executed(w: Wiring, b: Board, active: bool, force: bool, retries: int): WriteResult {
    var r := Retried(w, b, active, force, if retries < 0 then 0 else retries);
    if r.ok || active || force then r
    else var (c, on) := RelaysRead(w, ForcedOff(w, r.board)); WriteResult(c, !on)
  }

  function Performed(w: Wiring, b: Board, request: Request, retries: int): WriteResult {
    match request
    case NoWrite => WriteResult(b, false)
    case TurnOn => Executed(w, b, true, false, retries)
    case TurnOff(force) => Executed(w, b, false, force, retries)
  }

  // ---- the manager's own state; `ok` is what the write of the step reported ----

  function Wrote(s: Relay, active: bool, ok: bool): Relay {
    if ok then s.(on := active) else s
  }

  function Transitioned(s: Relay, life: Life, now: real): Relay {
    if s.life == life then s else s.(life := life, changedAt := now)
  }

  // A missing record and a record of 0.0 both mean "never seen".
  predicate Debounced(cfg: Config, s: Relay, source: Source, now: real) {
    source in s.lastEvent && s.lastEvent[source] != 0.0 && now - s.lastEvent[source] < cfg.debounce
  }

  function Detected(cfg: Config, s: Relay, source: Source, now: real, ok: bool): Relay {
    if Debounced(cfg, s, source, now) then s
    else
      var seen := s.(lastEvent := s.lastEvent[source := now], lastDetection := now,
                     offDeadline := now + cfg.timeout);
      if source in s.sources then seen
      else Wrote(Transitioned(seen.(sources := s.sources + {source}), Active, now), true, ok)
  }

  function DetectedRequest(cfg: Config, s: Relay, source: Source, now: real): Request {
    if Debounced(cfg, s, source, now) || source in s.sources then NoWrite else TurnOn
  }

  function Cleared(cfg: Config, s: Relay, source: Source, now: real): Relay {
    var was := source in s.sources;
    var c := s.(sources := s.sources - {source}, lastEvent := s.lastEvent - {source});
    if was && c.sources != {} then Transitioned(c, Active, now)
    else if was && c.on then Transitioned(c.(offDeadline := now + cfg.timeout), WaitingOff, now)
    else if was then Transitioned(c.(offDeadline := 0.0), Idle, now)
    else if c.on && c.sources == {} then Transitioned(c.(offDeadline := now + cfg.timeout), WaitingOff, now)
    else c
  }

  function LastSeen(s: Relay, source: Source, now: real): real {
    if source in s.lastEvent then s.lastEvent[source]
    else if s.lastDetection != 0.0 then s.lastDetection else now
  }

  function Stale(cfg: Config, s: Relay, now: real): set<Source> {
    set source | source in s.sources && now - LastSeen(s, source, now) >= cfg.ttl
  }

  function Expired(cfg: Config, s: Relay, now: real): Relay {
    var stale := Stale(cfg, s, now);
    if cfg.ttl <= 0.0 || stale == {} then s
    else
      var c := s.(sources := s.sources - stale, lastEvent := s.lastEvent - stale);
      if c.sources != {} then Transitioned(c, Active, now)
      else if c.on then Transitioned(c.(offDeadline := now + cfg.timeout), WaitingOff, now)
      else Transitioned(c.(offDeadline := 0.0), Idle, now)
  }

  predicate FailsafeDue(cfg: Config, s: Relay, now: real) {
    s.sources == {} && s.on && now - s.changedAt >= cfg.failsafe
  }

  function FailedSafe(s: Relay, now: real): Relay {
    Transitioned(s.(offDeadline := 0.0), Idle, now)
  }

  function TimedOut(s: Relay, now: real): Relay {
    Transitioned(s.(on := false, lastDetection := 0.0, offDeadline := 0.0, sources := {}, lastEvent := map[]), Idle,
                 now)
  }

  // The write a worker tick issues, if any: at most one.
  function TickRequest(cfg: Config, s: Relay, now: real): Request {
    var e := Expired(cfg, s, now);
    if FailsafeDue(cfg, e, now) then TurnOff(true)
    else if e.life == Active && !e.on then TurnOn
    else if e.life == WaitingOff && now >= e.offDeadline then TurnOff(false)
    else NoWrite
  }

  function Ticked(cfg: Config, s: Relay, now: real, ok: bool): Relay {
    var e := Expired(cfg, s, now);
    match TickRequest(cfg, s, now)
    case NoWrite => e
    case TurnOn => Wrote(e, true, ok)
    case TurnOff(force) =>
      if force then Wrote(FailedSafe(e, now), false, ok) else if ok then TimedOut(e, now) else e
  }

  function ForcedIdle(s: Relay, now: real, ok: bool): Relay {
    Wrote(Transitioned(s.(sources := {}, lastEvent := map[], lastDetection := 0.0, offDeadline := 0.0), Idle, now),
          false, ok)
  }

  class SecurityRelayManager {
    const cfg: Config
    const controller: RelayController
    var life: Life
    var relayActive: bool
    var lastDetection: real
    var offDeadline: real
    var changedAt: real
    var sources: set<Source>
    var lastEvent: map<Source, real>

    ghost function View(): Relay
      reads this
    {
      Relay(life, relayActive, lastDetection, offDeadline, changedAt, sources, lastEvent)
    }

    constructor (cfg: Config, controller: RelayController, now: real)
      ensures this.cfg == cfg && this.controller == controller && View() == Created(now)
    {
      this.cfg := cfg;
      this.controller := controller;
      life, relayActive, changedAt := Idle, false, now;
      lastDetection, offDeadline, sources, lastEvent := 0.0, 0.0, {}, map[];
    }

    method Transition(next: Life, now: real)
      modifies this`life, this`changedAt
      ensures View() == Transitioned(old(View()), next, now)
    {
      if life != next {
        life, changedAt := next, now;
      }
    }

    method ExecuteRelayWrite(active: bool, force: bool) returns (ok: bool)
      modifies this`relayActive, controller
      ensures WriteResult(controller.View(), ok) == Executed(controller.w, old(controller.View()), active, force,
                                                             cfg.retries)
      ensures View() == Wrote(old(View()), active, ok)
    {
      hide SecuritySet, ForcedOff, RelaysRead;
      var limit := if cfg.retries < 0 then 0 else cfg.retries;
      var attempt := 0;
      while attempt < limit
        invariant 0 <= attempt <= limit
        invariant View() == old(View())
        invariant Retried(controller.w, old(controller.View()), active, force, limit)
               == Retried(controller.w, controller.View(), active, force, limit - attempt)
      {
        var raised := false;
        if active {
          raised := controller.SetSecurityRelays(true);
        } else if force {
          controller.ForceSecurityRelaysOff();
        } else {
          raised := controller.SetSecurityRelays(false);
        }
        if !raised {
          var on := controller.IsSecurityRelaysOn();
          if on == active {
            relayActive := active;
            return true;
          }
        }
        attempt := attempt + 1;
      }
      if !active && !force {
        controller.ForceSecurityRelaysOff();
        var on := controller.IsSecurityRelaysOn();
        if !on {
          relayActive := false;
          return true;
        }
      }
      return false;
    }

    method HandleDetected(source: Source, now: real) returns (accepted: bool)
      modifies this, controller
      ensures accepted == !Debounced(cfg, old(View()), source, now)
      ensures var write := Performed(controller.w, old(controller.View()),
                                     DetectedRequest(cfg, old(View()), source, now), cfg.retries);
              controller.View() == write.board && View() == Detected(cfg, old(View()), source, now, write.ok)
    {
      hide Executed;
      if source in lastEvent && lastEvent[source] != 0.0 && now - lastEvent[source] < cfg.debounce {
        return false;
      }
      lastEvent := lastEvent[source := now];
      lastDetection := now;
      offDeadline := now + cfg.timeout;
      if source in sources {
        return true;
      }
      sources := sources + {source};
      Transition(Active, now);
      var _ := ExecuteRelayWrite(true, false);
      return true;
    }

    method HandleCleared(source: Source, now: real)
      modifies this
      ensures View() == Cleared(cfg, old(View()), source, now)
    {
      var wasActive := source in sources;
      sources := sources - {source};
      lastEvent := lastEvent - {source};
      if wasActive && sources != {} {
        Transition(Active, now);
      } else if wasActive {
        offDeadline := now + cfg.timeout;
        if relayActive {
          Transition(WaitingOff, now);
        } else {
          offDeadline := 0.0;
          Transition(Idle, now);
        }
      } else if relayActive && sources == {} {
        offDeadline := now + cfg.timeout;
        Transition(WaitingOff, now);
      }
    }

    method ExpireStaleSources(now: real)
      modifies this
      ensures View() == Expired(cfg, old(View()), now)
    {
      if cfg.ttl <= 0.0 || sources == {} {
        assert sources == {} ==> Stale(cfg, View(), now) == {};
        return;
      }
      var stale := set source | source in sources &&
          now - (if source in lastEvent then lastEvent[source]
                 else if lastDetection != 0.0 then lastDetection else now) >= cfg.ttl;
      assert stale == Stale(cfg, View(), now);
      if stale == {} { return; }
      sources := sources - stale;
      lastEvent := lastEvent - stale;
      if sources != {} {
        Transition(Active, now);
        return;
      }
      offDeadline := now + cfg.timeout;
      if relayActive {
        Transition(WaitingOff, now);
      } else {
        offDeadline := 0.0;
        Transition(Idle, now);
      }
    }

    // Returns whether the failsafe fired.
    method RunFailsafe(now: real) returns (fired: bool)
      modifies this, controller
      ensures fired == FailsafeDue(cfg, old(View()), now)
      ensures var write := Performed(controller.w, old(controller.View()), if fired then TurnOff(true) else NoWrite,
                                     cfg.retries);
              && controller.View() == write.board
              && View() == if fired then Wrote(FailedSafe(old(View()), now), false, write.ok) else old(View())
    {
      if sources != {} || !relayActive || now - changedAt < cfg.failsafe {
        return false;
      }
      offDeadline := 0.0;
      Transition(Idle, now);
      var _ := ExecuteRelayWrite(false, true);
      return true;
    }

    // One pass of the worker loop.
    method Tick(now: real)
      modifies this, controller
      ensures var write := Performed(controller.w, old(controller.View()), TickRequest(cfg, old(View()), now),
                                     cfg.retries);
              controller.View() == write.board && View() == Ticked(cfg, old(View()), now, write.ok)
    {
      hide Expired, Executed;
      ExpireStaleSources(now);
      var fired := RunFailsafe(now);
      if life == Active {
        if !relayActive {
          var _ := ExecuteRelayWrite(true, false);
        }
      } else if life == WaitingOff {
        if now >= offDeadline {
          var ok := ExecuteRelayWrite(false, false);
          if ok {
            lastDetection := 0.0;
            offDeadline := 0.0;
            sources := {};
            lastEvent := map[];
            Transition(Idle, now);
          }
        }
      }
    }

    method ForceOff(now: real)
      modifies this, controller
      ensures var write := Performed(controller.w, old(controller.View()), TurnOff(true), cfg.retries);
              controller.View() == write.board && View() == ForcedIdle(old(View()), now, write.ok)
    {
      sources := {};
      lastEvent := map[];
      lastDetection := 0.0;
      offDeadline := 0.0;
      Transition(Idle, now);
      var _ := ExecuteRelayWrite(false, true);
    }
  }
}
