// No relay stuck ON: how soon the relay is off, and stays off, once detections stop.
module SecurityRelayRelease {
  import opened Common
  import opened SecurityRelay
  import opened SecurityRelayRuns

  // No detection arrives and every OFF write succeeds; ON writes may still fail.
  ghost predicate Quiet(cfg: Config, s: Relay, es: seq<Event>)
    decreases |es|
  {
    es == [] ||
    (!es[0].Detect? && (RequestOf(cfg, s, es[0]).TurnOff? ==> es[0].ok) && Quiet(cfg, Stepped(cfg, s, es[0]), es[1..]))
  }

  ghost predicate WritesOk(es: seq<Event>) {
    forall i :: 0 <= i < |es| ==> es[i].Clear? || es[i].ok
  }

  ghost predicate NoClears(es: seq<Event>) {
    forall i :: 0 <= i < |es| ==> !es[i].Clear?
  }

  // The worker is never more than `period` behind, up to `end`.
  ghost predicate KeepsUp(es: seq<Event>, lastTick: real, period: real, end: real)
    decreases |es|
  {
    if es == [] then end - lastTick <= period
    else es[0].at - lastTick <= period
         && KeepsUp(es[1..], if es[0].Tick? then es[0].at else lastTick, period, end)
  }

  // An earlier OFF write failed: IDLE, yet the relay is still believed on.
  predicate LeftOn(s: Relay) { s.life == Idle && s.on }

  function Max(a: real, b: real): real { if a < b then b else a }
  function Min(a: real, b: real): real { if a < b then a else b }

  // How long after the last detection the latest entry into WAITING_OFF can come.
  function Drain(cfg: Config, leftOn: bool): real {
    if leftOn then Max(cfg.ttl, cfg.failsafe) else cfg.ttl
  }

  // ---- whatever clears arrive ----

  ghost predicate Draining(cfg: Config, s: Relay, leftOn: bool, t: real, lastTick: real, period: real) {
    && Coherent(s)
    && t <= lastTick
    && (forall source :: source in s.lastEvent ==> s.lastEvent[source] <= t)
    && (s.sources != {} ==> lastTick < t + cfg.ttl)
    && (LeftOn(s) ==> leftOn && s.changedAt <= t)
    && (s.sources == {} && s.on ==>
          s.changedAt <= t + Drain(cfg, leftOn) + period
          && (lastTick == t || lastTick < s.changedAt + cfg.failsafe))
  }

  lemma TickDrains(cfg: Config, s: Relay, leftOn: bool, t: real, lastTick: real, period: real, at: real, ok: bool)
    requires cfg.ttl > 0.0 && cfg.failsafe > 0.0 && Draining(cfg, s, leftOn, t, lastTick, period)
    requires lastTick <= at <= lastTick + period && (TickRequest(cfg, s, at).TurnOff? ==> ok)
    ensures Draining(cfg, Ticked(cfg, s, at, ok), leftOn, t, at, period)
  {
    StepStaysCoherent(cfg, s, Tick(at, ok));
    ExpiredStaysCoherent(cfg, s, at);
    var e := Expired(cfg, s, at);
    if t + cfg.ttl <= at {
      forall source | source in s.sources
        ensures source in Stale(cfg, s, at)
      {
        assert source in s.lastEvent;
      }
      assert e.sources == {};
    }
  }

  lemma ClearDrains(cfg: Config, s: Relay, leftOn: bool, t: real, lastTick: real, period: real, source: Source,
                    at: real)
    requires cfg.ttl > 0.0 && cfg.failsafe > 0.0 && Draining(cfg, s, leftOn, t, lastTick, period)
    requires lastTick <= at <= lastTick + period
    ensures Draining(cfg, Cleared(cfg, s, source, at), leftOn, t, lastTick, period)
  {
    StepStaysCoherent(cfg, s, Clear(source, at));
  }

  lemma {:induction false} RunDrains(cfg: Config, s: Relay, leftOn: bool, t: real, lastTick: real, period: real,
                                     es: seq<Event>, from: real, end: real) returns (last: real)
    requires cfg.ttl > 0.0 && cfg.failsafe > 0.0 && Draining(cfg, s, leftOn, t, lastTick, period)
    requires Quiet(cfg, s, es) && lastTick <= from && Timed(es, from, end) && KeepsUp(es, lastTick, period, end)
    ensures end - period <= last && Draining(cfg, Ran(cfg, s, es), leftOn, t, last, period)
    decreases |es|
  {
    if es == [] {
      last := lastTick;
    } else {
      var e := es[0];
      match e {
        case Tick(at, ok) => TickDrains(cfg, s, leftOn, t, lastTick, period, at, ok);
        case Clear(source, at) => ClearDrains(cfg, s, leftOn, t, lastTick, period, source, at);
        case Force(at, ok) => StepStaysCoherent(cfg, s, e);
      }
      last := RunDrains(cfg, Stepped(cfg, s, e), leftOn, t, if e.Tick? then e.at else lastTick, period, es[1..],
                        e.at, end);
    }
  }

  // From any state reached by time t, earlier write failures included: with no detection
  // after t the relay is off from this bound on, whatever clears arrive.
  lemma ReleasedAfterQuiet(cfg: Config, s: Relay, t: real, es: seq<Event>, period: real, end: real)
    requires cfg.ttl > 0.0 && cfg.failsafe > 0.0 && 0.0 <= period
    requires Coherent(s) && Recorded(cfg, s, t)
    requires Quiet(cfg, s, es) && Timed(es, t, end) && KeepsUp(es, t, period, end)
    requires t + Drain(cfg, LeftOn(s)) + cfg.failsafe + 2.0 * period <= end
    ensures var r := Ran(cfg, s, es); !r.on && r.sources == {} && r.life == Idle
  {
    assert Draining(cfg, s, LeftOn(s), t, t, period);
    var _ := RunDrains(cfg, s, LeftOn(s), t, t, period, es, t, end);
  }

  // ---- while every write succeeds from the start ----

  lemma {:induction false} NeverLeftOn(cfg: Config, s: Relay, es: seq<Event>)
    requires Coherent(s) && (s.life == Active ==> s.on) && !LeftOn(s) && WritesOk(es)
    ensures var r := Ran(cfg, s, es); (r.life == Active ==> r.on) && !LeftOn(r)
    decreases |es|
  {
    if es != [] {
      StepStaysCoherent(cfg, s, es[0]);
      ExpiredStaysCoherent(cfg, s, es[0].at);
      var next := Stepped(cfg, s, es[0]);
      assert es[0].Clear? || es[0].ok;
      assert (next.life == Active ==> next.on) && !LeftOn(next);
      NeverLeftOn(cfg, next, es[1..]);
    }
  }

  // The stuck-ON bound over a whole run from start-up.
  lemma ReleasedWhenWritesSucceed(cfg: Config, start: real, before: seq<Event>, t: real,
                                  es: seq<Event>, period: real, end: real)
    requires cfg.ttl > 0.0 && cfg.failsafe > 0.0 && 0.0 <= period
    requires WritesOk(before) && Timed(before, start, t)
    requires Quiet(cfg, Ran(cfg, Created(start), before), es) && Timed(es, t, end) && KeepsUp(es, t, period, end)
    requires t + cfg.ttl + cfg.failsafe + 2.0 * period <= end
    ensures var r := Ran(cfg, Ran(cfg, Created(start), before), es);
            !r.on && r.sources == {} && r.life == Idle
  {
    RunStaysCoherent(cfg, Created(start), before);
    RunStaysRecorded(cfg, Created(start), before, start, t);
    NeverLeftOn(cfg, Created(start), before);
    ReleasedAfterQuiet(cfg, Ran(cfg, Created(start), before), t, es, period, end);
  }

  // ---- and when no clear arrives either ----

  ghost predicate Expiring(cfg: Config, s: Relay, leftOn: bool, t: real, lastTick: real, period: real) {
    && Coherent(s)
    && t <= lastTick
    && (forall source :: source in s.lastEvent ==> s.lastEvent[source] <= t)
    && (s.sources != {} ==> lastTick < t + cfg.ttl)
    && (LeftOn(s) ==> leftOn && s.changedAt <= t && (lastTick == t || lastTick < s.changedAt + cfg.failsafe))
    && (s.life == WaitingOff ==>
          && s.changedAt <= t + cfg.ttl + period && s.offDeadline <= t + cfg.ttl + period + cfg.timeout
          && (lastTick == t || (lastTick < s.changedAt + cfg.failsafe && lastTick < s.offDeadline)))
  }

  lemma TickExpires(cfg: Config, s: Relay, leftOn: bool, t: real, lastTick: real, period: real, at: real, ok: bool)
    requires cfg.ttl > 0.0 && Expiring(cfg, s, leftOn, t, lastTick, period)
    requires lastTick <= at <= lastTick + period && (TickRequest(cfg, s, at).TurnOff? ==> ok)
    ensures Expiring(cfg, Ticked(cfg, s, at, ok), leftOn, t, at, period)
  {
    StepStaysCoherent(cfg, s, Tick(at, ok));
    ExpiredStaysCoherent(cfg, s, at);
    var e := Expired(cfg, s, at);
    if t + cfg.ttl <= at {
      forall source | source in s.sources
        ensures source in Stale(cfg, s, at)
      {
        assert source in s.lastEvent;
      }
      assert e.sources == {};
    }
  }

  lemma {:induction false} RunExpires(cfg: Config, s: Relay, leftOn: bool, t: real, lastTick: real, period: real,
                                      es: seq<Event>, from: real, end: real) returns (last: real)
    requires cfg.ttl > 0.0 && Expiring(cfg, s, leftOn, t, lastTick, period)
    requires Quiet(cfg, s, es) && NoClears(es) && lastTick <= from && Timed(es, from, end)
              && KeepsUp(es, lastTick, period, end)
    ensures end - period <= last && Expiring(cfg, Ran(cfg, s, es), leftOn, t, last, period)
    decreases |es|
  {
    if es == [] {
      last := lastTick;
    } else {
      var e := es[0];
      assert !e.Clear?;
      match e {
        case Tick(at, ok) => TickExpires(cfg, s, leftOn, t, lastTick, period, at, ok);
        case Force(at, ok) => StepStaysCoherent(cfg, s, e);
      }
      last := RunExpires(cfg, Stepped(cfg, s, e), leftOn, t, if e.Tick? then e.at else lastTick, period, es[1..],
                         e.at, end);
    }
  }

  // With no clear at all the deadline counts too: whichever of hold and failsafe is
  // shorter runs from the expiry of the last source.
  lemma ReleasedWithoutClears(cfg: Config, s: Relay, t: real, es: seq<Event>, period: real, end: real)
    requires cfg.ttl > 0.0 && cfg.failsafe > 0.0 && cfg.timeout >= 0.0 && 0.0 <= period
    requires Coherent(s) && Recorded(cfg, s, t)
    requires Quiet(cfg, s, es) && NoClears(es) && Timed(es, t, end) && KeepsUp(es, t, period, end)
    requires t + cfg.ttl + Min(cfg.timeout, cfg.failsafe) + 2.0 * period <= end
    requires LeftOn(s) ==> t + cfg.failsafe + period <= end
    ensures var r := Ran(cfg, s, es); !r.on && r.sources == {} && r.life == Idle
  {
    var _ := RunExpires(cfg, s, LeftOn(s), t, t, period, es, t, end);
  }

  // ---- why the conditions are there ----

  // The bound t + ttl + failsafe + 2 * period over every run from start-up, failed writes
  // before t included.
  ghost predicate MeetsSettledBound(cfg: Config) {
    forall start: real, before: seq<Event>, t: real, es: seq<Event>, period: real, end: real ::
      && Timed(before, start, t) && Quiet(cfg, Ran(cfg, Created(start), before), es)
      && Timed(es, t, end) && KeepsUp(es, t, period, end) && 0.0 <= period
      && t + cfg.ttl + cfg.failsafe + 2.0 * period <= end
      ==> !Ran(cfg, Ran(cfg, Created(start), before), es).on
  }

  // A manual off whose write failed leaves the manager idle with the relay on.
  function LeftOnAt(t: real): Relay { Relay(Idle, true, 0.0, 0.0, t, {}, map[]) }

  lemma FailedOffLeavesOn(cfg: Config, t: real)
    ensures var before := [Detect(InternalPerson, t, true), Force(t, false)];
            Timed(before, t, t) && Ran(cfg, Created(t), before) == LeftOnAt(t)
  {
    var before := [Detect(InternalPerson, t, true), Force(t, false)];
    assert before[1..] == [Force(t, false)];
    assert Timed([Force(t, false)], t, t);
    assert Ran(cfg, Stepped(cfg, Created(t), before[0]), [Force(t, false)]) == LeftOnAt(t);
  }

  // Ticks every p, each clear just before the failsafe would fire: its clock starts again.
  function RestartingClears(t: real, p: real): seq<Event> {
    [Tick(t + p, true), Clear(InternalPerson, t + 2.0 * p), Tick(t + 2.0 * p, true),
     Clear(InternalPerson, t + 3.0 * p), Tick(t + 3.0 * p, true)]
  }

  lemma ClearsKeepItOn(cfg: Config, t: real, p: real)
    requires 0.0 < p < cfg.failsafe && 0.0 < cfg.timeout
    ensures var es := RestartingClears(t, p);
            && Quiet(cfg, LeftOnAt(t), es) && Timed(es, t, t + 4.0 * p) && KeepsUp(es, t, p, t + 4.0 * p)
            && Ran(cfg, LeftOnAt(t), es).on
  {
    var es := RestartingClears(t, p);
    var e1, e2, e3, e4 := es[1..], es[2..], es[3..], es[4..];
    var left, end := LeftOnAt(t), t + 4.0 * p;
    assert e1[1..] == e2 && e2[1..] == e3 && e3[1..] == e4 && e4[1..] == [];
    var waiting := left.(life := WaitingOff, changedAt := t + 2.0 * p, offDeadline := t + 2.0 * p + cfg.timeout);
    var later := waiting.(offDeadline := t + 3.0 * p + cfg.timeout);
    assert Stepped(cfg, left, es[0]) == left && Stepped(cfg, left, e1[0]) == waiting;
    assert Stepped(cfg, waiting, e2[0]) == waiting && Stepped(cfg, waiting, e3[0]) == later;
    assert Stepped(cfg, later, e4[0]) == later;
    assert Quiet(cfg, later, e4) && Quiet(cfg, waiting, e3) && Quiet(cfg, waiting, e2) && Quiet(cfg, left, e1);
    assert Ran(cfg, later, e4) == later;
    assert Ran(cfg, waiting, e2) == Ran(cfg, waiting, e3) == later;
    assert Timed(e4, t + 3.0 * p, end) && Timed(e3, t + 2.0 * p, end) && Timed(e2, t + 2.0 * p, end)
        && Timed(e1, t + p, end);
    assert KeepsUp(e4, t + 2.0 * p, p, end) && KeepsUp(e3, t + 2.0 * p, p, end);
    assert KeepsUp(e2, t + p, p, end) && KeepsUp(e1, t + p, p, end);
  }

  // With a failsafe longer than the ttl, a failed OFF before t outlasts that bound.
  lemma LeftOnOutlastsTheSettledBound(cfg: Config)
    requires 0.0 < cfg.ttl < cfg.failsafe && 0.0 < cfg.timeout
    ensures !MeetsSettledBound(cfg)
  {
    hide Quiet, Timed, KeepsUp, Ran;
    var p := cfg.failsafe - (cfg.failsafe - cfg.ttl) / 4.0;
    var before := [Detect(InternalPerson, 0.0, true), Force(0.0, false)];
    var es := RestartingClears(0.0, p);
    FailedOffLeavesOn(cfg, 0.0);
    ClearsKeepItOn(cfg, 0.0, p);
    assert Quiet(cfg, Ran(cfg, Created(0.0), before), es);
    assert 0.0 + cfg.ttl + cfg.failsafe + 2.0 * p <= 4.0 * p;
  }

  // With no hold, the first tick after any clear turns the relay off.
  ghost predicate Unheld(cfg: Config, s: Relay, t: real, lastTick: real, from: real) {
    && s.sources == {} && Coherent(s) && t <= lastTick <= from
    && (s.on && s.life == Idle ==> s.changedAt <= t)
    && (s.on ==> lastTick == t || lastTick < t + cfg.failsafe)
    && (s.life == WaitingOff ==> s.offDeadline <= from)
  }

  lemma {:induction false} RunUnheld(cfg: Config, s: Relay, t: real, lastTick: real, period: real,
                                     es: seq<Event>, from: real, end: real) returns (last: real)
    requires cfg.timeout <= 0.0 && cfg.failsafe > 0.0 && Unheld(cfg, s, t, lastTick, from)
    requires Quiet(cfg, s, es) && Timed(es, from, end) && KeepsUp(es, lastTick, period, end)
    ensures end - period <= last && Unheld(cfg, Ran(cfg, s, es), t, last, end)
    decreases |es|
  {
    if es == [] {
      last := lastTick;
    } else {
      var e := es[0];
      StepStaysCoherent(cfg, s, e);
      last := RunUnheld(cfg, Stepped(cfg, s, e), t, if e.Tick? then e.at else lastTick, period, es[1..], e.at, end);
    }
  }

  // Exactly when the bound holds of every run: the failsafe is no longer than the ttl, or
  // there is no hold for a late clear to start.
  lemma SettledBoundExactlyWhen(cfg: Config)
    requires cfg.ttl > 0.0 && cfg.failsafe > 0.0
    ensures MeetsSettledBound(cfg) <==> cfg.failsafe <= cfg.ttl || cfg.timeout <= 0.0
  {
    hide Quiet, Timed, KeepsUp, Ran;
    if cfg.failsafe <= cfg.ttl || cfg.timeout <= 0.0 {
      forall start: real, before: seq<Event>, t: real, es: seq<Event>, period: real, end: real |
        && Timed(before, start, t) && Quiet(cfg, Ran(cfg, Created(start), before), es)
        && Timed(es, t, end) && KeepsUp(es, t, period, end) && 0.0 <= period
        && t + cfg.ttl + cfg.failsafe + 2.0 * period <= end
        ensures !Ran(cfg, Ran(cfg, Created(start), before), es).on
      {
        var s := Ran(cfg, Created(start), before);
        RunStaysCoherent(cfg, Created(start), before);
        RunStaysRecorded(cfg, Created(start), before, start, t);
        if LeftOn(s) && cfg.ttl < cfg.failsafe {
          var _ := RunUnheld(cfg, s, t, t, period, es, t, end);
        } else {
          ReleasedAfterQuiet(cfg, s, t, es, period, end);
        }
      }
    } else {
      LeftOnOutlastsTheSettledBound(cfg);
    }
  }

  // Expiry switched off: without a clear no run of ticks ever drops a source, so the
  // relay is on after every tick from then on.
  lemma {:induction false} NeverReleasedWithoutTtl(cfg: Config, s: Relay, es: seq<Event>)
    requires cfg.ttl <= 0.0 && Coherent(s) && s.sources != {}
    requires forall i :: 0 <= i < |es| ==> es[i].Tick? && es[i].ok
    ensures var r := Ran(cfg, s, es); r.sources == s.sources && r.life == Active && (s.on || es != [] ==> r.on)
    decreases |es|
  {
    if es != [] {
      assert es[0].Tick? && es[0].ok;
      NeverReleasedWithoutTtl(cfg, Stepped(cfg, s, es[0]), es[1..]);
    }
  }
}
