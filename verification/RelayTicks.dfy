// What one worker tick asks for and leaves behind, said of the records alone; and how long
// any single source can outlive its last detection.
module RelayTicks {
  import opened Common
  import opened SecurityRelay
  import opened SecurityRelayRuns
  import opened SecurityRelayRelease

  // A source whose record has not reached the time-to-live, or any with expiry off.
  predicate Young(cfg: Config, s: Relay, source: Source, now: real)
    requires source in s.lastEvent
  {
    cfg.ttl <= 0.0 || now - s.lastEvent[source] < cfg.ttl
  }

  ghost predicate SomeYoung(cfg: Config, s: Relay, now: real)
    requires Coherent(s)
  {
    exists source :: source in s.sources && Young(cfg, s, source, now)
  }

  // Exactly the young sources stay, each with its record.
  lemma TickLeavesTheYoung(cfg: Config, s: Relay, now: real, ok: bool)
    requires Coherent(s)
    ensures var t := Ticked(cfg, s, now, ok);
            && (forall source :: source in t.sources <==> source in s.sources && Young(cfg, s, source, now))
            && (forall source :: source in t.sources ==> t.lastEvent[source] == s.lastEvent[source])
  {
    ExpiredStaysCoherent(cfg, s, now);
    var e := Expired(cfg, s, now);
    forall source ensures source in e.sources <==> source in s.sources && Young(cfg, s, source, now) {
      assert source in Stale(cfg, s, now) <==> source in s.sources && now - s.lastEvent[source] >= cfg.ttl;
    }
    hide Expired;
    assert Ticked(cfg, s, now, ok).sources == e.sources;
  }

  // When the relay was last turned to where it is, and when it is due off, a source having
  // expired this very moment or not.
  function Since(s: Relay, now: real): real { if s.sources != {} then now else s.changedAt }

  function Due(cfg: Config, s: Relay, now: real): real { if s.sources != {} then now + cfg.timeout else s.offDeadline }

  // While some source is young: ON if the relay is off, else nothing.
  lemma YoungSourcesAreServed(cfg: Config, s: Relay, now: real, ok: bool)
    requires Coherent(s) && SomeYoung(cfg, s, now)
    ensures TickRequest(cfg, s, now) == if s.on then NoWrite else TurnOn
    ensures var t := Ticked(cfg, s, now, ok); t.life == Active && (t.on <==> s.on || ok)
  {
    var source :| source in s.sources && Young(cfg, s, source, now);
    assert source in Expired(cfg, s, now).sources;
    ExpiredStaysCoherent(cfg, s, now);
  }

  // With none: nothing while the relay is off; else OFF, forced once the failsafe is due,
  // plain once the hold is over.
  lemma StaleSourcesAreDropped(cfg: Config, s: Relay, now: real, ok: bool)
    requires Coherent(s) && !SomeYoung(cfg, s, now)
    ensures var request := TickRequest(cfg, s, now);
            && (request == TurnOff(true) <==> s.on && now - Since(s, now) >= cfg.failsafe)
            && (request == TurnOff(false) <==>
                  s.on && now - Since(s, now) < cfg.failsafe && s.life != Idle && now >= Due(cfg, s, now))
            && request != TurnOn
    ensures var t := Ticked(cfg, s, now, ok);
            && t.sources == {} && (t.on <==> s.on && !(TickRequest(cfg, s, now).TurnOff? && ok))
            && (t.life == Idle <==> !s.on || s.life == Idle || TickRequest(cfg, s, now) == TurnOff(true)
                                    || (TickRequest(cfg, s, now) == TurnOff(false) && ok))
            && (t.life == WaitingOff ==> t.changedAt == Since(s, now) && t.offDeadline == Due(cfg, s, now))
  {
    forall source | source in s.sources ensures source in Stale(cfg, s, now) && cfg.ttl > 0.0 {
      assert !Young(cfg, s, source, now);
    }
    assert Expired(cfg, s, now).sources == {};
    ExpiredStaysCoherent(cfg, s, now);
  }

  // The records a plain OFF leaves when it succeeds, and a manual off always: none.
  lemma OffForgets(cfg: Config, s: Relay, now: real, ok: bool)
    ensures var t := ForcedIdle(s, now, ok);
            && t.life == Idle && t.sources == {} && t.lastEvent == map[]
            && t.lastDetection == 0.0 && t.offDeadline == 0.0
            && (t.on <==> s.on && !ok) && t.changedAt == (if s.life == Idle then s.changedAt else now)
    ensures TickRequest(cfg, s, now) == TurnOff(false) && ok ==>
              var t := Ticked(cfg, s, now, ok);
              t == Relay(Idle, false, 0.0, 0.0, now, {}, map[])
    ensures TickRequest(cfg, s, now) == TurnOff(true) ==> Ticked(cfg, s, now, ok).offDeadline == 0.0
  {}

  // A clear takes its source and record, nothing of the others.
  lemma ClearLeavesTheOthers(cfg: Config, s: Relay, source: Source, now: real)
    requires Coherent(s)
    ensures var t := Cleared(cfg, s, source, now);
            && t.on == s.on
            && (forall other :: other in t.sources <==> other in s.sources && other != source)
            && (forall other :: other in t.sources ==> t.lastEvent[other] == s.lastEvent[other])
            && (t.sources != {} ==> t.life == Active && t.changedAt == s.changedAt && t.offDeadline == s.offDeadline)
            && (t.sources == {} && t.on ==>
                  t.life == WaitingOff && t.offDeadline == now + cfg.timeout
                  && t.changedAt == (if s.life == WaitingOff then s.changedAt else now))
            && (t.sources == {} && !t.on ==>
                  t.life == Idle && (s.sources != {} ==> t.offDeadline == 0.0 && t.changedAt == now)
                  && (s.sources == {} ==> t == s))
  {
    if source !in s.sources {
      assert s.sources - {source} == s.sources && s.lastEvent - {source} == s.lastEvent;
    }
  }

  // A detection: swallowed by a record younger than the debounce, else recorded with a new
  // deadline; only a source that was not there asks for ON.
  lemma DetectLeaves(cfg: Config, s: Relay, source: Source, now: real, ok: bool)
    requires Coherent(s)
    ensures var swallowed := source in s.sources && s.lastEvent[source] != 0.0
                             && now - s.lastEvent[source] < cfg.debounce;
            var t := Detected(cfg, s, source, now, ok);
            && (swallowed ==> t == s)
            && (!swallowed ==>
                  && t.sources == s.sources + {source} && t.lastEvent == s.lastEvent[source := now]
                  && t.lastDetection == now && t.offDeadline == now + cfg.timeout && t.life == Active
                  && t.changedAt == (if s.sources == {} then now else s.changedAt)
                  && (t.on <==> s.on || (source !in s.sources && ok)))
            && DetectedRequest(cfg, s, source, now) == (if source in s.sources then NoWrite else TurnOn)
  {
    assert source in s.sources ==> s.sources + {source} == s.sources;
  }

  // ---- one source among others ----

  ghost predicate Aging(cfg: Config, s: Relay, source: Source, t: real, lastTick: real) {
    && Coherent(s) && t <= lastTick
    && (source in s.sources ==> s.lastEvent[source] <= t && (lastTick == t || lastTick < t + cfg.ttl))
  }

  lemma StepAges(cfg: Config, s: Relay, source: Source, t: real, lastTick: real, e: Event)
    requires cfg.ttl > 0.0 && Aging(cfg, s, source, t, lastTick) && lastTick <= e.at
    requires !(e.Detect? && e.source == source)
    ensures Aging(cfg, Stepped(cfg, s, e), source, t, if e.Tick? then e.at else lastTick)
  {
    StepStaysCoherent(cfg, s, e);
    if e.Tick? { TickLeavesTheYoung(cfg, s, e.at, e.ok); }
  }

  lemma {:induction false} RunAges(cfg: Config, s: Relay, source: Source, t: real, lastTick: real, period: real,
                                   es: seq<Event>, from: real, end: real) returns (last: real)
    requires cfg.ttl > 0.0 && Aging(cfg, s, source, t, lastTick) && lastTick <= from
    requires forall i :: 0 <= i < |es| ==> !(es[i].Detect? && es[i].source == source)
    requires Timed(es, from, end) && KeepsUp(es, lastTick, period, end)
    ensures end - period <= last && Aging(cfg, Ran(cfg, s, es), source, t, last)
    decreases |es|
  {
    if es == [] {
      last := lastTick;
    } else {
      var e := es[0];
      assert !(e.Detect? && e.source == source);
      StepAges(cfg, s, source, t, lastTick, e);
      hide Aging, Stepped;
      last := RunAges(cfg, Stepped(cfg, s, e), source, t, if e.Tick? then e.at else lastTick, period, es[1..],
                      e.at, end);
    }
  }

  // A source not detected after t is gone from t + ttl + period on, whatever is detected of
  // the others and whatever any write reports.
  lemma SourceExpires(cfg: Config, s: Relay, source: Source, t: real, es: seq<Event>, period: real, end: real)
    requires cfg.ttl > 0.0 && Coherent(s) && Recorded(cfg, s, t)
    requires forall i :: 0 <= i < |es| ==> !(es[i].Detect? && es[i].source == source)
    requires Timed(es, t, end) && KeepsUp(es, t, period, end) && t + cfg.ttl + period <= end
    ensures source !in Ran(cfg, s, es).sources
  {
    var last := RunAges(cfg, s, source, t, t, period, es, t, end);
  }
}
