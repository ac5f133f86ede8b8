// The security relay manager over whole runs: every mix of detections, clears, worker
// ticks and manual offs, with every write free to succeed or fail.
module SecurityRelayRuns {
  import opened Common
  import opened SecurityRelay

  // `ok` is what the relay write of the step reports, should the step write at all.
  datatype Event =
    | Detect(source: Source, at: real, ok: bool)
    | Clear(source: Source, at: real)
    | Tick(at: real, ok: bool)
    | Force(at: real, ok: bool)

  function Stepped(cfg: Config, s: Relay, e: Event): Relay {
    match e
    case Detect(source, at, ok) => Detected(cfg, s, source, at, ok)
    case Clear(source, at) => Cleared(cfg, s, source, at)
    case Tick(at, ok) => Ticked(cfg, s, at, ok)
    case Force(at, ok) => ForcedIdle(s, at, ok)
  }

  function Ran(cfg: Config, s: Relay, es: seq<Event>): Relay
    decreases |es|
  {
    if es == [] then s else Ran(cfg, Stepped(cfg, s, es[0]), es[1..])
  }

  // The monotonic clock: events start at `from`, do not go back, and end by `end`.
  ghost predicate Timed(es: seq<Event>, from: real, end: real)
    decreases |es|
  {
    if es == [] then from <= end else from <= es[0].at && Timed(es[1..], es[0].at, end)
  }

  // ---- what every step keeps, failing writes included ----

  ghost predicate Coherent(s: Relay) {
    && (s.life == Active <==> s.sources != {})
    && s.lastEvent.Keys == s.sources
    && (s.life == WaitingOff ==> s.on && s.sources == {})
  }

  ghost predicate Recorded(cfg: Config, s: Relay, now: real) {
    && s.changedAt <= now
    && (forall source :: source in s.lastEvent ==> s.lastEvent[source] <= now)
    && (s.life == WaitingOff ==> s.changedAt + cfg.timeout <= s.offDeadline <= now + cfg.timeout)
  }

  lemma ExpiredStaysCoherent(cfg: Config, s: Relay, now: real)
    requires Coherent(s)
    ensures Coherent(Expired(cfg, s, now))
    ensures Expired(cfg, s, now).sources <= s.sources && Expired(cfg, s, now).on == s.on
  {}

  lemma StepStaysCoherent(cfg: Config, s: Relay, e: Event)
    requires Coherent(s)
    ensures Coherent(Stepped(cfg, s, e))
  {
    match e
    case Detect(source, at, ok) =>
      assert source in s.sources ==> s.sources != {};
      assert source in s.sources + {source};
    case Tick(at, ok) => ExpiredStaysCoherent(cfg, s, at);
    case Clear(source, at) =>
    case Force(at, ok) =>
  }

  lemma ExpiredStaysRecorded(cfg: Config, s: Relay, now: real)
    requires Coherent(s) && Recorded(cfg, s, now)
    ensures Recorded(cfg, Expired(cfg, s, now), now)
  {}

  lemma TickStaysRecorded(cfg: Config, s: Relay, before: real, at: real, ok: bool)
    requires Coherent(s) && Recorded(cfg, s, before) && before <= at
    ensures Recorded(cfg, Ticked(cfg, s, at, ok), at)
  {
    hide Expired;
    ExpiredStaysCoherent(cfg, s, at);
    ExpiredStaysRecorded(cfg, s, at);
  }

  lemma StepStaysRecorded(cfg: Config, s: Relay, before: real, e: Event)
    requires Coherent(s) && Recorded(cfg, s, before) && before <= e.at
    ensures Recorded(cfg, Stepped(cfg, s, e), e.at)
  {
    hide Ticked;
    match e
    case Tick(at, ok) => TickStaysRecorded(cfg, s, before, at, ok);
    case _ =>
  }

  lemma {:induction false} RunStaysCoherent(cfg: Config, s: Relay, es: seq<Event>)
    requires Coherent(s)
    ensures Coherent(Ran(cfg, s, es))
    decreases |es|
  {
    if es != [] {
      StepStaysCoherent(cfg, s, es[0]);
      RunStaysCoherent(cfg, Stepped(cfg, s, es[0]), es[1..]);
    }
  }

  lemma {:induction false} RunStaysRecorded(cfg: Config, s: Relay, es: seq<Event>, from: real, end: real)
    requires Coherent(s) && Recorded(cfg, s, from) && Timed(es, from, end)
    ensures Recorded(cfg, Ran(cfg, s, es), end)
    decreases |es|
  {
    if es != [] {
      StepStaysCoherent(cfg, s, es[0]);
      StepStaysRecorded(cfg, s, from, es[0]);
      RunStaysRecorded(cfg, Stepped(cfg, s, es[0]), es[1..], es[0].at, end);
    }
  }

  // A source once cleared is not seen again until detected...
  lemma {:induction false} AbsentUntilDetected(cfg: Config, s: Relay, source: Source, es: seq<Event>)
    requires Coherent(s) && source !in s.sources
    requires forall i :: 0 <= i < |es| ==> !(es[i].Detect? && es[i].source == source)
    ensures source !in Ran(cfg, s, es).sources
    decreases |es|
  {
    if es != [] {
      StepStaysCoherent(cfg, s, es[0]);
      ExpiredStaysCoherent(cfg, s, es[0].at);
      var next := Stepped(cfg, s, es[0]);
      assert source !in next.sources by { assert !(es[0].Detect? && es[0].source == source); }
      AbsentUntilDetected(cfg, next, source, es[1..]);
    }
  }

  // ...and that next detection is never swallowed by the debounce, however soon it comes.
  lemma DetectionAfterClearIsAccepted(cfg: Config, s: Relay, source: Source, clearedAt: real,
                                      es: seq<Event>, now: real, ok: bool)
    requires Coherent(s)
    requires forall i :: 0 <= i < |es| ==> !(es[i].Detect? && es[i].source == source)
    ensures var t := Ran(cfg, Cleared(cfg, s, source, clearedAt), es);
            && !Debounced(cfg, t, source, now)
            && DetectedRequest(cfg, t, source, now) == TurnOn
            && var u := Detected(cfg, t, source, now, ok);
               u.life == Active && source in u.sources && u.lastEvent[source] == now
  {
    StepStaysCoherent(cfg, s, Clear(source, clearedAt));
    var c := Cleared(cfg, s, source, clearedAt);
    AbsentUntilDetected(cfg, c, source, es);
    RunStaysCoherent(cfg, c, es);
  }

  // ---- the hold guarantee ----

  function RequestOf(cfg: Config, s: Relay, e: Event): Request {
    match e
    case Detect(source, at, _) => DetectedRequest(cfg, s, source, at)
    case Clear(_, _) => NoWrite
    case Tick(at, _) => TickRequest(cfg, s, at)
    case Force(_, _) => TurnOff(true)
  }

  // The latest entry into WAITING_OFF as of the step's write.
  function Entry(cfg: Config, s: Relay, e: Event, entry: Option<real>): Option<real> {
    var pending := if e.Tick? then Expired(cfg, s, e.at) else Stepped(cfg, s, e);
    if s.life != WaitingOff && pending.life == WaitingOff then Some(e.at) else entry
  }

  // Apart from a manual off, no OFF write goes out earlier than `timeout` after that entry.
  ghost predicate HoldsFrom(cfg: Config, s: Relay, entry: Option<real>, es: seq<Event>)
    decreases |es|
  {
    es == [] ||
    var now := Entry(cfg, s, es[0], entry);
    && (!es[0].Force? && RequestOf(cfg, s, es[0]).TurnOff? && now.Some? ==> now.value + cfg.timeout <= es[0].at)
    && HoldsFrom(cfg, Stepped(cfg, s, es[0]), now, es[1..])
  }

  ghost predicate HoldGuarantee(cfg: Config) {
    forall es: seq<Event>, from: real, end: real ::
      Timed(es, from, end) ==> HoldsFrom(cfg, Created(from), None, es)
  }

  // Whatever the configuration, no OFF write is issued while a source is still active.
  lemma NoOffWhileSourceActive(cfg: Config, s: Relay, e: Event)
    requires Coherent(s) && !e.Force? && RequestOf(cfg, s, e).TurnOff?
    ensures e.Tick? && Expired(cfg, s, e.at).sources == {}
    ensures forall source :: source in s.sources ==> cfg.ttl > 0.0 && e.at - s.lastEvent[source] >= cfg.ttl
  {
    ExpiredStaysCoherent(cfg, s, e.at);
    forall source | source in s.sources
      ensures cfg.ttl > 0.0 && e.at - s.lastEvent[source] >= cfg.ttl
    {
      assert source !in Expired(cfg, s, e.at).sources;
    }
  }

  lemma StepHolds(cfg: Config, s: Relay, entry: Option<real>, e: Event, from: real)
    requires cfg.timeout <= cfg.failsafe
    requires Coherent(s) && Recorded(cfg, s, from) && from <= e.at
    requires entry.Some? ==> entry.value <= s.changedAt
    ensures var now := Entry(cfg, s, e, entry);
            && (!e.Force? && RequestOf(cfg, s, e).TurnOff? && now.Some? ==> now.value + cfg.timeout <= e.at)
            && (now.Some? ==> now.value <= Stepped(cfg, s, e).changedAt)
  {
    if e.Tick? {
      hide Expired;
      ExpiredStaysCoherent(cfg, s, e.at);
      ExpiredStaysRecorded(cfg, s, e.at);
      ExpiredRestamps(cfg, s, e.at);
    }
  }

  lemma ExpiredRestamps(cfg: Config, s: Relay, now: real)
    requires s.changedAt <= now
    ensures var x := Expired(cfg, s, now);
            s.changedAt <= x.changedAt && (x.life != s.life ==> x.changedAt == now)
  {}

  lemma {:induction false} HoldsWhenFailsafeIsLater(cfg: Config, s: Relay, entry: Option<real>, es: seq<Event>,
                                                    from: real, end: real)
    requires cfg.timeout <= cfg.failsafe
    requires Coherent(s) && Recorded(cfg, s, from) && Timed(es, from, end)
    requires entry.Some? ==> entry.value <= s.changedAt
    ensures HoldsFrom(cfg, s, entry, es)
    decreases |es|
  {
    if es != [] {
      hide Stepped, Entry, RequestOf, Coherent, Recorded;
      var e := es[0];
      StepStaysCoherent(cfg, s, e);
      StepStaysRecorded(cfg, s, from, e);
      StepHolds(cfg, s, entry, e, from);
      HoldsWhenFailsafeIsLater(cfg, Stepped(cfg, s, e), Entry(cfg, s, e, entry), es[1..], e.at, end);
    }
  }

  // With a failsafe shorter than the hold, the failsafe cuts the hold short.
  lemma FailsafeCutsHoldShort(cfg: Config)
    requires 0.0 <= cfg.failsafe < cfg.timeout
    ensures !HoldGuarantee(cfg)
  {
    var on := Detect(InternalPerson, 1.0, true);
    var off := Clear(InternalPerson, 1.0);
    var tick := Tick(1.0 + cfg.failsafe, true);
    var es := [on, off, tick];
    assert es[1..] == [off, tick] && es[1..][1..] == [tick];
    assert Timed([tick], 1.0, 1.0 + cfg.failsafe);
    assert Timed(es, 1.0, 1.0 + cfg.failsafe);
    var a := Stepped(cfg, Created(1.0), on);
    var b := Stepped(cfg, a, off);
    assert b.life == WaitingOff && b.changedAt == 1.0 && b.on;
    assert Entry(cfg, a, off, None) == Some(1.0);
    assert !HoldsFrom(cfg, b, Some(1.0), [tick]);
    assert !HoldsFrom(cfg, a, None, es[1..]);
    assert !HoldsFrom(cfg, Created(1.0), None, es);
  }

  lemma HoldGuaranteeExactlyWhen(cfg: Config)
    requires 0.0 <= cfg.failsafe
    ensures HoldGuarantee(cfg) <==> cfg.timeout <= cfg.failsafe
  {
    if cfg.timeout <= cfg.failsafe {
      forall es: seq<Event>, from: real, end: real | Timed(es, from, end)
        ensures HoldsFrom(cfg, Created(from), None, es)
      {
        HoldsWhenFailsafeIsLater(cfg, Created(from), None, es, from, end);
      }
    } else {
      FailsafeCutsHoldShort(cfg);
    }
  }
}
