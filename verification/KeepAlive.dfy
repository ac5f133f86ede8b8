// Keep-alive across two rate limiters: a person who keeps being reported keeps the
// relay on, although the state manager thins out the refreshes and the relay manager
// debounces what is left.
module KeepAlive {
  import opened Common
  import opened SecurityRelay
  import opened SecurityRelayRuns
  import opened DetectionState
  import opened Pipeline

  predicate ReportsPerson(step: Step) {
    step.Presence? && Role(step.camera) == "internal"
  }

  // Internal presence reports all see the person, each at most `gap` after the last, no
  // step runs later than that either, and nobody forces the relays off.
  ghost predicate Fed(steps: seq<Step>, lastReport: real, from: real, gap: real)
    decreases |steps|
  {
    steps == [] ||
    var e := steps[0];
    && !e.ManualOff?
    && from <= e.at <= lastReport + gap
    && (ReportsPerson(e) ==> e.person)
    && Fed(steps[1..], if ReportsPerson(e) then e.at else lastReport, e.at, gap)
  }

  // In every state of the run the source is held, and no step asks for an OFF write.
  ghost predicate NeverOff(st: Settings, sys: System, steps: seq<Step>)
    decreases |steps|
  {
    && InternalPerson in sys.relay.sources
    && (steps == [] ||
        (!WriteOf(st, sys, steps[0]).TurnOff? && NeverOff(st, Advanced(st, sys, steps[0]), steps[1..])))
  }

  // How many published refreshes in a row the debounce can swallow: the most that fit
  // strictly inside it.
  function Swallowable(st: Settings): nat
    requires 0.0 < st.refresh
  {
    if st.cfg.debounce <= st.refresh then 0
    else
      var q := Ratio(st.cfg.debounce, st.refresh);
      assert q > 1.0 by { RatioExceedsOne(st.cfg.debounce, st.refresh); }
      if q.Floor as real == q then q.Floor - 1 else q.Floor
  }

  // Products and ratios by name, so that proofs use them by their laws only.
  function Times(a: real, b: real): real { a * b }

  function Ratio(a: real, b: real): real
    requires 0.0 < b
  {
    a / b
  }

  lemma RatioTimes(a: real, b: real)
    requires 0.0 < b
    ensures Times(Ratio(a, b), b) == a
  {}

  lemma RatioExceedsOne(a: real, b: real)
    requires 0.0 < b < a
    ensures Ratio(a, b) > 1.0
  {}

  lemma Scaled(a: real, b: real, c: real)
    requires 0.0 < c
    ensures a <= b <==> Times(a, c) <= Times(b, c)
  {
    ScaledUp(a, b, c);
    ScaledUp(b, a, c);
  }

  lemma ScaledUp(a: real, b: real, c: real)
    requires 0.0 < c
    ensures a < b ==> Times(a, c) < Times(b, c)
    ensures a == b ==> Times(a, c) == Times(b, c)
  {}

  lemma TimesLaws(a: real, b: real, c: real)
    ensures Times(0.0, c) == 0.0 && Times(1.0, c) == c && Times(a, c) == Times(c, a)
    ensures Times(a + 1.0, c) == Times(a, c) + c && Times(a - 1.0, c) == Times(a, c) - c
  {}

  function Lag(st: Settings, gap: real): real
    requires 0.0 < st.refresh
  {
    var n := Swallowable(st) as real;
    if n == 0.0 then 0.0
    else if st.cfg.debounce < Times(n, st.refresh + gap) then st.cfg.debounce
    else Times(n, st.refresh + gap)
  }

  // How old the last accepted detection can get while reports come every `gap`: the
  // swallowed refreshes, then one refresh not yet due, then the gap to the next report.
  function Reach(st: Settings, gap: real): real
    requires 0.0 < st.refresh
  {
    Lag(st, gap) + st.refresh + gap
  }

  lemma SwallowableMeaning(st: Settings, k: nat)
    requires 0.0 < st.refresh
    ensures k > 0 && Times(k as real, st.refresh) < st.cfg.debounce ==> k <= Swallowable(st)
    ensures var n := Swallowable(st); n > 0 ==> Times(n as real, st.refresh) < st.cfg.debounce
  {
    hide Times, Ratio;
    var n, r, d := Swallowable(st), st.refresh, st.cfg.debounce;
    TimesLaws(0.0, 0.0, r);
    if d > r {
      RatioTimes(d, r);
      Scaled(Ratio(d, r), k as real, r);
      Scaled(Ratio(d, r), n as real, r);
    } else {
      Scaled(1.0, k as real, r);
    }
  }

  function PersonOf(sys: System): SignalState { CameraOf(sys.cams, "internal").person }

  // Last report, last published refresh and last accepted detection, k publications
  // before that one, are each within their own window of the next.
  ghost predicate Warm(st: Settings, sys: System, lastReport: real, from: real, gap: real, k: nat) {
    && Coherent(sys.relay)
    && InternalPerson in sys.relay.sources
    && PersonOf(sys).active
    && 0.0 < PersonOf(sys).publishedAt <= lastReport <= from
    && lastReport - PersonOf(sys).publishedAt < st.refresh
    && Swallowed(st, gap, PersonOf(sys).publishedAt - sys.relay.lastEvent[InternalPerson], k)
  }

  // An acceptance `age` before the k-th publication after it, all k swallowed.
  ghost predicate Swallowed(st: Settings, gap: real, age: real, k: nat) {
    if k == 0 then age == 0.0
    else Times(k as real, st.refresh) <= age < Times(k as real, st.refresh + gap) && age < st.cfg.debounce
  }

  // A report after the publications so far: the next one, if it is due and swallowed too.
  lemma SwallowedNext(st: Settings, gap: real, age: real, k: nat, more: real)
    requires Swallowed(st, gap, age, k) && st.refresh <= more < st.refresh + gap && age + more < st.cfg.debounce
    ensures Swallowed(st, gap, age + more, k + 1)
  {
    hide Times;
    TimesLaws(k as real, 0.0, st.refresh);
    TimesLaws(k as real, 0.0, st.refresh + gap);
  }

  lemma SwallowedWithinLag(st: Settings, gap: real, age: real, k: nat)
    requires 0.0 < st.refresh && 0.0 <= gap && Swallowed(st, gap, age, k)
    ensures age <= Lag(st, gap)
  {
    hide Times, Swallowable;
    SwallowableMeaning(st, k);
    var n := Swallowable(st);
    TimesLaws(0.0, 0.0, st.refresh);
    TimesLaws(0.0, 0.0, st.refresh + gap);
    Scaled(0.0, n as real, st.refresh);
    Scaled(k as real, n as real, st.refresh + gap);
    Scaled(0.0, n as real, st.refresh + gap);
  }

  // A report to the internal camera: the person's record and what it publishes.
  lemma PersonReport(st: Settings, sys: System, step: Step)
    requires ReportsPerson(step) && step.person && PersonOf(sys).active
    ensures var due := RefreshDue(PersonOf(sys), step.at, st.refresh);
            && Raised(st, sys, step) == (if due then [DetectionState.Event("internal", Signal.Person, true)] else [])
            && PersonOf(Advanced(st, sys, step)) ==
               (if due then SignalState(true, step.at, step.at) else PersonOf(sys).(lastTime := step.at))
  {}

  lemma OtherStepLeavesPerson(st: Settings, sys: System, step: Step)
    requires !ReportsPerson(step)
    ensures PersonOf(Advanced(st, sys, step)) == PersonOf(sys)
    ensures Raised(st, sys, step) != [] ==> SourceOf(Raised(st, sys, step)[0]) != Some(InternalPerson)
  {}

  // A delivery for another source leaves the person's record alone.
  lemma OtherDelivery(cfg: Config, s: Relay, es: seq<DetectionState.Event>, now: real, ok: bool)
    requires |es| <= 1 && Coherent(s) && InternalPerson in s.sources
    requires es != [] ==> SourceOf(es[0]) != Some(InternalPerson)
    ensures var t := Delivered(cfg, s, es, now, ok);
            && Coherent(t) && InternalPerson in t.sources
            && t.lastEvent[InternalPerson] == s.lastEvent[InternalPerson] && (s.on ==> t.on)
  {
    if es != [] && SourceOf(es[0]).Some? {
      StepStaysCoherent(cfg, s, Detect(SourceOf(es[0]).value, now, ok));
      StepStaysCoherent(cfg, s, Clear(SourceOf(es[0]).value, now));
    }
  }

  // A tick that does not find the person stale keeps the source and turns nothing off.
  lemma TickKeepsPerson(cfg: Config, s: Relay, now: real, ok: bool)
    requires Coherent(s) && InternalPerson in s.sources
    requires cfg.ttl <= 0.0 || now - s.lastEvent[InternalPerson] < cfg.ttl
    ensures !TickRequest(cfg, s, now).TurnOff?
    ensures var t := Ticked(cfg, s, now, ok);
            && Coherent(t) && InternalPerson in t.sources
            && t.lastEvent[InternalPerson] == s.lastEvent[InternalPerson] && (s.on ==> t.on)
  {
    StepStaysCoherent(cfg, s, Tick(now, ok));
    ExpiredStaysCoherent(cfg, s, now);
    assert cfg.ttl > 0.0 ==> InternalPerson !in Stale(cfg, s, now);
    assert InternalPerson in Expired(cfg, s, now).sources;
  }

  // Expiry is off, or the windows fit in the time-to-live.
  predicate Fits(st: Settings, gap: real)
    requires 0.0 < st.refresh
  {
    st.cfg.ttl <= 0.0 || Reach(st, gap) <= st.cfg.ttl
  }

  lemma ReportStaysWarm(st: Settings, sys: System, step: Step, lastReport: real, from: real, gap: real, k: nat)
    returns (next: nat)
    requires 0.0 <= gap && 0.0 < st.refresh && ReportsPerson(step)
    requires Warm(st, sys, lastReport, from, gap, k) && Fed([step], lastReport, from, gap)
    ensures !WriteOf(st, sys, step).TurnOff?
    ensures Warm(st, Advanced(st, sys, step), step.at, step.at, gap, next)
    ensures sys.relay.on ==> Advanced(st, sys, step).relay.on
  {
    hide Updated, PresenceUpdated, Ticked, TickRequest, Swallowed;
    PersonReport(st, sys, step);
    StepStaysCoherent(st.cfg, sys.relay, Detect(InternalPerson, step.at, step.ok));
    var published, seen := PersonOf(sys).publishedAt, sys.relay.lastEvent[InternalPerson];
    if !RefreshDue(PersonOf(sys), step.at, st.refresh) {
      next := k;
    } else if Debounced(st.cfg, sys.relay, InternalPerson, step.at) {
      SwallowedNext(st, gap, published - seen, k, step.at - published);
      next := k + 1;
    } else {
      next := 0;
      NothingSwallowed(st, gap);
    }
  }

  lemma NothingSwallowed(st: Settings, gap: real)
    ensures Swallowed(st, gap, 0.0, 0)
  {}

  lemma StepStaysWarm(st: Settings, sys: System, step: Step, lastReport: real, from: real, gap: real, k: nat)
    returns (next: nat)
    requires 0.0 <= gap && 0.0 < st.refresh && Fits(st, gap)
    requires Warm(st, sys, lastReport, from, gap, k) && Fed([step], lastReport, from, gap)
    ensures !WriteOf(st, sys, step).TurnOff?
    ensures Warm(st, Advanced(st, sys, step), if ReportsPerson(step) then step.at else lastReport, step.at, gap, next)
    ensures sys.relay.on ==> Advanced(st, sys, step).relay.on
  {
    if ReportsPerson(step) {
      next := ReportStaysWarm(st, sys, step, lastReport, from, gap, k);
    } else {
      hide Updated, PresenceUpdated, Ticked, TickRequest, Delivered, Swallowed, Lag;
      next := k;
      OtherStepLeavesPerson(st, sys, step);
      OtherDelivery(st.cfg, sys.relay, Raised(st, sys, step), step.at, true);
      OtherDelivery(st.cfg, sys.relay, Raised(st, sys, step), step.at, false);
      if step.WorkerTick? {
        SwallowedWithinLag(st, gap, PersonOf(sys).publishedAt - sys.relay.lastEvent[InternalPerson], k);
        TickKeepsPerson(st.cfg, sys.relay, step.at, step.ok);
      }
    }
  }

  lemma {:induction false} StaysWarm(st: Settings, sys: System, steps: seq<Step>, lastReport: real, from: real,
                                     gap: real, k: nat)
    requires 0.0 <= gap && 0.0 < st.refresh && Fits(st, gap)
    requires Warm(st, sys, lastReport, from, gap, k) && Fed(steps, lastReport, from, gap)
    ensures NeverOff(st, sys, steps)
    ensures sys.relay.on ==> AdvancedAll(st, sys, steps).relay.on
    decreases |steps|
  {
    if steps != [] {
      var e := steps[0];
      assert Fed([e], lastReport, from, gap) by { assert [e][1..] == []; }
      var next := StepStaysWarm(st, sys, e, lastReport, from, gap, k);
      hide Fits, WriteOf, Advanced;
      StaysWarm(st, Advanced(st, sys, e), steps[1..], if ReportsPerson(e) then e.at else lastReport, e.at, gap, next);
    }
  }

  // The first report of a person nobody was reporting.
  lemma FirstReportWarms(st: Settings, sys: System, first: Step, gap: real)
    requires 0.0 < st.refresh && Agrees(sys) && !PersonOf(sys).active
    requires ReportsPerson(first) && first.person && 0.0 < first.at
    ensures WriteOf(st, sys, first) == TurnOn
    ensures Warm(st, Advanced(st, sys, first), first.at, first.at, gap, 0)
    ensures first.ok ==> Advanced(st, sys, first).relay.on
  {
    assert !Flag(sys.cams, "internal", Signal.Person);
    assert InternalPerson !in sys.relay.sources;
    assert Raised(st, sys, first) == [DetectionState.Event("internal", Signal.Person, true)];
    StepStaysCoherent(st.cfg, sys.relay, Detect(InternalPerson, first.at, first.ok));
  }

  // From any reachable state with nobody present: once a person is reported, and as long
  // as reports keep coming, the source never expires and no OFF write is issued; a relay
  // that was switched on stays on.
  lemma PersonKeepsRelayOn(st: Settings, sys: System, first: Step, steps: seq<Step>, gap: real)
    requires 0.0 <= gap && 0.0 < st.refresh && Fits(st, gap)
    requires Agrees(sys) && !PersonOf(sys).active
    requires ReportsPerson(first) && first.person && 0.0 < first.at
    requires Fed(steps, first.at, first.at, gap)
    ensures var next := Advanced(st, sys, first);
            && WriteOf(st, sys, first) == TurnOn
            && NeverOff(st, next, steps)
            && (first.ok ==> AdvancedAll(st, next, steps).relay.on)
  {
    FirstReportWarms(st, sys, first, gap);
    StaysWarm(st, Advanced(st, sys, first), steps, first.at, first.at, gap, 0);
  }

  // The source held, no OFF write asked for, and a relay the first report switched on
  // still on, in every timely run.
  ghost predicate KeptAlive(st: Settings, gap: real) {
    forall sys: System, first: Step, steps: seq<Step> ::
      && Agrees(sys) && !PersonOf(sys).active
      && ReportsPerson(first) && first.person && 0.0 < first.at
      && Fed(steps, first.at, first.at, gap)
      ==> NeverOff(st, Advanced(st, sys, first), steps)
          && (first.ok ==> AdvancedAll(st, Advanced(st, sys, first), steps).relay.on)
  }

  // ---- and the windows are tight ----

  function PersonAt(at: real): Step { Presence("internal", false, false, true, at, true) }

  // The person is the only source, accepted at `seen`, last published at `published`.
  ghost predicate Alone(sys: System, seen: real, published: real) {
    && Coherent(sys.relay) && sys.relay.lastEvent == map[InternalPerson := seen] && 0.0 < seen <= published
    && PersonOf(sys).active && PersonOf(sys).publishedAt == published
  }

  // Some timely run from the report at `last` drops the source of the present person.
  ghost predicate CanDrop(st: Settings, sys: System, last: real, gap: real) {
    exists steps: seq<Step> ::
      Fed(steps, last, last, gap) && InternalPerson !in AdvancedAll(st, sys, steps).relay.sources
  }

  lemma DropByTick(st: Settings, sys: System, seen: real, published: real, last: real, gap: real)
    requires Alone(sys, seen, published) && 0.0 < st.cfg.ttl && last <= seen + st.cfg.ttl <= last + gap
    ensures CanDrop(st, sys, last, gap)
  {
    var tick := WorkerTick(seen + st.cfg.ttl, true);
    assert InternalPerson in Stale(st.cfg, sys.relay, tick.at);
    ExpiredStaysCoherent(st.cfg, sys.relay, tick.at);
    assert InternalPerson !in Advanced(st, sys, tick).relay.sources;
    assert [tick][1..] == [];
    assert AdvancedAll(st, sys, [tick]) == Advanced(st, sys, tick);
    assert Fed([tick], last, last, gap);
  }

  lemma DropAfterReport(st: Settings, sys: System, last: real, at: real, gap: real)
    requires last <= at <= last + gap && CanDrop(st, Advanced(st, sys, PersonAt(at)), at, gap)
    ensures CanDrop(st, sys, last, gap)
  {
    hide Advanced;
    var next := Advanced(st, sys, PersonAt(at));
    var rest :| Fed(rest, at, at, gap) && InternalPerson !in AdvancedAll(st, next, rest).relay.sources;
    var steps := [PersonAt(at)] + rest;
    assert steps[1..] == rest;
    assert Fed(steps, last, last, gap);
    assert AdvancedAll(st, sys, steps) == AdvancedAll(st, next, rest);
  }

  // A report too early for a refresh, or whose refresh the debounce swallows.
  lemma SwallowedReport(st: Settings, sys: System, seen: real, published: real, at: real)
    requires Alone(sys, seen, published) && published <= at
    requires at - published < st.refresh || at - seen < st.cfg.debounce
    ensures Alone(Advanced(st, sys, PersonAt(at)), seen, if at - published < st.refresh then published else at)
  {
    PersonReport(st, sys, PersonAt(at));
  }

  // With a ttl within the debounce every refresh up to the expiry is swallowed.
  lemma {:induction false} DropInDebounce(st: Settings, sys: System, seen: real, published: real,
                                          last: real, gap: real, k: nat)
    requires Alone(sys, seen, published) && 0.0 < st.cfg.ttl <= st.cfg.debounce && 0.0 < gap
    requires published <= last <= seen + st.cfg.ttl <= last + Times(k as real, gap)
    ensures CanDrop(st, sys, last, gap)
    decreases k
  {
    if seen + st.cfg.ttl <= last + gap {
      DropByTick(st, sys, seen, published, last, gap);
    } else {
      hide Alone, CanDrop, Advanced, Times;
      var at := last + gap;
      SwallowedReport(st, sys, seen, published, at);
      TimesLaws(k as real, 0.0, gap);
      DropInDebounce(st, Advanced(st, sys, PersonAt(at)), seen,
                     if at - published < st.refresh then published else at, at, gap, k - 1);
      DropAfterReport(st, sys, last, at, gap);
    }
  }

  // Still out of reach after one gap: then k gaps were two or more.
  lemma StillOut(k: int, gap: real, last: real, target: real)
    requires 0.0 < gap && last + gap < target <= last + Times(k as real, gap)
    ensures target <= (last + gap) + Times((k - 1) as real, gap) && gap <= Times((k - 1) as real, gap) && k >= 2
  {
    hide Times;
    TimesLaws(k as real, 0.0, gap);
    Scaled(k as real, 1.0, gap);
    Scaled(1.0, (k - 1) as real, gap);
  }

  // With no refresh due before the last report that precedes the expiry.
  lemma {:induction false} DropUnrefreshed(st: Settings, sys: System, seen: real, published: real,
                                           last: real, gap: real, k: nat)
    requires Alone(sys, seen, published) && 0.0 < st.cfg.ttl && 0.0 < gap
    requires seen + st.cfg.ttl - gap < published + st.refresh
    requires published <= last <= seen + st.cfg.ttl <= last + Times(k as real, gap)
    ensures CanDrop(st, sys, last, gap)
    decreases k
  {
    if seen + st.cfg.ttl <= last + gap {
      DropByTick(st, sys, seen, published, last, gap);
    } else {
      hide Alone, CanDrop, Advanced, Times;
      var late := seen + st.cfg.ttl - gap;
      var at := if last + gap < late then last + gap else late;
      SwallowedReport(st, sys, seen, published, at);
      StillOut(k, gap, last, seen + st.cfg.ttl);
      DropUnrefreshed(st, Advanced(st, sys, PersonAt(at)), seen, published, at, gap, k - 1);
      DropAfterReport(st, sys, last, at, gap);
    }
  }

  // With j swallowed refreshes `d` apart, and then none due before the expiry.
  lemma {:induction false} DropAfterRefreshes(st: Settings, sys: System, seen: real, published: real,
                                              last: real, gap: real, d: real, j: nat, k: nat)
    requires Alone(sys, seen, published) && 0.0 < st.cfg.ttl && 0.0 < gap && 0.0 < st.refresh
    requires st.refresh <= d < st.refresh + gap
    requires published <= last && (j == 0 ==> last == published)
    requires var end := published + Times(j as real, d);
             end < seen + st.cfg.debounce && end <= seen + st.cfg.ttl && seen + st.cfg.ttl - gap < end + st.refresh
    requires j > 0 ==> last <= published + d <= last + Times(k as real, gap)
    ensures CanDrop(st, sys, last, gap)
    decreases j, k
  {
    if j == 0 {
      DropUnrefreshed(st, sys, seen, published, last, gap, Multiple(seen + st.cfg.ttl - last, gap));
    } else {
      hide Alone, CanDrop, Advanced, Times;
      TimesLaws(j as real, 0.0, d);
      Scaled(0.0, (j - 1) as real, d);
      var due, early := published + d, published + d - gap;
      if due <= last + gap {
        SwallowedReport(st, sys, seen, published, due);
        DropAfterRefreshes(st, Advanced(st, sys, PersonAt(due)), seen, due, due, gap, d, j - 1, Multiple(d, gap));
        DropAfterReport(st, sys, last, due, gap);
      } else {
        var at := if last + gap < early then last + gap else early;
        StillOut(k, gap, last, due);
        SwallowedReport(st, sys, seen, published, at);
        DropAfterRefreshes(st, Advanced(st, sys, PersonAt(at)), seen, published, at, gap, d, j, k - 1);
        DropAfterReport(st, sys, last, at, gap);
      }
    }
  }

  function Multiple(x: real, gap: real): (k: nat)
    requires 0.0 < gap && 0.0 <= x
    ensures x <= Times(k as real, gap)
  {
    MultipleReaches(x, gap);
    Ratio(x, gap).Floor + 1
  }

  lemma MultipleReaches(x: real, gap: real)
    requires 0.0 < gap && 0.0 <= x
    ensures 0 <= Ratio(x, gap).Floor && x <= Times((Ratio(x, gap).Floor + 1) as real, gap)
  {
    hide Times, Ratio;
    var q := Ratio(x, gap);
    RatioTimes(x, gap);
    TimesLaws(0.0, 0.0, gap);
    Scaled(0.0, q, gap);
    Scaled(q, (q.Floor + 1) as real, gap);
  }

  // n refreshes spread evenly, as far into the debounce as the gap allows.
  lemma SpreadRefreshes(n: nat, refresh: real, gap: real, debounce: real, least: real) returns (d: real)
    requires 0.0 < refresh && 0.0 < gap && 0 < n && Times(n as real, refresh) < debounce
    requires least < debounce && least < Times(n as real, refresh + gap)
    ensures refresh <= d < refresh + gap && least < Times(n as real, d) < debounce
  {
    hide Times, Ratio;
    var m := n as real;
    TimesLaws(refresh, 0.0, m);
    TimesLaws(refresh + gap, 0.0, m);
    Scaled(refresh + gap, refresh, m);
    var low, high := Times(m, refresh), Times(m, refresh + gap);
    var top := if debounce < high then debounce else high;
    var mid := (least + top) / 2.0;
    var y := if low < mid then mid else low;
    d := Ratio(y, m);
    RatioTimes(y, m);
    TimesLaws(d, 0.0, m);
    Scaled(refresh, d, m);
    Scaled(refresh + gap, d, m);
  }

  // A ttl below the reach is not enough: some timely run drops a person still reported.
  lemma WindowsMustFitTheTtl(st: Settings, gap: real)
    requires 0.0 < gap && 0.0 < st.refresh && !Fits(st, gap)
    ensures !KeptAlive(st, gap)
  {
    var sys := Advanced(st, Boot(0.5), PersonAt(1.0));
    assert Alone(sys, 1.0, 1.0);
    assert CanDrop(st, sys, 1.0, gap) by {
      hide Alone, CanDrop, Swallowable;
      DropsFromFirst(st, sys, gap);
    }
    var steps :| Fed(steps, 1.0, 1.0, gap) && InternalPerson !in AdvancedAll(st, sys, steps).relay.sources;
    hide Advanced;
    if NeverOff(st, sys, steps) { NeverOffHolds(st, sys, steps); }
    BootAgrees(0.5);
    assert PersonAt(1.0).at == 1.0 && !PersonOf(Boot(0.5)).active;
  }

  lemma DropsFromFirst(st: Settings, sys: System, gap: real)
    requires 0.0 < gap && 0.0 < st.refresh && !Fits(st, gap) && Alone(sys, 1.0, 1.0)
    ensures CanDrop(st, sys, 1.0, gap)
  {
    hide Alone, CanDrop, Swallowable, Times;
    var ttl, n := st.cfg.ttl, Swallowable(st);
    SwallowableMeaning(st, 0);
    if ttl <= st.cfg.debounce {
      DropInDebounce(st, sys, 1.0, 1.0, 1.0, gap, Multiple(ttl, gap));
    } else if ttl - gap < st.refresh {
      DropUnrefreshed(st, sys, 1.0, 1.0, 1.0, gap, Multiple(ttl, gap));
    } else {
      var d := SpreadRefreshes(n, st.refresh, gap, st.cfg.debounce, ttl - gap - st.refresh);
      DropAfterRefreshes(st, sys, 1.0, 1.0, 1.0, gap, d, n, Multiple(d, gap));
    }
  }

  lemma {:induction false} NeverOffHolds(st: Settings, sys: System, steps: seq<Step>)
    requires NeverOff(st, sys, steps)
    ensures InternalPerson in AdvancedAll(st, sys, steps).relay.sources
    decreases |steps|
  {
    if steps != [] { NeverOffHolds(st, Advanced(st, sys, steps[0]), steps[1..]); }
  }

  // Exactly when a person reported every `gap` keeps the relay on in every run.
  lemma KeptAliveExactlyWhen(st: Settings, gap: real)
    requires 0.0 < gap && 0.0 < st.refresh
    ensures KeptAlive(st, gap) <==> st.cfg.ttl <= 0.0 || Reach(st, gap) <= st.cfg.ttl
  {
    if Fits(st, gap) {
      forall sys: System, first: Step, steps: seq<Step> |
        && Agrees(sys) && !PersonOf(sys).active
        && ReportsPerson(first) && first.person && 0.0 < first.at
        && Fed(steps, first.at, first.at, gap)
        ensures NeverOff(st, Advanced(st, sys, first), steps)
             && (first.ok ==> AdvancedAll(st, Advanced(st, sys, first), steps).relay.on)
      {
        PersonKeepsRelayOn(st, sys, first, steps, gap);
      }
    } else {
      WindowsMustFitTheTtl(st, gap);
    }
  }
}
