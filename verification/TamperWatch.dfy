// Tamper confirmation and clearing for one camera: four states, two streaks and two
// start times, against a reading of the observation history alone.
module TamperWatch {
  import opened Common
  import opened GpioPort
  import opened RelayBoard
  import opened SecurityRelay
  import opened DetectionState

  datatype Phase = Calm | Candidate | Confirmed | Clearing

  datatype Config = Config(triggerFrames: positive, clearFrames: positive, confirmSeconds: real, clearSeconds: real)

  datatype Watch = Watch(phase: Phase, startedAt: Option<real>, clearingAt: Option<real>, streak: nat, clearStreak: nat)

  const AT_REST := Watch(Calm, None, None, 0, 0)

  // The watch after one observation, and the tamper flag it reports (if any).
  function Observed(cfg: Config, s: Watch, tampered: bool, now: real): (Watch, Option<bool>) {
    if tampered then
      var t := s.(streak := s.streak + 1, clearStreak := 0);
      match s.phase
      case Calm => (t.(phase := Candidate, startedAt := Some(now), clearingAt := None), None)
      case Candidate =>
        if s.startedAt.Some? && t.streak >= cfg.triggerFrames && now - s.startedAt.value >= cfg.confirmSeconds
        then (t.(phase := Confirmed, clearingAt := None), Some(true)) else (t, None)
      case Confirmed => (t, None)
      case Clearing => (t.(phase := Confirmed, clearingAt := None), None)
    else
      var t := s.(streak := 0, clearStreak := s.clearStreak + 1);
      match s.phase
      case Calm => (t, None)
      case Candidate => (t.(phase := Calm, startedAt := None), None)
      case Confirmed => (t.(phase := Clearing, clearingAt := Some(now)), None)
      case Clearing =>
        if s.clearingAt.Some? && t.clearStreak >= cfg.clearFrames && now - s.clearingAt.value >= cfg.clearSeconds
        then (t.(phase := Calm, startedAt := None, clearingAt := None), Some(false)) else (t, None)
  }

  // Detection suspended while a QR code is in view.
  function Paused(s: Watch): (Watch, Option<bool>) {
    (AT_REST, if s.phase == Confirmed || s.phase == Clearing then Some(false) else None)
  }

  // The event a report leads to, if any.
  function Told(cams: Cameras, camera: string, report: Option<bool>, now: real, refresh: real): (es: seq<Event>)
    ensures |es| <= 1
  {
    if report.Some? then Events(cams, camera, Tamper, report.value, now, refresh) else []
  }

  function Reported(cams: Cameras, camera: string, report: Option<bool>, now: real, refresh: real): Cameras {
    if report.Some? then Updated(cams, camera, Tamper, report.value, now, refresh) else cams
  }

  class TamperDetector {
    const cfg: Config
    const camera: string
    const manager: DetectionStateManager
    const staleSeconds: real
    var phase: Phase
    var startedAt: Option<real>
    var clearingAt: Option<real>
    var streak: nat
    var clearStreak: nat

    ghost function View(): Watch
      reads this
    {
      Watch(phase, startedAt, clearingAt, streak, clearStreak)
    }

    constructor (cfg: Config, camera: string, manager: DetectionStateManager, staleSeconds: real)
      ensures this.cfg == cfg && this.camera == camera && this.manager == manager
      ensures this.staleSeconds == staleSeconds && View() == AT_REST
    {
      this.cfg := cfg;
      this.camera := camera;
      this.manager := manager;
      this.staleSeconds := staleSeconds;
      phase, startedAt, clearingAt, streak, clearStreak := Calm, None, None, 0, 0;
    }

    method UpdateTamperState(tampered: bool, now: real)
      modifies this, manager`cameras, manager`log, manager.relay, manager.relay.controller
      ensures var (next, report) := Observed(cfg, old(View()), tampered, now);
              var es := Told(old(manager.cameras), camera, report, now, manager.refresh);
              var relay := manager.relay;
              var write := Performed(relay.controller.w, old(relay.controller.View()),
                                     DeliveryRequest(relay.cfg, old(relay.View()), es, now), relay.cfg.retries);
              && View() == next
              && manager.cameras == Reported(old(manager.cameras), camera, report, now, manager.refresh)
              && manager.log == old(manager.log) + es
              && relay.controller.View() == write.board
              && relay.View() == Delivered(relay.cfg, old(relay.View()), es, now, write.ok)
    {
      var previous := phase;
      if tampered {
        streak := streak + 1;
        clearStreak := 0;
        if previous == Calm {
          phase, startedAt, clearingAt := Candidate, Some(now), None;
        } else if previous == Candidate {
          if startedAt.Some? && streak >= cfg.triggerFrames && now - startedAt.value >= cfg.confirmSeconds {
            phase, clearingAt := Confirmed, None;
            manager.UpdateTamper(camera, true, now);
          }
        } else if previous == Clearing {
          phase, clearingAt := Confirmed, None;
        }
        return;
      }
      streak := 0;
      clearStreak := clearStreak + 1;
      if previous == Candidate {
        phase, startedAt := Calm, None;
      } else if previous == Confirmed {
        phase, clearingAt := Clearing, Some(now);
      } else if previous == Clearing {
        if clearingAt.Some? && clearStreak >= cfg.clearFrames && now - clearingAt.value >= cfg.clearSeconds {
          phase, startedAt, clearingAt := Calm, None, None;
          manager.UpdateTamper(camera, false, now);
        }
      }
    }

    method PauseTamperState(now: real)
      modifies this, manager`cameras, manager`log, manager.relay, manager.relay.controller
      ensures var (next, report) := Paused(old(View()));
              var es := Told(old(manager.cameras), camera, report, now, manager.refresh);
              var relay := manager.relay;
              var write := Performed(relay.controller.w, old(relay.controller.View()),
                                     DeliveryRequest(relay.cfg, old(relay.View()), es, now), relay.cfg.retries);
              && View() == next
              && manager.cameras == Reported(old(manager.cameras), camera, report, now, manager.refresh)
              && manager.log == old(manager.log) + es
              && relay.controller.View() == write.board
              && relay.View() == Delivered(relay.cfg, old(relay.View()), es, now, write.ok)
    {
      var previous := phase;
      startedAt, clearingAt, streak, clearStreak := None, None, 0, 0;
      if previous == Confirmed || previous == Clearing {
        manager.ClearTamper(camera, now);
      }
      phase := Calm;
    }

    // The idle poll: frames stale for long enough count as one clean observation.
    method ClearStale(lastFrameAt: Option<real>, now: real)
      modifies this, manager`cameras, manager`log, manager.relay, manager.relay.controller
      ensures var stale := old(phase) != Calm && lastFrameAt.Some? && now - lastFrameAt.value >= staleSeconds;
              var (next, report) := if stale then Observed(cfg, old(View()), false, now) else (old(View()), None);
              var es := Told(old(manager.cameras), camera, report, now, manager.refresh);
              var relay := manager.relay;
              var write := Performed(relay.controller.w, old(relay.controller.View()),
                                     DeliveryRequest(relay.cfg, old(relay.View()), es, now), relay.cfg.retries);
              && View() == next
              && manager.cameras == Reported(old(manager.cameras), camera, report, now, manager.refresh)
              && manager.log == old(manager.log) + es
              && relay.controller.View() == write.board
              && relay.View() == Delivered(relay.cfg, old(relay.View()), es, now, write.ok)
    {
      if phase == Calm { return; }
      if lastFrameAt.None? { return; }
      if now - lastFrameAt.value < staleSeconds { return; }
      UpdateTamperState(false, now);
    }
  }

  // ---- histories ----

  datatype Look = Seen(tampered: bool, at: real) | Pause(at: real)

  function LookAt(cfg: Config, s: Watch, look: Look): (Watch, Option<bool>) {
    match look
    case Seen(tampered, at) => Observed(cfg, s, tampered, at)
    case Pause(_) => Paused(s)
  }

  function After(cfg: Config, looks: seq<Look>): Watch
    decreases |looks|
  {
    if looks == [] then AT_REST else LookAt(cfg, After(cfg, looks[..|looks| - 1]), looks[|looks| - 1]).0
  }

  // The manager's tamper flag: the last report, false before the first.
  function Flag(cfg: Config, looks: seq<Look>): bool
    decreases |looks|
  {
    if looks == [] then false
    else
      var before := looks[..|looks| - 1];
      var report := LookAt(cfg, After(cfg, before), looks[|looks| - 1]).1;
      if report.Some? then report.value else Flag(cfg, before)
  }

  // How many of the latest looks, without a break, saw exactly this.
  function Streak(looks: seq<Look>, tampered: bool): (n: nat)
    ensures n <= |looks|
    decreases |looks|
  {
    if looks == [] || looks[|looks| - 1].Pause? || looks[|looks| - 1].tampered != tampered then 0
    else Streak(looks[..|looks| - 1], tampered) + 1
  }

  // The latest looks agree for at least two frames, enough frames and enough seconds.
  predicate Sustained(looks: seq<Look>, tampered: bool, frames: positive, seconds: real) {
    var n := Streak(looks, tampered);
    n >= 2 && n >= frames && looks[|looks| - 1].at - looks[|looks| - n].at >= seconds
  }

  // The alarm read off the history: raised by sustained tampering, dropped by a pause or
  // by sustained calm.
  function Alarm(cfg: Config, looks: seq<Look>): bool
    decreases |looks|
  {
    if looks == [] then false
    else if Alarm(cfg, looks[..|looks| - 1]) then
      !looks[|looks| - 1].Pause? && !Sustained(looks, false, cfg.clearFrames, cfg.clearSeconds)
    else Sustained(looks, true, cfg.triggerFrames, cfg.confirmSeconds)
  }

  ghost predicate Tracks(s: Watch, looks: seq<Look>) {
    && s.streak == Streak(looks, true)
    && s.clearStreak == Streak(looks, false)
    && (s.phase == Calm ==> s.streak == 0)
    && (s.phase == Candidate ==> s.streak > 0 && s.startedAt == Some(looks[|looks| - s.streak].at))
    && (s.phase == Confirmed ==> s.clearStreak == 0)
    && (s.phase == Clearing ==> s.clearStreak > 0 && s.clearingAt == Some(looks[|looks| - s.clearStreak].at))
  }

  lemma LookTracks(cfg: Config, s: Watch, before: seq<Look>, look: Look)
    requires Tracks(s, before)
    ensures Tracks(LookAt(cfg, s, look).0, before + [look])
    ensures var looks := before + [look];
            var up := (p: Phase) => p == Confirmed || p == Clearing;
            up(LookAt(cfg, s, look).0.phase) ==
            if up(s.phase) then !look.Pause? && !Sustained(looks, false, cfg.clearFrames, cfg.clearSeconds)
            else Sustained(looks, true, cfg.triggerFrames, cfg.confirmSeconds)
  {
    var looks := before + [look];
    assert looks[..|looks| - 1] == before;
  }

  // For every history: the state machine, the manager's flag and the alarm read off the
  // history agree.
  lemma {:induction false} FlagIsAlarm(cfg: Config, looks: seq<Look>)
    ensures Tracks(After(cfg, looks), looks)
    ensures Alarm(cfg, looks) == (After(cfg, looks).phase == Confirmed || After(cfg, looks).phase == Clearing)
    ensures Flag(cfg, looks) == Alarm(cfg, looks)
    decreases |looks|
  {
    if looks != [] {
      var before := looks[..|looks| - 1];
      FlagIsAlarm(cfg, before);
      assert before + [looks[|looks| - 1]] == looks;
      LookTracks(cfg, After(cfg, before), before, looks[|looks| - 1]);
    }
  }

  // ---- the state manager's own record ----

  // What reaches the state manager: this detector's looks, and everybody else's reports.
  datatype Act = Watched(look: Look) | Elsewhere(camera: string, signal: Signal, active: bool, at: real)

  function Looks(acts: seq<Act>): seq<Look>
    decreases |acts|
  {
    if acts == [] then []
    else
      var before := Looks(acts[..|acts| - 1]);
      var act := acts[|acts| - 1];
      if act.Watched? then before + [act.look] else before
  }

  function RecordAfter(cfg: Config, camera: string, refresh: real, cams: Cameras, acts: seq<Act>): Cameras
    decreases |acts|
  {
    if acts == [] then cams
    else
      var before := acts[..|acts| - 1];
      var record := RecordAfter(cfg, camera, refresh, cams, before);
      match acts[|acts| - 1]
      case Watched(look) => Reported(record, camera, LookAt(cfg, After(cfg, Looks(before)), look).1, look.at, refresh)
      case Elsewhere(other, signal, active, at) => Updated(record, other, signal, active, at, refresh)
  }

  // Among reports of any other kind, the camera's tamper flag in the state manager is the
  // alarm of this detector's history, up exactly in its two upper states.
  lemma {:induction false} ManagerFlagIsAlarm(cfg: Config, camera: string, refresh: real, cams: Cameras, acts: seq<Act>)
    requires !CameraOf(cams, camera).tamper.active
    requires forall i :: 0 <= i < |acts| && acts[i].Elsewhere? ==>
               acts[i].signal != Tamper || Role(acts[i].camera) != Role(camera)
    ensures var flag := CameraOf(RecordAfter(cfg, camera, refresh, cams, acts), camera).tamper.active;
            var phase := After(cfg, Looks(acts)).phase;
            flag == Alarm(cfg, Looks(acts)) == (phase == Confirmed || phase == Clearing)
    decreases |acts|
  {
    FlagIsAlarm(cfg, Looks(acts));
    if acts != [] {
      hide Alarm, Tracks, After, Flag, Updated, CameraOf, Observed;
      var before, act := acts[..|acts| - 1], acts[|acts| - 1];
      ManagerFlagIsAlarm(cfg, camera, refresh, cams, before);
      var record := RecordAfter(cfg, camera, refresh, cams, before);
      if act.Watched? {
        ReportMovesFlag(record, camera, LookAt(cfg, After(cfg, Looks(before)), act.look).1, act.look.at, refresh);
        FlagNext(cfg, Looks(before), act.look);
        FlagIsAlarm(cfg, Looks(before));
      } else {
        ElsewhereKeepsFlag(record, camera, act.camera, act.signal, act.active, act.at, refresh);
      }
    } else {
      assert Looks(acts) == [];
    }
  }

  lemma ReportMovesFlag(cams: Cameras, camera: string, report: Option<bool>, now: real, refresh: real)
    ensures CameraOf(Reported(cams, camera, report, now, refresh), camera).tamper.active
         == if report.Some? then report.value else CameraOf(cams, camera).tamper.active
  {}

  lemma ElsewhereKeepsFlag(cams: Cameras, camera: string, other: string, signal: Signal, active: bool, now: real,
                           refresh: real)
    requires signal != Tamper || Role(other) != Role(camera)
    ensures CameraOf(Updated(cams, other, signal, active, now, refresh), camera).tamper.active
         == CameraOf(cams, camera).tamper.active
  {}

  lemma FlagNext(cfg: Config, before: seq<Look>, look: Look)
    ensures var report := LookAt(cfg, After(cfg, before), look).1;
            Flag(cfg, before + [look]) == if report.Some? then report.value else Flag(cfg, before)
  {
    hide LookAt;
    assert (before + [look])[..|before|] == before;
  }

  // What the streak means: every one of those looks saw it, and the one before did not.
  lemma {:induction false} StreakMeaning(looks: seq<Look>, tampered: bool)
    ensures var n := Streak(looks, tampered);
            && (forall i :: |looks| - n <= i < |looks| ==> looks[i].Seen? && looks[i].tampered == tampered)
            && (n < |looks| ==> looks[|looks| - n - 1].Pause? || looks[|looks| - n - 1].tampered != tampered)
    decreases |looks|
  {
    if looks != [] && looks[|looks| - 1].Seen? && looks[|looks| - 1].tampered == tampered {
      var before := looks[..|looks| - 1];
      StreakMeaning(before, tampered);
      forall i | |looks| - Streak(looks, tampered) <= i < |looks|
        ensures looks[i].Seen? && looks[i].tampered == tampered
      {
        if i < |before| { assert looks[i] == before[i]; }
      }
    }
  }

  // When the flag rises, max(2, trigger) tampered looks in a row span the confirm time;
  // when it falls without a pause, as many clean looks span the clear time.
  lemma FlagEdges(cfg: Config, before: seq<Look>, look: Look)
    ensures var looks := before + [look];
            !Flag(cfg, before) && Flag(cfg, looks) ==>
            exists k :: 0 <= k <= |looks| - 2 && k <= |looks| - cfg.triggerFrames
                   && look.at - looks[k].at >= cfg.confirmSeconds
                   && forall i :: k <= i < |looks| ==> looks[i].Seen? && looks[i].tampered
    ensures var looks := before + [look];
            Flag(cfg, before) && !Flag(cfg, looks) && !look.Pause? ==>
            exists k :: 0 <= k <= |looks| - 2 && k <= |looks| - cfg.clearFrames
                   && look.at - looks[k].at >= cfg.clearSeconds
                   && forall i :: k <= i < |looks| ==> looks[i].Seen? && !looks[i].tampered
  {
    var looks := before + [look];
    assert looks[..|looks| - 1] == before;
    FlagIsAlarm(cfg, before);
    FlagIsAlarm(cfg, looks);
    StreakMeaning(looks, true);
    StreakMeaning(looks, false);
    var k, j := |looks| - Streak(looks, true), |looks| - Streak(looks, false);
    assert Sustained(looks, true, cfg.triggerFrames, cfg.confirmSeconds) ==> 0 <= k <= |looks| - 2;
    assert Sustained(looks, false, cfg.clearFrames, cfg.clearSeconds) ==> 0 <= j <= |looks| - 2;
  }
}
