// Human presence on the internal camera: four debounced signals under one presence
// hold.  The whole refines a single timer.
module PersonPresence {
  import opened Common
  import DetectionState
  import SecurityRelay

  datatype Kind = Face | Hand | Body | Person

  // Consecutive hits to activate a signal, consecutive misses to clear it.
  datatype Frames = Frames(trigger: positive, clear: positive)

  datatype Config = Config(face: Frames, hand: Frames, body: Frames, person: Frames,
                           clearSeconds: real, timeout: real)
  {
    function Of(k: Kind): Frames {
      match k
      case Face => face
      case Hand => hand
      case Body => body
      case Person => person
    }

    predicate SameTriggers(other: Config) {
      face.trigger == other.face.trigger && hand.trigger == other.hand.trigger &&
      body.trigger == other.body.trigger && person.trigger == other.person.trigger
    }

    predicate Immediate() {
      face.trigger == 1 && hand.trigger == 1 && body.trigger == 1 && person.trigger == 1
    }
  }

  // One signal; a time of 0.0 means "never seen".
  datatype Channel = Channel(active: bool, streak: nat, clearStreak: nat, lastSeen: real)

  const SILENT := Channel(false, 0, 0, 0.0)

  datatype Raw = Raw(face: bool, hand: bool, body: bool, person: bool)
  {
    predicate Any() { face || hand || body || person }

    predicate Of(k: Kind) {
      match k
      case Face => face
      case Hand => hand
      case Body => body
      case Person => person
    }
  }

  datatype Presence = Presence(face: Channel, hand: Channel, body: Channel, person: Channel,
                               visible: bool, lastDetected: real)
  {
    function Of(k: Kind): Channel {
      match k
      case Face => face
      case Hand => hand
      case Body => body
      case Person => person
    }

    predicate AnyActive() { face.active || hand.active || body.active || person.active }
  }

  const ABSENT := Presence(SILENT, SILENT, SILENT, SILENT, false, 0.0)

  function Debounced(c: Channel, detected: bool, now: real, frames: Frames, clearSeconds: real): Channel {
    if detected then
      Channel(c.active || c.streak + 1 >= frames.trigger, c.streak + 1, 0, now)
    else
      var age := if c.lastSeen == 0.0 then 0.0 else now - c.lastSeen;
      Channel(c.active && !(c.clearStreak + 1 >= frames.clear && age > clearSeconds), 0, c.clearStreak + 1, c.lastSeen)
  }

  // Expiry keeps the seen times and drops everything else.
  function Dropped(c: Channel): Channel { Channel(false, 0, 0, c.lastSeen) }

  function Sensed(cfg: Config, s: Presence, raw: Raw, now: real): Presence
  {
    s.(face := Debounced(s.face, raw.face, now, cfg.face, cfg.clearSeconds),
       hand := Debounced(s.hand, raw.hand, now, cfg.hand, cfg.clearSeconds),
       body := Debounced(s.body, raw.body, now, cfg.body, cfg.clearSeconds),
       person := Debounced(s.person, raw.person, now, cfg.person, cfg.clearSeconds),
       lastDetected := if raw.Any() then now else s.lastDetected)
  }

  function Framed(cfg: Config, s: Presence, raw: Raw, now: real): Presence
  {
    var n := Sensed(cfg, s, raw, now);
    var age := if n.lastDetected == 0.0 then 0.0 else now - n.lastDetected;
    var hold := s.visible && n.lastDetected > 0.0 && age < cfg.timeout;
    if !raw.Any() && !hold && s.visible && n.lastDetected != 0.0 then
      n.(face := Dropped(n.face), hand := Dropped(n.hand), body := Dropped(n.body), person := Dropped(n.person),
         visible := false)
    else
      n.(visible := n.AnyActive() || hold)
  }

  // Whether frames have been missing for the whole hold of a visible person.
  predicate Lapsed(cfg: Config, s: Presence, now: real) {
    var seen := if s.lastDetected != 0.0 then s.lastDetected
                else Latest([s.person.lastSeen, s.face.lastSeen, s.hand.lastSeen, s.body.lastSeen]);
    s.visible && seen != 0.0 && now - seen >= cfg.timeout
  }

  // The idle poll between frames.
  function Polled(cfg: Config, s: Presence, now: real): Presence {
    if Lapsed(cfg, s, now) then ABSENT else s
  }

  function Latest(ts: seq<real>): real
    requires ts != []
    decreases |ts|
  {
    if |ts| == 1 then ts[0] else var m := Latest(ts[1..]); if ts[0] < m then m else ts[0]
  }

  class PersonDetector {
    const cfg: Config
    const manager: DetectionState.DetectionStateManager
    var face: Channel
    var hand: Channel
    var body: Channel
    var person: Channel
    var visible: bool
    var lastDetected: real

    ghost function View(): Presence
      reads this
    {
      Presence(face, hand, body, person, visible, lastDetected)
    }

    constructor (cfg: Config, manager: DetectionState.DetectionStateManager)
      ensures this.cfg == cfg && this.manager == manager && View() == ABSENT
    {
      this.cfg := cfg;
      this.manager := manager;
      face, hand, body, person := SILENT, SILENT, SILENT, SILENT;
      visible, lastDetected := false, 0.0;
    }

    // Returns the person flag sent to the state manager.
    method UpdateLedState(raw: Raw, now: real) returns (reported: bool)
      modifies this, manager`cameras, manager`log, manager.relay, manager.relay.controller
      ensures View() == Framed(cfg, old(View()), raw, now)
      ensures reported == visible
      ensures manager.cameras
           == DetectionState.PresenceUpdated(old(manager.cameras), "internal",
                                             face.active, hand.active, visible, now, manager.refresh)
      ensures var es := DetectionState.Events(old(manager.cameras), "internal", DetectionState.Person, visible, now,
                                              manager.refresh);
              var relay := manager.relay;
              var write := SecurityRelay.Performed(
                             relay.controller.w, old(relay.controller.View()),
                             DetectionState.DeliveryRequest(relay.cfg, old(relay.View()), es, now), relay.cfg.retries);
              && manager.log == old(manager.log) + es
              && relay.controller.View() == write.board
              && relay.View() == DetectionState.Delivered(relay.cfg, old(relay.View()), es, now, write.ok)
    {
      hide DetectionState.PresenceUpdated, DetectionState.Events, DetectionState.Delivered;
      hide DetectionState.DeliveryRequest, SecurityRelay.Performed, Sensed;
      var anyRaw := raw.face || raw.hand || raw.body || raw.person;
      DebounceAll(raw, now);
      assert View() == Sensed(cfg, old(View()), raw, now);
      var bodyPartActive := person.active || face.active || hand.active || body.active;
      var absenceAge := if lastDetected != 0.0 then now - lastDetected else 0.0;
      var holdActive := visible && lastDetected > 0.0 && absenceAge < cfg.timeout;
      if !anyRaw && !holdActive && visible && lastDetected != 0.0 {
        ExpireInternalPresence();
        bodyPartActive := false;
      }
      var relayActive := bodyPartActive || holdActive;
      reported := bodyPartActive;
      if relayActive && !bodyPartActive {
        reported := true;
      }
      manager.UpdatePresence("internal", face.active, hand.active, reported, now);
      visible := relayActive;
    }

    // The time of the last raw hit, then each signal by itself.
    method DebounceAll(raw: Raw, now: real)
      modifies this`face, this`hand, this`body, this`person, this`lastDetected
      ensures View() == Sensed(cfg, old(View()), raw, now)
    {
      if raw.face || raw.hand || raw.body || raw.person {
        lastDetected := now;
      }
      face := Debounced(face, raw.face, now, cfg.face, cfg.clearSeconds);
      hand := Debounced(hand, raw.hand, now, cfg.hand, cfg.clearSeconds);
      body := Debounced(body, raw.body, now, cfg.body, cfg.clearSeconds);
      person := Debounced(person, raw.person, now, cfg.person, cfg.clearSeconds);
    }

    method ExpireInternalPresence()
      modifies this`face, this`hand, this`body, this`person
      ensures View() == old(View()).(face := Dropped(old(face)), hand := Dropped(old(hand)),
                                     body := Dropped(old(body)), person := Dropped(old(person)))
    {
      face, hand, body, person := Dropped(face), Dropped(hand), Dropped(body), Dropped(person);
    }

    // Returns whether everything was cleared and reported as absent.
    method ClearStale(now: real) returns (cleared: bool)
      modifies this, manager`cameras, manager`log, manager.relay, manager.relay.controller
      ensures View() == Polled(cfg, old(View()), now)
      ensures cleared == Lapsed(cfg, old(View()), now)
      ensures manager.cameras == if cleared
        then DetectionState.PresenceUpdated(old(manager.cameras), "internal", false, false, false, now, manager.refresh)
        else old(manager.cameras)
      ensures var es := if cleared
                then DetectionState.Events(old(manager.cameras), "internal", DetectionState.Person, false, now,
                                           manager.refresh)
                else [];
              && manager.log == old(manager.log) + es
              && manager.relay.View()
                 == DetectionState.Delivered(manager.relay.cfg, old(manager.relay.View()), es, now, false)
              && manager.relay.controller.View() == old(manager.relay.controller.View())
    {
      if !visible { return false; }
      var seen := if lastDetected != 0.0 then lastDetected
                  else Latest([person.lastSeen, face.lastSeen, hand.lastSeen, body.lastSeen]);
      if seen == 0.0 { return false; }
      if now - seen < cfg.timeout { return false; }
      manager.ClearPresence("internal", now);
      face, hand, body, person := SILENT, SILENT, SILENT, SILENT;
      visible, lastDetected := false, 0.0;
      return true;
    }
  }

  // ---- the single timer ----

  // Streaks of consecutive raw hits, the visible flag and the last raw hit.
  datatype Timer = Timer(face: nat, hand: nat, body: nat, person: nat, visible: bool, last: real)

  function Count(streak: nat, hit: bool): nat { if hit then streak + 1 else 0 }

  // Visible starts when some streak reaches its trigger and lasts while raw hits are
  // less than the timeout apart.  No clear counts, no clear seconds, no channel states.
  function TimerFramed(cfg: Config, t: Timer, raw: Raw, now: real): Timer
  {
    var face, hand := Count(t.face, raw.face), Count(t.hand, raw.hand);
    var body, person := Count(t.body, raw.body), Count(t.person, raw.person);
    var triggered := face >= cfg.face.trigger || hand >= cfg.hand.trigger
                     || body >= cfg.body.trigger || person >= cfg.person.trigger;
    var visible := if raw.Any() then t.visible || triggered else t.visible && now - t.last < cfg.timeout;
    Timer(face, hand, body, person, visible, if raw.Any() then now else t.last)
  }

  function TimerPolled(cfg: Config, t: Timer, now: real): Timer {
    if t.visible && now - t.last >= cfg.timeout then Timer(0, 0, 0, 0, false, 0.0) else t
  }

  function TimerOf(s: Presence): Timer {
    Timer(s.face.streak, s.hand.streak, s.body.streak, s.person.streak, s.visible, s.lastDetected)
  }

  // An active signal is visible, and visible has a real raw hit behind it.
  ghost predicate Steady(s: Presence) {
    && (s.AnyActive() ==> s.visible)
    && (s.visible ==> s.lastDetected > 0.0)
  }

  datatype Input = Frame(raw: Raw, at: real) | Poll(at: real)

  function Step(cfg: Config, s: Presence, i: Input): Presence
  {
    match i
    case Frame(raw, at) => Framed(cfg, s, raw, at)
    case Poll(at) => Polled(cfg, s, at)
  }

  function TimerStep(cfg: Config, t: Timer, i: Input): Timer
  {
    match i
    case Frame(raw, at) => TimerFramed(cfg, t, raw, at)
    case Poll(at) => TimerPolled(cfg, t, at)
  }

  // The visible flag after each input.
  function Shown(cfg: Config, s: Presence, inputs: seq<Input>): seq<bool>
    decreases |inputs|
  {
    if inputs == [] then [] else var n := Step(cfg, s, inputs[0]); [n.visible] + Shown(cfg, n, inputs[1..])
  }

  function TimerShown(cfg: Config, t: Timer, inputs: seq<Input>): seq<bool>
    decreases |inputs|
  {
    if inputs == [] then [] else var n := TimerStep(cfg, t, inputs[0]); [n.visible] + TimerShown(cfg, n, inputs[1..])
  }

  // A positive clock that does not go back.
  ghost predicate Clocked(inputs: seq<Input>, from: real)
    decreases |inputs|
  {
    inputs == [] || (0.0 < inputs[0].at && from <= inputs[0].at && Clocked(inputs[1..], inputs[0].at))
  }

  // When the hold bridges every gap between a raw hit and its trigger.
  predicate Bridged(cfg: Config) { cfg.timeout > 0.0 || (cfg.timeout == 0.0 && cfg.Immediate()) }

  lemma StepRefinesTimer(cfg: Config, s: Presence, i: Input)
    requires Bridged(cfg) && 0.0 < i.at && s.lastDetected <= i.at && Steady(s)
    ensures var n := Step(cfg, s, i); Steady(n) && n.lastDetected <= i.at
    ensures TimerOf(Step(cfg, s, i)) == TimerStep(cfg, TimerOf(s), i)
  {
    if i.Frame? {
      var n := Sensed(cfg, s, i.raw, i.at);
      assert !s.visible ==> (n.AnyActive() <==>
        || n.face.streak >= cfg.face.trigger || n.hand.streak >= cfg.hand.trigger
        || n.body.streak >= cfg.body.trigger || n.person.streak >= cfg.person.trigger);
    }
  }

  lemma {:induction false} RunRefinesTimer(cfg: Config, s: Presence, inputs: seq<Input>, from: real)
    requires Bridged(cfg) && Clocked(inputs, from) && s.lastDetected <= from && Steady(s)
    ensures Shown(cfg, s, inputs) == TimerShown(cfg, TimerOf(s), inputs)
    decreases |inputs|
  {
    if inputs != [] {
      StepRefinesTimer(cfg, s, inputs[0]);
      RunRefinesTimer(cfg, Step(cfg, s, inputs[0]), inputs[1..], inputs[0].at);
    }
  }

  lemma {:induction false} TimerIgnoresClearing(one: Config, two: Config, t: Timer, inputs: seq<Input>)
    requires one.SameTriggers(two) && one.timeout == two.timeout
    ensures TimerShown(one, t, inputs) == TimerShown(two, t, inputs)
    decreases |inputs|
  {
    if inputs != [] {
      TimerIgnoresClearing(one, two, TimerStep(one, t, inputs[0]), inputs[1..]);
    }
  }

  // Detectors that differ only in clear frames and clear seconds show the same output.
  ghost predicate ClearSettingsNeverShow(cfg: Config) {
    forall one: Config, two: Config, inputs: seq<Input> ::
      one.SameTriggers(cfg) && two.SameTriggers(cfg) && one.timeout == two.timeout == cfg.timeout
          && Clocked(inputs, 0.0)
      ==> Shown(one, ABSENT, inputs) == Shown(two, ABSENT, inputs)
  }

  // ---- one signal by its history ----

  datatype Look = Look(hit: bool, at: real)

  function ChannelAfter(frames: Frames, clearSeconds: real, looks: seq<Look>): Channel
    decreases |looks|
  {
    if looks == [] then SILENT
    else
      var before, last := looks[..|looks| - 1], looks[|looks| - 1];
      Debounced(ChannelAfter(frames, clearSeconds, before), last.hit, last.at, frames, clearSeconds)
  }

  // How many of the latest looks agree on this.
  function LookRun(looks: seq<Look>, hit: bool): nat
    decreases |looks|
  {
    if looks == [] || looks[|looks| - 1].hit != hit then 0 else 1 + LookRun(looks[..|looks| - 1], hit)
  }

  // When it was last hit, 0.0 for never.
  function LastHit(looks: seq<Look>): real
    decreases |looks|
  {
    if looks == [] then 0.0
    else if looks[|looks| - 1].hit then looks[|looks| - 1].at else LastHit(looks[..|looks| - 1])
  }

  // Raised by enough hits in a row; dropped by enough misses in a row once the last hit is
  // more than the clear time ago.
  predicate SignalUp(frames: Frames, clearSeconds: real, looks: seq<Look>)
    decreases |looks|
  {
    looks != [] &&
    var before, last := looks[..|looks| - 1], looks[|looks| - 1];
    if SignalUp(frames, clearSeconds, before) then
      !(LookRun(looks, false) >= frames.clear && last.at - LastHit(looks) > clearSeconds)
    else LookRun(looks, true) >= frames.trigger
  }

  ghost predicate PositiveLooks(looks: seq<Look>) {
    forall i :: 0 <= i < |looks| ==> looks[i].at > 0.0
  }

  lemma {:induction false} ChannelMeaning(frames: Frames, clearSeconds: real, looks: seq<Look>)
    requires PositiveLooks(looks)
    ensures ChannelAfter(frames, clearSeconds, looks) ==
            Channel(SignalUp(frames, clearSeconds, looks), LookRun(looks, true), LookRun(looks, false), LastHit(looks))
    ensures SignalUp(frames, clearSeconds, looks) ==> LastHit(looks) > 0.0
    decreases |looks|
  {
    if looks != [] {
      var before := looks[..|looks| - 1];
      assert forall i :: 0 <= i < |before| ==> before[i] == looks[i];
      ChannelMeaning(frames, clearSeconds, before);
      assert looks[|looks| - 1].at > 0.0;
    }
  }

  // With no hold at all a frame without any hit drops every signal; any other frame shows
  // whatever signal is up.
  lemma UnheldFrame(cfg: Config, s: Presence, raw: Raw, now: real)
    requires cfg.timeout <= 0.0 && 0.0 < now && s.lastDetected <= now && Steady(s)
    ensures var n := Framed(cfg, s, raw, now);
            && (n.visible <==> raw.Any() && n.AnyActive())
            && (!raw.Any() ==> !n.AnyActive() && n.lastDetected == s.lastDetected)
            && (raw.Any() ==>
                  && n.lastDetected == now
                  && n.face == Debounced(s.face, raw.face, now, cfg.face, cfg.clearSeconds)
                  && n.hand == Debounced(s.hand, raw.hand, now, cfg.hand, cfg.clearSeconds)
                  && n.body == Debounced(s.body, raw.body, now, cfg.body, cfg.clearSeconds)
                  && n.person == Debounced(s.person, raw.person, now, cfg.person, cfg.clearSeconds))
  {}

  // A frame moves the last sighting of exactly the signals it hit, expiry or not.
  lemma FrameKeepsSightings(cfg: Config, s: Presence, raw: Raw, now: real, k: Kind)
    ensures Framed(cfg, s, raw, now).Of(k).lastSeen == if raw.Of(k) then now else s.Of(k).lastSeen
    ensures Framed(cfg, s, raw, now).lastDetected == if raw.Any() then now else s.lastDetected
  {}

  lemma {:induction false} LatestMeaning(ts: seq<real>)
    requires ts != []
    ensures Latest(ts) in ts && forall i :: 0 <= i < |ts| ==> ts[i] <= Latest(ts)
    decreases |ts|
  {
    if |ts| > 1 {
      LatestMeaning(ts[1..]);
      assert forall i :: 1 <= i < |ts| ==> ts[i] == ts[1..][i - 1];
    }
  }

  // ---- with no hold, a slow trigger lets the clear settings show ----

  function OnlyHit(k: Kind): Raw { Raw(k == Face, k == Hand, k == Body, k == Person) }

  // After m > 0 frames in which only k was hit, all at time 1.
  function AfterHits(cfg: Config, k: Kind, m: nat): Presence {
    var hit := Channel(m >= cfg.Of(k).trigger, m, 0, 1.0);
    var miss := Channel(false, 0, m, 0.0);
    Presence(if k == Face then hit else miss, if k == Hand then hit else miss,
             if k == Body then hit else miss, if k == Person then hit else miss, m >= cfg.Of(k).trigger, 1.0)
  }

  lemma OneMoreHit(cfg: Config, k: Kind, m: nat)
    requires cfg.timeout == 0.0
    ensures Step(cfg, if m == 0 then ABSENT else AfterHits(cfg, k, m), Frame(OnlyHit(k), 1.0))
         == AfterHits(cfg, k, m + 1)
  {}

  function Hits(k: Kind, n: nat, tail: seq<Input>): seq<Input>
    decreases n
  {
    if n == 0 then tail else [Frame(OnlyHit(k), 1.0)] + Hits(k, n - 1, tail)
  }

  lemma HitsNext(k: Kind, n: nat, tail: seq<Input>)
    requires n != 0
    ensures Hits(k, n, tail) == [Frame(OnlyHit(k), 1.0)] + Hits(k, n - 1, tail)
  {}

  lemma DropOneMore(x: bool, s: seq<bool>, n: nat)
    requires 0 < n <= |s| + 1
    ensures ([x] + s)[n..] == s[n - 1..]
  {}

  lemma ShownNext(cfg: Config, s: Presence, i: Input, rest: seq<Input>)
    ensures Shown(cfg, s, [i] + rest) == [Step(cfg, s, i).visible] + Shown(cfg, Step(cfg, s, i), rest)
  {
    hide Step;
    assert ([i] + rest)[1..] == rest;
  }

  lemma {:induction false} HitsAddUp(cfg: Config, k: Kind, m: nat, n: nat, tail: seq<Input>)
    requires cfg.timeout == 0.0 && m + n > 0
    ensures var shown := Shown(cfg, if m == 0 then ABSENT else AfterHits(cfg, k, m), Hits(k, n, tail));
            |shown| >= n && shown[n..] == Shown(cfg, AfterHits(cfg, k, m + n), tail)
    decreases n
  {
    if n != 0 {
      hide Step, AfterHits, Shown, Hits, OnlyHit;
      var s := if m == 0 then ABSENT else AfterHits(cfg, k, m);
      var hit, rest := Frame(OnlyHit(k), 1.0), Hits(k, n - 1, tail);
      OneMoreHit(cfg, k, m);
      HitsNext(k, n, tail);
      ShownNext(cfg, s, hit, rest);
      HitsAddUp(cfg, k, m + 1, n - 1, tail);
      DropOneMore(Step(cfg, s, hit).visible, Shown(cfg, Step(cfg, s, hit), rest), n);
    } else {
      hide Step, AfterHits, Shown;
    }
  }

  lemma {:induction false} HitsAreClocked(k: Kind, n: nat, tail: seq<Input>, from: real)
    requires 0.0 <= from <= 1.0 && Clocked(tail, 1.0) && (n == 0 ==> from == 1.0)
    ensures Clocked(Hits(k, n, tail), from)
    decreases n
  {
    if n != 0 {
      assert Hits(k, n, tail)[1..] == Hits(k, n - 1, tail);
      HitsAreClocked(k, n - 1, tail, 1.0);
    }
  }

  function WithClear(cfg: Config, clear: positive): Config {
    Config(Frames(cfg.face.trigger, clear), Frames(cfg.hand.trigger, clear),
           Frames(cfg.body.trigger, clear), Frames(cfg.person.trigger, clear), 0.0, cfg.timeout)
  }

  // One frame of the slow signal alone: the other one survives it only if it takes more
  // than one miss to clear.
  lemma SlowFrame(cfg: Config, slow: Kind, other: Kind, clear: positive)
    requires cfg.timeout == 0.0 && slow != other && cfg.Of(slow).trigger >= 2
    ensures var c := WithClear(cfg, clear);
            Step(c, AfterHits(c, other, c.Of(other).trigger), Frame(OnlyHit(slow), 2.0)).visible == (clear > 1)
  {
    var c := WithClear(cfg, clear);
    var s := AfterHits(c, other, c.Of(other).trigger);
    var n := Sensed(c, s, OnlyHit(slow), 2.0);
    assert OnlyHit(slow).Any();
    assert n.Of(other).active == (clear > 1);
    assert !n.Of(slow).active;
    forall k: Kind | k != slow && k != other ensures !n.Of(k).active {}
    assert n.AnyActive() == (clear > 1) by {
      assert n.AnyActive() == (n.Of(Face).active || n.Of(Hand).active || n.Of(Body).active || n.Of(Person).active);
    }
  }

  lemma SlowTriggerShowsClearing(cfg: Config, slow: Kind, other: Kind)
    requires cfg.timeout == 0.0 && slow != other && cfg.Of(slow).trigger >= 2
    ensures !ClearSettingsNeverShow(cfg)
  {
    hide Step, AfterHits, Debounced;
    var one, two := WithClear(cfg, 1), WithClear(cfg, 2);
    var n := cfg.Of(other).trigger;
    var tail := [Frame(OnlyHit(slow), 2.0)];
    var inputs := Hits(other, n, tail);
    HitsAreClocked(other, n, tail, 0.0);
    HitsAddUp(one, other, 0, n, tail);
    HitsAddUp(two, other, 0, n, tail);
    SlowFrame(cfg, slow, other, 1);
    SlowFrame(cfg, slow, other, 2);
    assert one.Of(other).trigger == n && two.Of(other).trigger == n;
    assert Shown(one, AfterHits(one, other, n), tail)[0] == false;
    assert Shown(two, AfterHits(two, other, n), tail)[0] == true;
    assert Shown(one, ABSENT, inputs)[n..] != Shown(two, ABSENT, inputs)[n..];
    assert Shown(one, ABSENT, inputs) != Shown(two, ABSENT, inputs);
  }

  // Exactly when the clear settings are invisible: some hold, or triggers of one frame.
  lemma ClearSettingsNeverShowExactlyWhen(cfg: Config)
    requires 0.0 <= cfg.timeout
    ensures ClearSettingsNeverShow(cfg) <==> cfg.timeout > 0.0 || cfg.Immediate()
  {
    if Bridged(cfg) {
      forall one: Config, two: Config, inputs: seq<Input> |
        one.SameTriggers(cfg) && two.SameTriggers(cfg) && one.timeout == two.timeout == cfg.timeout
            && Clocked(inputs, 0.0)
        ensures Shown(one, ABSENT, inputs) == Shown(two, ABSENT, inputs)
      {
        RunRefinesTimer(one, ABSENT, inputs, 0.0);
        RunRefinesTimer(two, ABSENT, inputs, 0.0);
        TimerIgnoresClearing(one, two, TimerOf(ABSENT), inputs);
      }
    } else {
      var slow := if cfg.face.trigger >= 2 then Face else if cfg.hand.trigger >= 2 then Hand
                  else if cfg.body.trigger >= 2 then Body else Person;
      SlowTriggerShowsClearing(cfg, slow, if slow == Face then Hand else Face);
    }
  }
}
