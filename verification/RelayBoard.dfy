// The four-channel relay controller: shared sources per output, verified and
// retried pin writes, and the direct force-off path.
module RelayBoard {
  import opened Common
  import opened GpioPort

  const SECURITY := "security_event"

  datatype Wiring = Wiring(red: int, green: int, locker: int, buzzer: int,
                           activeLow: bool, writeRetries: positive)
  {
    function Pins(): set<int> { {red, green, locker, buzzer} }

    ghost predicate Distinct() {
      red != green && red != locker && red != buzzer &&
      green != locker && green != buzzer && locker != buzzer
    }

    function LevelFor(active: bool): Level {
      if active == activeLow then Low else High
    }
  }

  datatype Board = Board(enabled: bool, red: set<string>, buzzer: set<string>,
                         redOn: bool, buzzerOn: bool, greenOn: bool, unlocked: bool,
                         port: Port)

  datatype Outcome = Outcome(board: Board, raised: bool)

  ghost predicate PinActive(w: Wiring, b: Board, pin: int) {
    LevelOf(b.port, pin) == w.LevelFor(true)
  }

  // ---- specification of each controller method on board values ----

  function WriteAttempts(w: Wiring, b: Board, pin: int, active: bool, n: nat): Outcome
    decreases n
  {
    if n == 0 then Outcome(b, false)
    else
      var (sent, raised) := Output(b.port, pin, w.LevelFor(active));
      if raised then Outcome(b.(port := sent), true)
      else
        var (read, seen) := Input(sent, pin);
        if seen.None? || (seen.value == w.LevelFor(true)) == active then Outcome(b.(port := read), false)
        else WriteAttempts(w, b.(port := read), pin, active, n - 1)
  }

  function PinWritten(w: Wiring, b: Board, pin: int, active: bool): Outcome {
    if b.enabled then WriteAttempts(w, b, pin, active, w.writeRetries) else Outcome(b, false)
  }

  function RedApplied(w: Wiring, b: Board): Outcome {
    var active := b.red != {};
    if b.redOn == active then Outcome(b, false)
    else PinWritten(w, b.(redOn := active), w.red, active)
  }

  function BuzzerApplied(w: Wiring, b: Board): Outcome {
    var active := b.buzzer != {};
    if b.buzzerOn == active then Outcome(b, false)
    else PinWritten(w, b.(buzzerOn := active), w.buzzer, active)
  }

  function BothApplied(w: Wiring, b: Board): Outcome {
    var red := RedApplied(w, b);
    if red.raised then red else BuzzerApplied(w, red.board)
  }

  function Toggle(s: set<string>, source: string, active: bool): set<string> {
    if active then s + {source} else s - {source}
  }

  function RedSourceSet(w: Wiring, b: Board, source: string, active: bool): Outcome {
    RedApplied(w, b.(red := Toggle(b.red, source, active)))
  }

  function BuzzerSourceSet(w: Wiring, b: Board, source: string, active: bool): Outcome {
    BuzzerApplied(w, b.(buzzer := Toggle(b.buzzer, source, active)))
  }

  // Both source sets change before either output is driven.
  function SecuritySet(w: Wiring, b: Board, active: bool): Outcome {
    BothApplied(w, b.(red := Toggle(b.red, SECURITY, active), buzzer := Toggle(b.buzzer, SECURITY, active)))
  }

  function AlertCleared(w: Wiring, b: Board, source: string): Outcome {
    BothApplied(w, b.(red := b.red - {source}, buzzer := b.buzzer - {source}))
  }

  // An alert drives red, then buzzer, one source set at a time.
  function AlertSet(w: Wiring, b: Board, source: string, active: bool): Outcome {
    var red := RedSourceSet(w, b, source, active);
    if red.raised then red else BuzzerSourceSet(w, red.board, source, active)
  }

  function Started(w: Wiring, b: Board): Board {
    if b.enabled then b
    else
      var (port, up) := Configure(b.port, w.Pins(), w.LevelFor(false));
      if up then Board(true, {}, {}, false, false, false, false, port) else b.(port := port)
  }

  // An output nobody holds is written off directly, whatever its flag says.
  function EmptyWrittenOff(w: Wiring, b: Board): Board {
    var c := if b.red == {} then PinWritten(w, b.(redOn := false), w.red, false).board else b;
    if c.buzzer == {} then PinWritten(w, c.(buzzerOn := false), w.buzzer, false).board else c
  }

  function ForcedOff(w: Wiring, board: Board): Board {
    var b := Started(w, board);
    var applied := BothApplied(w, b.(red := b.red - {SECURITY}, buzzer := b.buzzer - {SECURITY}));
    if applied.raised then applied.board else EmptyWrittenOff(w, applied.board)
  }

  // The red reading comes first; if it fails the buzzer is not read.
  function RelaysRead(w: Wiring, b: Board): (Board, bool) {
    if !b.enabled then (b, b.redOn || b.buzzerOn)
    else
      var (p1, red) := Input(b.port, w.red);
      if red.None? then (b.(port := p1), b.redOn || b.buzzerOn)
      else
        var (p2, buzzer) := Input(p1, w.buzzer);
        if buzzer.None? then (b.(port := p2), b.redOn || b.buzzerOn)
        else (b.(port := p2), red.value == w.LevelFor(true) || buzzer.value == w.LevelFor(true))
  }

  function LockerSet(w: Wiring, b: Board, open: bool): Outcome {
    if b.unlocked == open then Outcome(b, false) else PinWritten(w, b.(unlocked := open), w.locker, open)
  }

  function GreenSet(w: Wiring, b: Board, on: bool): Outcome {
    if b.greenOn == on then Outcome(b, false) else PinWritten(w, b.(greenOn := on), w.green, on)
  }

  // ---- the controller ----

  class RelayController {
    const w: Wiring
    var enabled: bool
    var redSources: set<string>
    var buzzerSources: set<string>
    var redOn: bool
    var buzzerOn: bool
    var greenOn: bool
    var lockerUnlocked: bool
    var port: Port

    ghost function View(): Board
      reads this
    {
      Board(enabled, redSources, buzzerSources, redOn, buzzerOn, greenOn, lockerUnlocked, port)
    }

    constructor (w: Wiring, port: Port)
      ensures this.w == w && View() == Board(false, {}, {}, false, false, false, false, port)
    {
      this.w := w;
      this.port := port;
      enabled, redOn, buzzerOn, greenOn, lockerUnlocked := false, false, false, false, false;
      redSources, buzzerSources := {}, {};
    }

    method Start()
      modifies this
      ensures View() == Started(w, old(View()))
    {
      hide PinWritten;
      if enabled { return; }
      var (next, up) := Configure(port, w.Pins(), w.LevelFor(false));
      port := next;
      if !up { return; }
      enabled := true;
      redSources, buzzerSources := {}, {};
      redOn, buzzerOn, greenOn, lockerUnlocked := false, false, false, false;
      // lock_locker, red_led_off, green_led_off and buzzer_off find everything off already.
      var _ := SetLocker(false);
      var _ := SetRedSource("manual", false);
      var _ := SetGreen(false);
      var _ := SetBuzzerSource("manual", false);
    }

    method WritePin(pin: int, active: bool) returns (raised: bool)
      modifies this`port
      ensures Outcome(View(), raised) == PinWritten(w, old(View()), pin, active)
    {
      if !enabled { return false; }
      var attempt := 0;
      while attempt < w.writeRetries
        invariant 0 <= attempt <= w.writeRetries
        invariant WriteAttempts(w, old(View()), pin, active, w.writeRetries)
               == WriteAttempts(w, View(), pin, active, w.writeRetries - attempt)
      {
        var (sent, failed) := Output(port, pin, w.LevelFor(active));
        port := sent;
        if failed { return true; }
        var (read, seen) := Input(port, pin);
        port := read;
        if seen.None? || (seen.value == w.LevelFor(true)) == active { return false; }
        attempt := attempt + 1;
      }
      return false;
    }

    method ApplyRed() returns (raised: bool)
      modifies this`port, this`redOn
      ensures Outcome(View(), raised) == RedApplied(w, old(View()))
    {
      var active := redSources != {};
      if redOn == active { return false; }
      redOn := active;
      raised := WritePin(w.red, active);
    }

    method ApplyBuzzer() returns (raised: bool)
      modifies this`port, this`buzzerOn
      ensures Outcome(View(), raised) == BuzzerApplied(w, old(View()))
    {
      var active := buzzerSources != {};
      if buzzerOn == active { return false; }
      buzzerOn := active;
      raised := WritePin(w.buzzer, active);
    }

    method SetRedSource(source: string, active: bool) returns (raised: bool)
      modifies this
      ensures Outcome(View(), raised) == RedSourceSet(w, old(View()), source, active)
    {
      redSources := if active then redSources + {source} else redSources - {source};
      raised := ApplyRed();
    }

    method SetBuzzerSource(source: string, active: bool) returns (raised: bool)
      modifies this
      ensures Outcome(View(), raised) == BuzzerSourceSet(w, old(View()), source, active)
    {
      buzzerSources := if active then buzzerSources + {source} else buzzerSources - {source};
      raised := ApplyBuzzer();
    }

    method SetSecurityRelays(active: bool) returns (raised: bool)
      modifies this
      ensures Outcome(View(), raised) == SecuritySet(w, old(View()), active)
    {
      if active {
        redSources := redSources + {SECURITY};
        buzzerSources := buzzerSources + {SECURITY};
      } else {
        redSources := redSources - {SECURITY};
        buzzerSources := buzzerSources - {SECURITY};
      }
      raised := ApplyRed();
      if raised { return; }
      raised := ApplyBuzzer();
    }

    method ClearAlertSource(source: string) returns (raised: bool)
      modifies this
      ensures Outcome(View(), raised) == AlertCleared(w, old(View()), source)
    {
      redSources := redSources - {source};
      buzzerSources := buzzerSources - {source};
      raised := ApplyRed();
      if raised { return; }
      raised := ApplyBuzzer();
    }

    method SetAlert(source: string, active: bool) returns (raised: bool)
      modifies this
      ensures Outcome(View(), raised) == AlertSet(w, old(View()), source, active)
    {
      raised := SetRedSource(source, active);
      if raised { return; }
      raised := SetBuzzerSource(source, active);
    }

    method ForceSecurityRelaysOff()
      modifies this
      ensures View() == ForcedOff(w, old(View()))
    {
      hide PinWritten, RedApplied, BuzzerApplied, Started;
      Start();
      ghost var cut := View().(red := redSources - {SECURITY}, buzzer := buzzerSources - {SECURITY});
      redSources := redSources - {SECURITY};
      buzzerSources := buzzerSources - {SECURITY};
      assert View() == cut;
      var raised := ApplyRed();
      if raised { return; }
      raised := ApplyBuzzer();
      assert Outcome(View(), raised) == BothApplied(w, cut);
      if raised { return; }
      WriteOffEmpty();
    }

    // The direct writes of the force path; failures are swallowed.
    method WriteOffEmpty()
      modifies this`redOn, this`buzzerOn, this`port
      ensures View() == EmptyWrittenOff(w, old(View()))
    {
      hide PinWritten;
      if redSources == {} {
        redOn := false;
        var _ := WritePin(w.red, false);
      }
      if buzzerSources == {} {
        buzzerOn := false;
        var _ := WritePin(w.buzzer, false);
      }
    }

    method IsSecurityRelaysOn() returns (on: bool)
      modifies this`port
      ensures (View(), on) == RelaysRead(w, old(View()))
    {
      if enabled {
        var (p1, red) := Input(port, w.red);
        port := p1;
        if red.Some? {
          var (p2, buzzer) := Input(port, w.buzzer);
          port := p2;
          if buzzer.Some? {
            return red.value == w.LevelFor(true) || buzzer.value == w.LevelFor(true);
          }
        }
      }
      return redOn || buzzerOn;
    }

    method SetLocker(open: bool) returns (raised: bool)
      modifies this`port, this`lockerUnlocked
      ensures Outcome(View(), raised) == LockerSet(w, old(View()), open)
    {
      if lockerUnlocked == open { return false; }
      lockerUnlocked := open;
      raised := WritePin(w.locker, open);
    }

    method SetGreen(on: bool) returns (raised: bool)
      modifies this`port, this`greenOn
      ensures Outcome(View(), raised) == GreenSet(w, old(View()), on)
    {
      if greenOn == on { return false; }
      greenOn := on;
      raised := WritePin(w.green, on);
    }
  }
}
