// The GPIO library as the relay controller sees it: pin levels plus the fates of
// every future call.  An exhausted script means calls that work.
module GpioPort {
  import opened Common

  datatype Level = Low | High

  // One output() call: the level changes, is silently lost, or the call raises.
  datatype WriteFate = Lands | Lost | WriteRaises

  // One input() call: the true level, a wrong one, or no reading at all
  // (an exception, or a backend without input()).
  datatype ReadFate = Faithful | Stuck(level: Level) | Unreadable

  // One start: every pin configured, or given up with some pins claimed and others released
  // to float at any level.
  datatype StartFate = Up | GivesUp(claimed: set<int>, floats: map<int, Level>)

  datatype Port = Port(levels: map<int, Level>,
                       writeFates: seq<WriteFate>, readFates: seq<ReadFate>, startFates: seq<StartFate>)

  // An unclaimed pin reads HIGH.
  function LevelOf(p: Port, pin: int): Level {
    if pin in p.levels then p.levels[pin] else High
  }

  function Output(p: Port, pin: int, level: Level): (Port, bool) {
    var fate := if p.writeFates == [] then Lands else p.writeFates[0];
    var rest := if p.writeFates == [] then [] else p.writeFates[1..];
    match fate
    case Lands => (p.(levels := p.levels[pin := level], writeFates := rest), false)
    case Lost => (p.(writeFates := rest), false)
    case WriteRaises => (p.(writeFates := rest), true)
  }

  function Input(p: Port, pin: int): (Port, Option<Level>) {
    var fate := if p.readFates == [] then Faithful else p.readFates[0];
    var next := p.(readFates := if p.readFates == [] then [] else p.readFates[1..]);
    match fate
    case Faithful => (next, Some(LevelOf(p, pin)))
    case Stuck(level) => (next, Some(level))
    case Unreadable => (next, None)
  }

  // Pins are claimed one by one, each at its idle level.
  function Idled(levels: map<int, Level>, pins: set<int>, idle: Level): map<int, Level> {
    map pin | pin in levels.Keys + pins :: if pin in pins then idle else levels[pin]
  }

  function LeftBehind(levels: map<int, Level>, pins: set<int>, claimed: set<int>, floats: map<int, Level>,
                      idle: Level): map<int, Level>
  {
    var moved := Idled(levels, pins * claimed, idle);
    map pin | pin in moved.Keys + pins * floats.Keys ::
      if pin in pins - claimed && pin in floats then floats[pin] else if pin in moved then moved[pin] else idle
  }

  // Import and configure a GPIO backend, the fallback included.
  function Configure(p: Port, pins: set<int>, idle: Level): (Port, bool) {
    var fate := if p.startFates == [] then GivesUp({}, map[]) else p.startFates[0];
    var next := p.(startFates := if p.startFates == [] then [] else p.startFates[1..]);
    match fate
    case Up => (next.(levels := Idled(p.levels, pins, idle)), true)
    case GivesUp(claimed, floats) => (next.(levels := LeftBehind(p.levels, pins, claimed, floats, idle)), false)
  }

  ghost predicate FaithfulReads(p: Port) {
    forall i :: 0 <= i < |p.readFates| ==> p.readFates[i] == Faithful
  }

  ghost predicate Working(p: Port) {
    && FaithfulReads(p)
    && forall i :: 0 <= i < |p.writeFates| ==> p.writeFates[i] == Lands
  }
}
