// QR token reservation: in-flight keys, a cooldown and a cache with a time-to-live.
module QrScanner {
  import opened Common

  datatype Config = Config(suppression: bool, duplicateCache: real, cooldown: real, defaultUnlock: int)

  datatype Tokens = Tokens(processing: set<string>, cache: map<string, real>, cooldownUntil: real)

  const NO_TOKENS := Tokens({}, map[], 0.0)

  function Unexpired(cache: map<string, real>, now: real): map<string, real> {
    map key | key in cache && now < cache[key] :: cache[key]
  }

  // Expired cache entries go first, whatever the outcome.
  function Reserved(cfg: Config, s: Tokens, key: string, now: real): (Tokens, bool) {
    var t := s.(cache := Unexpired(s.cache, now));
    if key in t.processing || (cfg.suppression && (now < t.cooldownUntil || key in t.cache)) then (t, false)
    else if cfg.suppression then
      (Tokens(t.processing + {key}, t.cache[key := now + cfg.duplicateCache], now + cfg.cooldown), true)
    else (t.(processing := t.processing + {key}), true)
  }

  function Released(s: Tokens, key: string): Tokens { s.(processing := s.processing - {key}) }

  // ---- the backend's answer ----

  // Text carries the integer int() reads from it, if it reads one.
  datatype Json = Null | Bool(b: bool) | Whole(n: int) | Number(r: real) | Text(whole: Option<int>)
    | List | Object(fields: map<string, Json>)

  function Field(j: Json, name: string): Option<Json> {
    if j.Object? && name in j.fields then Some(j.fields[name]) else None
  }

  // Anything but an explicit yes keeps the locker closed; an answer that is not an
  // object raises and is handled as a refusal.
  predicate ShouldOpen(response: Json) {
    var data := Field(response, "data");
    Field(response, "success") == Some(Bool(true)) && data.Some?
        && Field(data.value, "can_open_locker") == Some(Bool(true))
  }

  function UnlockSeconds(response: Json, default: int): int {
    var data := Field(response, "data");
    var asked := if data.Some? then Field(data.value, "unlock_duration_seconds") else None;
    var seconds := if asked.None? then default else
      match asked.value
      case Whole(n) => n
      case Bool(b) => if b then 1 else 0
      case Number(r) => Truncated(r)
      case Text(whole) => if whole.Some? then whole.value else default
      case _ => default;
    if seconds < 1 then 1 else seconds
  }

  class TokenDesk {
    const cfg: Config
    var processing: set<string>
    var cache: map<string, real>
    var cooldownUntil: real

    ghost function View(): Tokens
      reads this
    {
      Tokens(processing, cache, cooldownUntil)
    }

    constructor (cfg: Config)
      ensures this.cfg == cfg && View() == NO_TOKENS
    {
      this.cfg := cfg;
      processing, cache, cooldownUntil := {}, map[], 0.0;
    }

    method ReserveToken(key: string, now: real) returns (ok: bool)
      modifies this
      ensures (View(), ok) == Reserved(cfg, old(View()), key, now)
    {
      cache := map k | k in cache && now < cache[k] :: cache[k];
      if key in processing { return false; }
      if cfg.suppression {
        if now < cooldownUntil { return false; }
        if key in cache { return false; }
      }
      processing := processing + {key};
      if cfg.suppression {
        cache := cache[key := now + cfg.duplicateCache];
        cooldownUntil := now + cfg.cooldown;
      }
      return true;
    }

    method FinishScan(key: string)
      modifies this`processing
      ensures View() == Released(old(View()), key)
    {
      processing := processing - {key};
    }
  }
}
