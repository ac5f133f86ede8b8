// WiFi reconnect candidates: the scan's strongest reading per saved network, filtered
// and ranked; the scanner's own de-duplication; the switch decision.
module WifiCandidates {
  import opened Common
  import opened StableSort

  // A reading is absent, an integer, or a float.
  datatype Rssi = Missing | Whole(n: int) | Fraction(r: real)

  datatype Scanned = Scanned(ssid: string, rssi: Rssi)

  datatype Saved = Saved(ssid: string, priority: int, lastSuccess: real, failures: int, backoffUntil: real)

  datatype Candidate = Candidate(ssid: string, rssi: int, priority: int, lastSuccess: real, failures: int)

  datatype Config = Config(minimum: int, hysteresis: int, cooldown: real)

  predicate IsSpace(c: char) {
    ('\t' <= c <= '\r') || ('\U{1c}' <= c <= ' ') || c == '\U{85}' || c == '\U{a0}' || c == '\U{1680}'
    || ('\U{2000}' <= c <= '\U{200a}') || c == '\U{2028}' || c == '\U{2029}' || c == '\U{202f}' || c == '\U{205f}'
        || c == '\U{3000}'
  }

  function Strip(s: string): string
    decreases |s|
  {
    if s == "" then ""
    else if IsSpace(s[0]) then Strip(s[1..])
    else if IsSpace(s[|s| - 1]) then Strip(s[..|s| - 1])
    else s
  }

  // What strip takes off: white space at both ends, all of it and nothing else.
  lemma {:induction false} StripMeaning(s: string) returns (i: nat, j: nat)
    ensures i <= j <= |s| && Strip(s) == s[i..j]
    ensures forall k :: 0 <= k < i || j <= k < |s| ==> IsSpace(s[k])
    ensures i < j ==> !IsSpace(s[i]) && !IsSpace(s[j - 1])
    decreases |s|
  {
    if s == "" {
      i, j := 0, 0;
    } else if IsSpace(s[0]) {
      i, j := StripMeaning(s[1..]);
      i, j := i + 1, j + 1;
      assert s[1..][i - 1..j - 1] == s[i..j];
      assert forall k :: 1 <= k < |s| ==> s[k] == s[1..][k - 1];
    } else if IsSpace(s[|s| - 1]) {
      var front := s[..|s| - 1];
      i, j := StripMeaning(front);
      assert front[i..j] == s[i..j];
      assert forall k :: 0 <= k < |front| ==> s[k] == front[k];
    } else {
      i, j := 0, |s|;
    }
  }

  // Readings from 0 to 100 are percentages.
  function NormalizeRssi(value: Rssi): int {
    match value
    case Missing => -999
    case Whole(n) => FromPercent(n)
    case Fraction(r) => FromPercent(Truncated(r))
  }

  function FromPercent(n: int): int {
    if 0 <= n <= 100 then Truncated(n as real / 2.0 - 100.0) else n
  }

  function SignalToDbm(percent: int): int {
    var p := if percent < 0 then 0 else if percent > 100 then 100 else percent;
    Truncated(p as real / 2.0 - 100.0)
  }

  lemma NormalizeMeaning(n: int)
    ensures NormalizeRssi(Whole(n)) == if 0 <= n <= 100 then (n + 1) / 2 - 100 else n
    ensures NormalizeRssi(Whole(NormalizeRssi(Whole(n)))) == NormalizeRssi(Whole(n))
    ensures SignalToDbm(n) == NormalizeRssi(Whole(if n < 0 then 0 else if n > 100 then 100 else n))
    ensures NormalizeRssi(Whole(SignalToDbm(n))) == SignalToDbm(n)
    ensures -100 <= SignalToDbm(n) <= -50
  {
    PercentMeaning(if n < 0 then 0 else if n > 100 then 100 else n);
  }

  // A missing reading is far below any signal; a float counts as the integer towards zero.
  lemma OtherReadings(r: real, n: int)
    requires if r < 0.0 then n as real - 1.0 < r <= n as real else n as real <= r < n as real + 1.0
    ensures NormalizeRssi(Missing) == -999
    ensures NormalizeRssi(Fraction(r)) == NormalizeRssi(Whole(n))
  {}

  lemma PercentMeaning(n: int)
    requires 0 <= n <= 100
    ensures Truncated(n as real / 2.0 - 100.0) == (n + 1) / 2 - 100
  {
    var h := (200 - n) / 2;
    assert (200 - n) as real / 2.0 == -(n as real / 2.0 - 100.0);
    assert h as real <= (200 - n) as real / 2.0 < h as real + 1.0;
  }

  // The dictionary of saved networks keeps each SSID's last record.
  function LastSaved(saved: seq<Saved>, ssid: string): (r: Option<Saved>)
    ensures r.None? <==> forall i :: 0 <= i < |saved| ==> saved[i].ssid != ssid
    ensures r.Some? ==> exists k :: 0 <= k < |saved| && saved[k] == r.value && r.value.ssid == ssid
                                 && forall i :: k < i < |saved| ==> saved[i].ssid != ssid
    decreases |saved|
  {
    if saved == [] then None
    else if saved[|saved| - 1].ssid == ssid then Some(saved[|saved| - 1])
    else LastSaved(saved[..|saved| - 1], ssid)
  }

  // ---- the candidate list, declaratively ----

  predicate Hit(cfg: Config, n: Scanned, ssid: string) {
    Strip(n.ssid) == ssid && NormalizeRssi(n.rssi) >= cfg.minimum
  }

  ghost predicate Strongest(scan: seq<Scanned>, ssid: string, rssi: int) {
    && (exists i :: 0 <= i < |scan| && Strip(scan[i].ssid) == ssid && NormalizeRssi(scan[i].rssi) == rssi)
    && (forall i :: 0 <= i < |scan| && Strip(scan[i].ssid) == ssid ==> NormalizeRssi(scan[i].rssi) <= rssi)
  }

  ghost predicate Qualifies(cfg: Config, scan: seq<Scanned>, saved: seq<Saved>, now: real, c: Candidate) {
    && c.ssid != "" && LastSaved(saved, c.ssid).Some?
    && var record := LastSaved(saved, c.ssid).value;
    && !(record.backoffUntil != 0.0 && record.backoffUntil > now)
    && Strongest(scan, c.ssid, c.rssi) && c.rssi >= cfg.minimum
    && c.priority == record.priority && c.lastSuccess == record.lastSuccess && c.failures == record.failures
  }

  // score = (rssi, priority, last success, -failures), compared left to right.
  predicate Outscores(a: Candidate, b: Candidate) {
    if a.rssi != b.rssi then a.rssi > b.rssi
    else if a.priority != b.priority then a.priority > b.priority
    else if a.lastSuccess != b.lastSuccess then a.lastSuccess > b.lastSuccess
    else a.failures < b.failures
  }

  // Where in the scan an SSID first qualifies: the order of equal scores.
  function FirstHit(cfg: Config, scan: seq<Scanned>, ssid: string): (k: nat)
    ensures k <= |scan|
    ensures k < |scan| ==> Hit(cfg, scan[k], ssid)
    ensures forall i :: 0 <= i < k ==> !Hit(cfg, scan[i], ssid)
    decreases |scan|
  {
    if scan == [] then 0
    else
      var k := FirstHit(cfg, scan[..|scan| - 1], ssid);
      if k < |scan| - 1 then k else if Hit(cfg, scan[|scan| - 1], ssid) then |scan| - 1 else |scan|
  }

  // Stronger signal first, then higher priority, then later success, then fewer failures,
  // then the earlier place in the scan.
  predicate Ahead(a: Candidate, b: Candidate, aPlace: nat, bPlace: nat) {
    || a.rssi > b.rssi
    || (a.rssi == b.rssi && a.priority > b.priority)
    || (a.rssi == b.rssi && a.priority == b.priority && a.lastSuccess > b.lastSuccess)
    || (a.rssi == b.rssi && a.priority == b.priority && a.lastSuccess == b.lastSuccess
        && (a.failures < b.failures || (a.failures == b.failures && aPlace < bPlace)))
  }

  ghost predicate Ranked(cfg: Config, scan: seq<Scanned>, r: seq<Candidate>) {
    forall i, j :: 0 <= i < j < |r| ==>
      Ahead(r[i], r[j], FirstHit(cfg, scan, r[i].ssid), FirstHit(cfg, scan, r[j].ssid))
  }

  ghost predicate CandidateList(cfg: Config, scan: seq<Scanned>, saved: seq<Saved>, now: real, r: seq<Candidate>) {
    && (forall c :: c in r <==> Qualifies(cfg, scan, saved, now, c))
    && (forall i, j :: 0 <= i < j < |r| ==> r[i].ssid != r[j].ssid)
    && Ranked(cfg, scan, r)
  }

  lemma OutscoresIsWeakOrder()
    ensures WeakOrder((a: Candidate, b: Candidate) => Outscores(a, b))
  {}

  // ---- building it ----

  predicate Wanted(saved: seq<Saved>, ssid: string) { ssid != "" && LastSaved(saved, ssid).Some? }

  // The strongest qualifying reading per SSID after a prefix of the scan, with the
  // dictionary's insertion order.
  ghost predicate KeysKnown(cfg: Config, scan: seq<Scanned>, saved: seq<Saved>, best: map<string, Scanned>,
                            order: seq<string>, n: nat)
  {
    && (forall ssid :: ssid in order <==> ssid in best)
    && (forall ssid :: ssid in best <==> Wanted(saved, ssid) && FirstHit(cfg, scan, ssid) < n)
  }

  ghost predicate KeysOrdered(cfg: Config, scan: seq<Scanned>, order: seq<string>) {
    forall i, j :: 0 <= i < j < |order| ==> FirstHit(cfg, scan, order[i]) < FirstHit(cfg, scan, order[j])
  }

  ghost predicate Keys(cfg: Config, scan: seq<Scanned>, saved: seq<Saved>, best: map<string, Scanned>,
                       order: seq<string>, n: nat)
  {
    KeysKnown(cfg, scan, saved, best, order, n) && KeysOrdered(cfg, scan, order)
  }

  ghost predicate Top(cfg: Config, scan: seq<Scanned>, ssid: string, pick: Scanned, n: nat)
    requires n <= |scan|
  {
    && pick in scan[..n] && Hit(cfg, pick, ssid)
    && forall i :: 0 <= i < n && Hit(cfg, scan[i], ssid) ==> NormalizeRssi(scan[i].rssi) <= NormalizeRssi(pick.rssi)
  }

  ghost predicate BestSoFar(cfg: Config, scan: seq<Scanned>, saved: seq<Saved>, best: map<string, Scanned>,
                            order: seq<string>, n: nat)
    requires n <= |scan|
  {
    && Keys(cfg, scan, saved, best, order, n)
    && forall ssid :: ssid in best ==> Top(cfg, scan, ssid, best[ssid], n)
  }

  lemma TopCarries(cfg: Config, scan: seq<Scanned>, ssid: string, pick: Scanned, n: nat)
    requires n < |scan| && Top(cfg, scan, ssid, pick, n)
    requires Hit(cfg, scan[n], ssid) ==> NormalizeRssi(scan[n].rssi) <= NormalizeRssi(pick.rssi)
    ensures Top(cfg, scan, ssid, pick, n + 1)
  {
    assert scan[..n + 1] == scan[..n] + [scan[n]];
  }

  lemma TopReplaced(cfg: Config, scan: seq<Scanned>, ssid: string, n: nat)
    requires n < |scan| && Hit(cfg, scan[n], ssid)
    requires forall i :: 0 <= i < n && Hit(cfg, scan[i], ssid)
              ==> NormalizeRssi(scan[i].rssi) <= NormalizeRssi(scan[n].rssi)
    ensures Top(cfg, scan, ssid, scan[n], n + 1)
  {
    assert scan[..n + 1][n] == scan[n];
  }

  // One scan entry the loop passes over.
  lemma BestSkips(cfg: Config, scan: seq<Scanned>, saved: seq<Saved>, best: map<string, Scanned>, order: seq<string>,
                  n: nat)
    requires n < |scan| && BestSoFar(cfg, scan, saved, best, order, n)
    requires var ssid := Strip(scan[n].ssid);
             !Wanted(saved, ssid) || !Hit(cfg, scan[n], ssid)
             || (ssid in best && NormalizeRssi(scan[n].rssi) <= NormalizeRssi(best[ssid].rssi))
    ensures BestSoFar(cfg, scan, saved, best, order, n + 1)
  {
    hide Top;
    forall ssid | ssid in best ensures Top(cfg, scan, ssid, best[ssid], n + 1) {
      TopCarries(cfg, scan, ssid, best[ssid], n);
    }
    forall ssid ensures !(Wanted(saved, ssid) && FirstHit(cfg, scan, ssid) == n) {
      assert FirstHit(cfg, scan, ssid) == n ==> Hit(cfg, scan[n], ssid);
    }
  }

  // One scan entry that becomes the pick for its SSID.
  lemma BestTakes(cfg: Config, scan: seq<Scanned>, saved: seq<Saved>, best: map<string, Scanned>, order: seq<string>,
                  n: nat)
    requires n < |scan| && BestSoFar(cfg, scan, saved, best, order, n)
    requires var ssid := Strip(scan[n].ssid);
             Wanted(saved, ssid) && Hit(cfg, scan[n], ssid)
             && (ssid in best ==> NormalizeRssi(scan[n].rssi) > NormalizeRssi(best[ssid].rssi))
    ensures var ssid := Strip(scan[n].ssid);
            BestSoFar(cfg, scan, saved, best[ssid := scan[n]], if ssid in best then order else order + [ssid], n + 1)
  {
    var key := Strip(scan[n].ssid);
    var next := best[key := scan[n]];
    if key in best {
      assert Top(cfg, scan, key, best[key], n);
    } else {
      assert FirstHit(cfg, scan, key) == n;
    }
    TopReplaced(cfg, scan, key, n);
    forall ssid | ssid in next ensures Top(cfg, scan, ssid, next[ssid], n + 1) {
      if ssid != key { TopCarries(cfg, scan, ssid, best[ssid], n); }
    }
    KeysTake(cfg, scan, saved, best, order, n);
  }

  // Only the scanned SSID itself can have its first hit at this very place.
  lemma FirstHitHere(cfg: Config, scan: seq<Scanned>, n: nat)
    requires n < |scan|
    ensures forall ssid :: FirstHit(cfg, scan, ssid) == n ==> Hit(cfg, scan[n], ssid) && ssid == Strip(scan[n].ssid)
    ensures Hit(cfg, scan[n], Strip(scan[n].ssid)) ==> FirstHit(cfg, scan, Strip(scan[n].ssid)) <= n
  {
    forall ssid ensures FirstHit(cfg, scan, ssid) == n ==> Hit(cfg, scan[n], ssid) && ssid == Strip(scan[n].ssid) {}
  }

  // So the SSIDs hit by then are those hit before, and this one.
  lemma FirstHitNext(cfg: Config, scan: seq<Scanned>, n: nat, ssid: string)
    requires n < |scan| && Hit(cfg, scan[n], Strip(scan[n].ssid))
    ensures FirstHit(cfg, scan, ssid) < n + 1 <==> FirstHit(cfg, scan, ssid) < n || ssid == Strip(scan[n].ssid)
  {
    FirstHitHere(cfg, scan, n);
  }

  lemma KnownTakes(cfg: Config, scan: seq<Scanned>, saved: seq<Saved>, best: map<string, Scanned>,
                   order: seq<string>, n: nat)
    requires n < |scan| && KeysKnown(cfg, scan, saved, best, order, n)
    requires Wanted(saved, Strip(scan[n].ssid)) && Hit(cfg, scan[n], Strip(scan[n].ssid))
    ensures var ssid := Strip(scan[n].ssid);
            KeysKnown(cfg, scan, saved, best[ssid := scan[n]], if ssid in best then order else order + [ssid], n + 1)
  {
    hide FirstHit, Wanted, Strip;
    var key := Strip(scan[n].ssid);
    var next := best[key := scan[n]];
    forall ssid ensures ssid in next <==> Wanted(saved, ssid) && FirstHit(cfg, scan, ssid) < n + 1 {
      FirstHitNext(cfg, scan, n, ssid);
    }
  }

  lemma OrderTakes(cfg: Config, scan: seq<Scanned>, order: seq<string>, key: string)
    requires KeysOrdered(cfg, scan, order)
    requires forall ssid :: ssid in order ==> FirstHit(cfg, scan, ssid) < FirstHit(cfg, scan, key)
    ensures KeysOrdered(cfg, scan, order + [key])
  {
    hide FirstHit;
    forall i | 0 <= i < |order| ensures FirstHit(cfg, scan, order[i]) < FirstHit(cfg, scan, key) {
      assert order[i] in order;
    }
  }

  lemma KeysTake(cfg: Config, scan: seq<Scanned>, saved: seq<Saved>, best: map<string, Scanned>, order: seq<string>,
                 n: nat)
    requires n < |scan| && Keys(cfg, scan, saved, best, order, n)
    requires Wanted(saved, Strip(scan[n].ssid)) && Hit(cfg, scan[n], Strip(scan[n].ssid))
    ensures var ssid := Strip(scan[n].ssid);
            Keys(cfg, scan, saved, best[ssid := scan[n]], if ssid in best then order else order + [ssid], n + 1)
  {
    hide FirstHit, Hit, Wanted, Strip, KeysOrdered;
    var key := Strip(scan[n].ssid);
    KnownTakes(cfg, scan, saved, best, order, n);
    if key !in best {
      assert !(FirstHit(cfg, scan, key) < n);
      OrderTakes(cfg, scan, order, key);
    }
  }

  // A pick over the whole scan is the one candidate its SSID can have.
  lemma PickQualifies(cfg: Config, scan: seq<Scanned>, saved: seq<Saved>, now: real, ssid: string, pick: Scanned,
                      c: Candidate)
    requires Wanted(saved, ssid) && Top(cfg, scan, ssid, pick, |scan|) && c.ssid == ssid
    ensures var record := LastSaved(saved, ssid).value;
            Qualifies(cfg, scan, saved, now, c) <==>
            && !(record.backoffUntil != 0.0 && record.backoffUntil > now)
            && c == Candidate(ssid, NormalizeRssi(pick.rssi), record.priority, record.lastSuccess, record.failures)
  {
    assert scan[..|scan|] == scan;
    var k :| 0 <= k < |scan| && scan[k] == pick;
    assert Strongest(scan, ssid, NormalizeRssi(pick.rssi));
  }

  lemma QualifiedIsHit(cfg: Config, scan: seq<Scanned>, saved: seq<Saved>, now: real, c: Candidate)
    requires Qualifies(cfg, scan, saved, now, c)
    ensures Wanted(saved, c.ssid) && FirstHit(cfg, scan, c.ssid) < |scan|
  {
    var i :| 0 <= i < |scan| && Strip(scan[i].ssid) == c.ssid && NormalizeRssi(scan[i].rssi) == c.rssi;
    assert Hit(cfg, scan[i], c.ssid);
  }

  ghost predicate Collected(cfg: Config, scan: seq<Scanned>, saved: seq<Saved>, now: real, keys: seq<string>,
                            cs: seq<Candidate>)
  {
    && (forall c :: c in cs <==> Qualifies(cfg, scan, saved, now, c) && c.ssid in keys)
    && (forall i, j :: 0 <= i < j < |cs| ==> FirstHit(cfg, scan, cs[i].ssid) < FirstHit(cfg, scan, cs[j].ssid))
  }

  lemma CollectedSkips(cfg: Config, scan: seq<Scanned>, saved: seq<Saved>, now: real, order: seq<string>, k: nat,
                       cs: seq<Candidate>)
    requires k < |order| && Collected(cfg, scan, saved, now, order[..k], cs)
    requires forall c: Candidate :: c.ssid == order[k] ==> !Qualifies(cfg, scan, saved, now, c)
    ensures Collected(cfg, scan, saved, now, order[..k + 1], cs)
  {
    hide Qualifies;
    assert order[..k + 1] == order[..k] + [order[k]];
  }

  lemma CollectedTakes(cfg: Config, scan: seq<Scanned>, saved: seq<Saved>, now: real, order: seq<string>, k: nat,
                       cs: seq<Candidate>, pick: Candidate)
    requires k < |order| && Collected(cfg, scan, saved, now, order[..k], cs)
    requires forall c: Candidate :: c.ssid == order[k] ==> (Qualifies(cfg, scan, saved, now, c) <==> c == pick)
    requires pick.ssid == order[k]
    requires forall i :: 0 <= i < k ==> FirstHit(cfg, scan, order[i]) < FirstHit(cfg, scan, order[k])
    ensures Collected(cfg, scan, saved, now, order[..k + 1], cs + [pick])
  {
    hide Qualifies;
    assert order[..k + 1] == order[..k] + [order[k]];
    var more := cs + [pick];
    forall i, j | 0 <= i < j < |more| ensures FirstHit(cfg, scan, more[i].ssid) < FirstHit(cfg, scan, more[j].ssid) {
      assert more[i] == cs[i] && cs[i] in cs;
      if j == |cs| {
        var m :| 0 <= m < k && order[m] == cs[i].ssid;
      }
    }
  }

  lemma SortRanks(cfg: Config, scan: seq<Scanned>, cs: seq<Candidate>)
    requires forall i, j :: 0 <= i < j < |cs| ==> FirstHit(cfg, scan, cs[i].ssid) < FirstHit(cfg, scan, cs[j].ssid)
    ensures Ranked(cfg, scan, Sort((a: Candidate, b: Candidate) => Outscores(a, b), cs))
  {
    hide Outscores, FirstHit;
    var before := (a: Candidate, b: Candidate) => Outscores(a, b);
    var rank := (c: Candidate) => FirstHit(cfg, scan, c.ssid) as int;
    OutscoresIsWeakOrder();
    assert forall i, j :: 0 <= i < j < |cs| ==> rank(cs[i]) < rank(cs[j]);
    SortArranges(before, rank, cs);
    var r := Sort(before, cs);
    forall i, j | 0 <= i < j < |r|
      ensures Ahead(r[i], r[j], FirstHit(cfg, scan, r[i].ssid), FirstHit(cfg, scan, r[j].ssid))
    {
      assert !before(r[j], r[i]) && (before(r[i], r[j]) || rank(r[i]) < rank(r[j]));
      OutscoresIsAhead(r[i], r[j], FirstHit(cfg, scan, r[i].ssid), FirstHit(cfg, scan, r[j].ssid));
    }
  }

  lemma OutscoresIsAhead(a: Candidate, b: Candidate, aPlace: nat, bPlace: nat)
    requires !Outscores(b, a) && (Outscores(a, b) || aPlace < bPlace)
    ensures Ahead(a, b, aPlace, bPlace)
  {}

  lemma SortedIsCandidateList(cfg: Config, scan: seq<Scanned>, saved: seq<Saved>, now: real, keys: seq<string>,
                              cs: seq<Candidate>)
    requires Collected(cfg, scan, saved, now, keys, cs)
    requires forall c :: Qualifies(cfg, scan, saved, now, c) ==> c.ssid in keys
    ensures CandidateList(cfg, scan, saved, now, Sort((a: Candidate, b: Candidate) => Outscores(a, b), cs))
  {
    hide Qualifies, Outscores, FirstHit, Ranked, Sort;
    var r := Sort((a: Candidate, b: Candidate) => Outscores(a, b), cs);
    SortRanks(cfg, scan, cs);
    forall c ensures c in r <==> c in cs {
      assert c in multiset(r) <==> c in multiset(cs);
    }
    RankedHasNoTwins(cfg, scan, saved, now, r);
  }

  lemma RankedHasNoTwins(cfg: Config, scan: seq<Scanned>, saved: seq<Saved>, now: real, r: seq<Candidate>)
    requires Ranked(cfg, scan, r)
    requires forall i :: 0 <= i < |r| ==> Qualifies(cfg, scan, saved, now, r[i])
    ensures forall i, j :: 0 <= i < j < |r| ==> r[i].ssid != r[j].ssid
  {
    hide Qualifies, FirstHit;
    forall i, j | 0 <= i < j < |r| ensures r[i].ssid != r[j].ssid {
      if r[i].ssid == r[j].ssid {
        OneCandidatePerSsid(cfg, scan, saved, now, r[i], r[j]);
      }
    }
  }

  lemma OneCandidatePerSsid(cfg: Config, scan: seq<Scanned>, saved: seq<Saved>, now: real, c: Candidate, d: Candidate)
    requires Qualifies(cfg, scan, saved, now, c) && Qualifies(cfg, scan, saved, now, d) && c.ssid == d.ssid
    ensures c == d
  {}

  // The list starts with the strongest signal any candidate has.
  lemma FirstIsStrongest(cfg: Config, scan: seq<Scanned>, saved: seq<Saved>, now: real, r: seq<Candidate>)
    requires CandidateList(cfg, scan, saved, now, r)
    ensures forall c :: Qualifies(cfg, scan, saved, now, c) ==> r != [] && c.rssi <= r[0].rssi
  {
    hide Qualifies, FirstHit;
    forall c | Qualifies(cfg, scan, saved, now, c) ensures r != [] && c.rssi <= r[0].rssi {
      assert c in r;
      var i :| 0 <= i < |r| && r[i] == c;
    }
  }

  // One candidate for each saved SSID in range and out of backoff, strongest reading,
  // best score first and equal scores in scan order.
  method BuildCandidates(cfg: Config, scan: seq<Scanned>, saved: seq<Saved>, now: real) returns (r: seq<Candidate>)
    ensures CandidateList(cfg, scan, saved, now, r)
  {
    hide BestSoFar, Qualifies, Collected, Keys, Top, CandidateList;
    var best: map<string, Scanned> := map[];
    var order: seq<string> := [];
    BestInitially(cfg, scan, saved);
    for i := 0 to |scan|
      invariant BestSoFar(cfg, scan, saved, best, order, i)
    {
      var ssid := Strip(scan[i].ssid);
      var rssi := NormalizeRssi(scan[i].rssi);
      if ssid == "" || LastSaved(saved, ssid).None? || rssi < cfg.minimum {
        BestSkips(cfg, scan, saved, best, order, i);
      } else if ssid !in best {
        BestTakes(cfg, scan, saved, best, order, i);
        order := order + [ssid];
        best := best[ssid := scan[i]];
      } else if rssi > NormalizeRssi(best[ssid].rssi) {
        BestTakes(cfg, scan, saved, best, order, i);
        best := best[ssid := scan[i]];
      } else {
        BestSkips(cfg, scan, saved, best, order, i);
      }
    }

    var candidates: seq<Candidate> := [];
    CollectedInitially(cfg, scan, saved, now, order);
    for k := 0 to |order|
      invariant Collected(cfg, scan, saved, now, order[..k], candidates)
    {
      var ssid := order[k];
      BestAt(cfg, scan, saved, best, order, k);
      var record := LastSaved(saved, ssid).value;
      var c := Candidate(ssid, NormalizeRssi(best[ssid].rssi), record.priority, record.lastSuccess, record.failures);
      forall d: Candidate | d.ssid == ssid
        ensures Qualifies(cfg, scan, saved, now, d)
           <==> !(record.backoffUntil != 0.0 && record.backoffUntil > now) && d == c
      {
        PickQualifies(cfg, scan, saved, now, ssid, best[ssid], d);
      }
      if record.backoffUntil != 0.0 && record.backoffUntil > now {
        CollectedSkips(cfg, scan, saved, now, order, k, candidates);
      } else {
        CollectedTakes(cfg, scan, saved, now, order, k, candidates, c);
        candidates := candidates + [c];
      }
    }
    forall c | Qualifies(cfg, scan, saved, now, c) ensures c.ssid in order[..|order|] {
      QualifiedIsHit(cfg, scan, saved, now, c);
      BestHas(cfg, scan, saved, best, order, c.ssid);
    }
    SortedIsCandidateList(cfg, scan, saved, now, order[..|order|], candidates);
    r := Sort((a: Candidate, b: Candidate) => Outscores(a, b), candidates);
  }

  lemma BestInitially(cfg: Config, scan: seq<Scanned>, saved: seq<Saved>)
    ensures BestSoFar(cfg, scan, saved, map[], [], 0)
  {}

  lemma CollectedInitially(cfg: Config, scan: seq<Scanned>, saved: seq<Saved>, now: real, order: seq<string>)
    ensures Collected(cfg, scan, saved, now, order[..0], [])
  {}

  lemma BestAt(cfg: Config, scan: seq<Scanned>, saved: seq<Saved>, best: map<string, Scanned>, order: seq<string>,
               k: nat)
    requires k < |order| && BestSoFar(cfg, scan, saved, best, order, |scan|)
    ensures order[k] in best && Wanted(saved, order[k]) && Top(cfg, scan, order[k], best[order[k]], |scan|)
    ensures forall i :: 0 <= i < k ==> FirstHit(cfg, scan, order[i]) < FirstHit(cfg, scan, order[k])
  {
    assert order[k] in order;
  }

  lemma BestHas(cfg: Config, scan: seq<Scanned>, saved: seq<Saved>, best: map<string, Scanned>, order: seq<string>,
                ssid: string)
    requires BestSoFar(cfg, scan, saved, best, order, |scan|) && Wanted(saved, ssid)
              && FirstHit(cfg, scan, ssid) < |scan|
    ensures ssid in order[..|order|]
  {
    assert order[..|order|] == order;
  }
}
