// The scanner's de-duplication in front of the candidate list, and the switch decision
// behind it.
module WifiFilter {
  import opened Common
  import opened StableSort
  import opened WifiCandidates

  datatype Network = Network(ssid: string, rssi: int, security: string)

  // Python orders strings by code point.
  predicate TextLess(a: string, b: string)
    decreases |a|
  {
    if b == "" then false
    else if a == "" then true
    else a[0] < b[0] || (a[0] == b[0] && TextLess(a[1..], b[1..]))
  }

  lemma {:induction false} TextOrder(a: string, b: string, c: string)
    ensures TextLess(a, b) ==> !TextLess(b, a)
    ensures TextLess(a, c) ==> TextLess(a, b) || TextLess(b, c)
    decreases |a|
  {
    if a != "" && b != "" && c != "" { TextOrder(a[1..], b[1..], c[1..]); }
    else if a != "" && b != "" { TextOrder(a[1..], b[1..], ""); }
  }

  // A proper prefix, or the smaller character where they first differ.
  lemma {:induction false} TextLessMeaning(a: string, b: string)
    ensures TextLess(a, b) <==>
            exists k :: 0 <= k <= |a| && k < |b| && a[..k] == b[..k] && (k == |a| || a[k] < b[k])
    decreases |a|
  {
    if b == "" {
    } else if a == "" {
      assert a[..0] == b[..0];
    } else {
      TextLessMeaning(a[1..], b[1..]);
      if a[0] < b[0] { assert a[..0] == b[..0]; }
      if a[0] == b[0] {
        if k :| 0 <= k <= |a[1..]| && k < |b[1..]| && a[1..][..k] == b[1..][..k]
                && (k == |a[1..]| || a[1..][k] < b[1..][k]) {
          assert a[..k + 1] == [a[0]] + a[1..][..k] && b[..k + 1] == [b[0]] + b[1..][..k];
        }
      }
      if k :| 0 <= k <= |a| && k < |b| && a[..k] == b[..k] && (k == |a| || a[k] < b[k]) {
        if k > 0 {
          assert a[..k][0] == b[..k][0];
          assert a[1..][..k - 1] == a[..k][1..] && b[1..][..k - 1] == b[..k][1..];
        }
      }
    }
  }

  // Key (-rssi, ssid).
  predicate Stronger(a: Network, b: Network) {
    a.rssi > b.rssi || (a.rssi == b.rssi && TextLess(a.ssid, b.ssid))
  }

  lemma StrongerIsWeakOrder()
    ensures WeakOrder((a: Network, b: Network) => Stronger(a, b))
  {
    forall a: Network, b: Network ensures Stronger(a, b) ==> !Stronger(b, a) {
      TextOrder(a.ssid, b.ssid, "");
    }
    forall a: Network, b: Network, c: Network ensures Stronger(a, c) ==> Stronger(a, b) || Stronger(b, c) {
      TextOrder(a.ssid, b.ssid, c.ssid);
    }
  }

  // The reading kept for an SSID: the first of those with the strongest raw value.
  ghost predicate KeptAt(ns: seq<Network>, i: nat, upTo: nat)
    requires upTo <= |ns|
  {
    && i < upTo && ns[i].ssid != ""
    && (forall j :: 0 <= j < upTo && ns[j].ssid == ns[i].ssid ==> ns[j].rssi <= ns[i].rssi)
    && (forall j :: 0 <= j < i && ns[j].ssid == ns[i].ssid ==> ns[j].rssi < ns[i].rssi)
  }

  ghost predicate Kept(ns: seq<Network>, n: Network, upTo: nat)
    requires upTo <= |ns|
  {
    exists i :: 0 <= i < |ns| && KeptAt(ns, i, upTo) && ns[i] == n
  }

  // Different names, the stronger reading first, equal ones by name.
  predicate Before(a: Network, b: Network) {
    a.ssid != b.ssid && (a.rssi > b.rssi || (a.rssi == b.rssi && TextLess(a.ssid, b.ssid)))
  }

  ghost predicate Deduplicated(ns: seq<Network>, r: seq<Network>) {
    && (forall n :: n in r <==> Kept(ns, n, |ns|))
    && (forall i, j :: 0 <= i < j < |r| ==> Before(r[i], r[j]))
  }

  ghost predicate Table(ns: seq<Network>, kept: map<string, Network>, upTo: nat)
    requires upTo <= |ns|
  {
    && (forall ssid :: ssid in kept ==> kept[ssid].ssid == ssid && Kept(ns, kept[ssid], upTo))
    && (forall i :: 0 <= i < upTo && ns[i].ssid != "" ==> ns[i].ssid in kept)
  }

  lemma KeptCarries(ns: seq<Network>, n: Network, upTo: nat)
    requires upTo < |ns| && Kept(ns, n, upTo) && (ns[upTo].ssid == n.ssid ==> ns[upTo].rssi <= n.rssi)
    ensures Kept(ns, n, upTo + 1)
  {
    var i :| 0 <= i < |ns| && KeptAt(ns, i, upTo) && ns[i] == n;
    assert KeptAt(ns, i, upTo + 1);
  }

  lemma KeptReplaced(ns: seq<Network>, prev: Network, upTo: nat)
    requires upTo < |ns| && ns[upTo].ssid != "" && prev.ssid == ns[upTo].ssid
    requires Kept(ns, prev, upTo) && prev.rssi < ns[upTo].rssi
    ensures Kept(ns, ns[upTo], upTo + 1)
  {
    assert KeptAt(ns, upTo, upTo + 1);
  }

  lemma KeptFirst(ns: seq<Network>, upTo: nat)
    requires upTo < |ns| && ns[upTo].ssid != ""
    requires forall j :: 0 <= j < upTo ==> ns[j].ssid != ns[upTo].ssid
    ensures Kept(ns, ns[upTo], upTo + 1)
  {
    assert KeptAt(ns, upTo, upTo + 1);
  }

  lemma KeptIsUnique(ns: seq<Network>, n: Network, m: Network)
    requires Kept(ns, n, |ns|) && Kept(ns, m, |ns|) && n.ssid == m.ssid
    ensures n == m
  {
    var i :| 0 <= i < |ns| && KeptAt(ns, i, |ns|) && ns[i] == n;
    var k :| 0 <= k < |ns| && KeptAt(ns, k, |ns|) && ns[k] == m;
    assert ns[i].rssi == ns[k].rssi;
  }

  lemma TableTakes(ns: seq<Network>, kept: map<string, Network>, i: nat)
    requires i < |ns| && Table(ns, kept, i) && ns[i].ssid != ""
    requires ns[i].ssid in kept ==> ns[i].rssi > kept[ns[i].ssid].rssi
    ensures Table(ns, kept[ns[i].ssid := ns[i]], i + 1)
  {
    hide Kept;
    var next := kept[ns[i].ssid := ns[i]];
    if ns[i].ssid in kept {
      KeptReplaced(ns, kept[ns[i].ssid], i);
    } else {
      KeptFirst(ns, i);
    }
    forall ssid | ssid in next ensures next[ssid].ssid == ssid && Kept(ns, next[ssid], i + 1) {
      if ssid != ns[i].ssid { KeptCarries(ns, kept[ssid], i); }
    }
  }

  lemma TableSkips(ns: seq<Network>, kept: map<string, Network>, i: nat)
    requires i < |ns| && Table(ns, kept, i)
    requires ns[i].ssid == "" || (ns[i].ssid in kept && ns[i].rssi <= kept[ns[i].ssid].rssi)
    ensures Table(ns, kept, i + 1)
  {
    hide Kept;
    forall ssid | ssid in kept ensures kept[ssid].ssid == ssid && Kept(ns, kept[ssid], i + 1) {
      KeptIsNamed(ns, kept[ssid], i);
      KeptCarries(ns, kept[ssid], i);
    }
  }

  lemma KeptIsNamed(ns: seq<Network>, n: Network, upTo: nat)
    requires upTo <= |ns| && Kept(ns, n, upTo)
    ensures n.ssid != "" && n in ns
  {}

  function IndexOf(order: seq<string>, ssid: string): int
    decreases |order|
  {
    if order == [] then 0 else if order[|order| - 1] == ssid then |order| - 1 else IndexOf(order[..|order| - 1], ssid)
  }

  lemma {:induction false} IndexOfAt(order: seq<string>, k: nat)
    requires k < |order| && forall a, b :: 0 <= a < b < |order| ==> order[a] != order[b]
    ensures IndexOf(order, order[k]) == k
    decreases |order|
  {
    if k < |order| - 1 { IndexOfAt(order[..|order| - 1], k); }
  }

  lemma {:induction false} TextTotal(a: string, b: string)
    requires a != b
    ensures TextLess(a, b) || TextLess(b, a)
    decreases |a|
  {
    if a != "" && b != "" && a[0] == b[0] {
      assert a == [a[0]] + a[1..] && b == [b[0]] + b[1..];
      TextTotal(a[1..], b[1..]);
    }
  }

  // The values of the table, in insertion order.
  ghost predicate Values(kept: map<string, Network>, order: seq<string>, values: seq<Network>) {
    && (forall ssid :: ssid in order <==> ssid in kept)
    && (forall a, b :: 0 <= a < b < |order| ==> order[a] != order[b])
    && |values| == |order| && forall k :: 0 <= k < |order| ==> order[k] in kept && values[k] == kept[order[k]]
  }

  lemma ValuesAreRanked(kept: map<string, Network>, order: seq<string>, values: seq<Network>)
    requires Values(kept, order, values)
    requires forall ssid :: ssid in kept ==> kept[ssid].ssid == ssid
    ensures forall k :: 0 <= k < |values| ==> IndexOf(order, values[k].ssid) == k
    ensures forall n :: n in values ==> n.ssid in kept && n == kept[n.ssid]
  {
    forall k | 0 <= k < |values| ensures IndexOf(order, values[k].ssid) == k {
      assert order[k] in kept;
      IndexOfAt(order, k);
    }
    forall n | n in values ensures n.ssid in kept && n == kept[n.ssid] {
      var k :| 0 <= k < |values| && values[k] == n;
      assert order[k] in kept;
    }
  }

  // Readings of different names never tie, and a name is kept once.
  lemma PairIsStrict(kept: map<string, Network>, order: seq<string>, a: Network, b: Network)
    requires a.ssid in kept && a == kept[a.ssid] && b.ssid in kept && b == kept[b.ssid]
    requires !Stronger(b, a) && (Stronger(a, b) || IndexOf(order, a.ssid) < IndexOf(order, b.ssid))
    ensures Before(a, b)
  {
    hide TextLess, IndexOf;
    if a.ssid != b.ssid { TextTotal(a.ssid, b.ssid); }
  }

  lemma SortedIsStrict(ns: seq<Network>, kept: map<string, Network>, order: seq<string>, values: seq<Network>)
    requires Table(ns, kept, |ns|) && Values(kept, order, values)
    ensures var r := Sort((a: Network, b: Network) => Stronger(a, b), values);
            forall i, j :: 0 <= i < j < |r| ==> Before(r[i], r[j])
  {
    hide Kept, Stronger, IndexOf, Values, Sort;
    var before := (a: Network, b: Network) => Stronger(a, b);
    var rank := (n: Network) => IndexOf(order, n.ssid);
    StrongerIsWeakOrder();
    ValuesAreRanked(kept, order, values);
    assert forall i, j :: 0 <= i < j < |values| ==> rank(values[i]) < rank(values[j]);
    SortArranges(before, rank, values);
    var r := Sort(before, values);
    forall i, j | 0 <= i < j < |r| ensures Before(r[i], r[j]) {
      assert !before(r[j], r[i]) && (before(r[i], r[j]) || rank(r[i]) < rank(r[j]));
      assert r[i] in multiset(r) && r[j] in multiset(r);
      assert r[i] in values && r[j] in values by { InMultiset(r, values, i); InMultiset(r, values, j); }
      PairIsStrict(kept, order, r[i], r[j]);
    }
  }

  lemma InMultiset(r: seq<Network>, values: seq<Network>, i: nat)
    requires i < |r| && multiset(r) == multiset(values)
    ensures r[i] in values
  {
    assert r[i] in multiset(r);
  }

  lemma SortedIsDeduplicated(ns: seq<Network>, kept: map<string, Network>, order: seq<string>, values: seq<Network>)
    requires Table(ns, kept, |ns|) && Values(kept, order, values)
    ensures Deduplicated(ns, Sort((a: Network, b: Network) => Stronger(a, b), values))
  {
    hide Sort, Stronger;
    var r := Sort((a: Network, b: Network) => Stronger(a, b), values);
    SortedIsStrict(ns, kept, order, values);
    forall n ensures n in r <==> Kept(ns, n, |ns|) {
      assert n in multiset(r) <==> n in multiset(values);
      if n in values {
        var k :| 0 <= k < |values| && values[k] == n;
        assert order[k] in kept;
      }
      if Kept(ns, n, |ns|) {
        var i :| 0 <= i < |ns| && KeptAt(ns, i, |ns|) && ns[i] == n;
        assert ns[i].ssid in kept && ns[i].ssid in order;
        KeptIsUnique(ns, n, kept[n.ssid]);
        var k :| 0 <= k < |order| && order[k] == n.ssid;
        assert values[k] == n;
      }
    }
  }

  method Deduplicate(ns: seq<Network>) returns (r: seq<Network>)
    ensures Deduplicated(ns, r)
  {
    hide Table, Deduplicated;
    var kept: map<string, Network> := map[];
    var order: seq<string> := [];
    TableInitially(ns);
    for i := 0 to |ns|
      invariant Table(ns, kept, i)
      invariant forall ssid :: ssid in order <==> ssid in kept
      invariant forall a, b :: 0 <= a < b < |order| ==> order[a] != order[b]
    {
      var n := ns[i];
      if n.ssid != "" && (n.ssid !in kept || n.rssi > kept[n.ssid].rssi) {
        TableTakes(ns, kept, i);
        if n.ssid !in kept { order := order + [n.ssid]; }
        kept := kept[n.ssid := n];
      } else {
        TableSkips(ns, kept, i);
      }
    }
    assert forall k :: 0 <= k < |order| ==> order[k] in order;
    var values := seq(|order|, k requires 0 <= k < |order| && order[k] in kept => kept[order[k]]);
    SortedIsDeduplicated(ns, kept, order, values);
    r := Sort((a: Network, b: Network) => Stronger(a, b), values);
  }

  lemma TableInitially(ns: seq<Network>)
    ensures Table(ns, map[], 0)
  {}

  // ---- pre-filtering is harmless ----

  function AsScan(ns: seq<Network>): (scan: seq<Scanned>)
    ensures |scan| == |ns|
    ensures forall i :: 0 <= i < |ns| ==> scan[i] == Scanned(ns[i].ssid, Whole(ns[i].rssi))
  {
    seq(|ns|, i requires 0 <= i < |ns| => Scanned(ns[i].ssid, Whole(ns[i].rssi)))
  }

  function Dbm(n: Network): int { NormalizeRssi(Whole(n.rssi)) }

  // For each SSID, the reading that looks strongest raw is strongest once normalised.
  ghost predicate StrongestAgrees(ns: seq<Network>) {
    forall n :: Kept(ns, n, |ns|) ==> forall i :: 0 <= i < |ns| && ns[i].ssid == n.ssid ==> Dbm(ns[i]) <= Dbm(n)
  }

  predicate Heard(ns: seq<Network>, ssid: string, upTo: nat)
    requires upTo <= |ns|
  {
    exists i :: 0 <= i < upTo && ns[i].ssid == ssid
  }

  lemma {:induction false} KeptExists(ns: seq<Network>, ssid: string, upTo: nat) returns (n: Network)
    requires upTo <= |ns| && ssid != "" && Heard(ns, ssid, upTo)
    ensures n.ssid == ssid && Kept(ns, n, upTo)
    decreases upTo
  {
    hide Kept;
    var last := ns[upTo - 1];
    if Heard(ns, ssid, upTo - 1) {
      n := KeptExists(ns, ssid, upTo - 1);
      if last.ssid == ssid && last.rssi > n.rssi {
        KeptReplaced(ns, n, upTo - 1);
        n := last;
      } else {
        KeptCarries(ns, n, upTo - 1);
      }
    } else {
      assert last.ssid == ssid;
      KeptFirst(ns, upTo - 1);
      n := last;
    }
  }

  lemma StrongestMeaning(ns: seq<Network>, ssid: string, rssi: int)
    ensures Strongest(AsScan(ns), ssid, rssi) <==> Peak(ns, ssid, rssi)
  {
    hide Strip, NormalizeRssi;
    var scan := AsScan(ns);
    if Strongest(scan, ssid, rssi) {
      var i :| 0 <= i < |scan| && Strip(scan[i].ssid) == ssid && NormalizeRssi(scan[i].rssi) == rssi;
      assert ns[i] in ns && Dbm(ns[i]) == rssi;
      forall n | n in ns && Strip(n.ssid) == ssid ensures Dbm(n) <= rssi {
        var j :| 0 <= j < |ns| && ns[j] == n;
        assert NormalizeRssi(scan[j].rssi) <= rssi;
      }
    }
    if (exists n :: n in ns && Strip(n.ssid) == ssid && Dbm(n) == rssi)
       && (forall n :: n in ns && Strip(n.ssid) == ssid ==> Dbm(n) <= rssi) {
      var n :| n in ns && Strip(n.ssid) == ssid && Dbm(n) == rssi;
      var i :| 0 <= i < |ns| && ns[i] == n;
      assert NormalizeRssi(scan[i].rssi) == rssi;
      forall j | 0 <= j < |scan| && Strip(scan[j].ssid) == ssid ensures NormalizeRssi(scan[j].rssi) <= rssi {
        assert ns[j] in ns && Strip(ns[j].ssid) == ssid;
      }
    }
  }

  lemma DeduplicatedKeeps(ns: seq<Network>, r: seq<Network>)
    requires Deduplicated(ns, r)
    ensures forall n :: n in r <==> Kept(ns, n, |ns|)
  {
    hide Kept, Before;
  }

  lemma StrongestSurvives(ns: seq<Network>, r: seq<Network>, ssid: string, rssi: int)
    requires Deduplicated(ns, r) && StrongestAgrees(ns) && ssid != ""
    ensures Strongest(AsScan(ns), ssid, rssi) <==> Strongest(AsScan(r), ssid, rssi)
  {
    hide Strongest, Deduplicated, Peak, Covers, StrongestAgrees;
    StrongestMeaning(ns, ssid, rssi);
    StrongestMeaning(r, ssid, rssi);
    DeduplicatedCovers(ns, r, ssid);
    SamePeak(ns, r, ssid, rssi);
  }

  lemma DeduplicatedCovers(ns: seq<Network>, r: seq<Network>, ssid: string)
    requires Deduplicated(ns, r) && StrongestAgrees(ns) && ssid != ""
    ensures Covers(ns, r, ssid)
  {
    StripOfEmpty();
    DeduplicatedKeeps(ns, r);
    hide Strip, NormalizeRssi, Dbm, Deduplicated, Kept;
    forall m | m in r ensures m in ns {
      KeptIsNamed(ns, m, |ns|);
    }
    forall n | n in ns && Strip(n.ssid) == ssid
      ensures exists m :: m in r && m.ssid == n.ssid && Dbm(n) <= Dbm(m)
    {
      var i :| 0 <= i < |ns| && ns[i] == n;
      var m := KeptExists(ns, n.ssid, |ns|);
      assert m in r && Dbm(ns[i]) <= Dbm(m);
    }
  }

  // r is a part of ns with a reading as strong for every one dropped.
  ghost predicate Covers(ns: seq<Network>, r: seq<Network>, ssid: string) {
    && (forall m :: m in r ==> m in ns)
    && (forall n :: n in ns && Strip(n.ssid) == ssid ==> exists m :: m in r && m.ssid == n.ssid && Dbm(n) <= Dbm(m))
  }

  ghost predicate Peak(q: seq<Network>, ssid: string, rssi: int) {
    && (exists n :: n in q && Strip(n.ssid) == ssid && Dbm(n) == rssi)
    && (forall n :: n in q && Strip(n.ssid) == ssid ==> Dbm(n) <= rssi)
  }

  lemma Cover(ns: seq<Network>, r: seq<Network>, ssid: string, n: Network) returns (m: Network)
    requires Covers(ns, r, ssid) && n in ns && Strip(n.ssid) == ssid
    ensures m in r && m in ns && Strip(m.ssid) == ssid && Dbm(n) <= Dbm(m)
  {
    hide Strip, Dbm;
    m :| m in r && m.ssid == n.ssid && Dbm(n) <= Dbm(m);
  }

  lemma PartOf(ns: seq<Network>, r: seq<Network>, ssid: string, m: Network)
    requires Covers(ns, r, ssid) && m in r
    ensures m in ns
  {}

  lemma SamePeak(ns: seq<Network>, r: seq<Network>, ssid: string, rssi: int)
    requires Covers(ns, r, ssid)
    ensures Peak(ns, ssid, rssi) <==> Peak(r, ssid, rssi)
  {
    hide Strip, Dbm, Covers;
    if Peak(ns, ssid, rssi) {
      var n :| n in ns && Strip(n.ssid) == ssid && Dbm(n) == rssi;
      var m := Cover(ns, r, ssid, n);
      forall x | x in r && Strip(x.ssid) == ssid ensures Dbm(x) <= rssi { PartOf(ns, r, ssid, x); }
    }
    if Peak(r, ssid, rssi) {
      var n :| n in r && Strip(n.ssid) == ssid && Dbm(n) == rssi;
      PartOf(ns, r, ssid, n);
      forall x | x in ns && Strip(x.ssid) == ssid ensures Dbm(x) <= rssi { var m := Cover(ns, r, ssid, x); }
    }
  }

  lemma StripOfEmpty()
    ensures Strip("") == ""
  {}

  ghost predicate SameCandidates(one: seq<Network>, two: seq<Network>) {
    forall cfg: WifiCandidates.Config, saved: seq<Saved>, now: real, c: Candidate ::
      Qualifies(cfg, AsScan(one), saved, now, c) <==> Qualifies(cfg, AsScan(two), saved, now, c)
  }

  lemma PreFilterIsHarmless(ns: seq<Network>, r: seq<Network>)
    requires Deduplicated(ns, r) && StrongestAgrees(ns)
    ensures SameCandidates(ns, r)
  {
    hide Strongest, Deduplicated, StrongestAgrees;
    forall cfg: WifiCandidates.Config, saved: seq<Saved>, now: real, c: Candidate
      ensures Qualifies(cfg, AsScan(ns), saved, now, c) <==> Qualifies(cfg, AsScan(r), saved, now, c)
    {
      if c.ssid != "" { StrongestSurvives(ns, r, c.ssid, c.rssi); }
    }
  }

  lemma {:induction false} StrongestExists(scan: seq<Scanned>, ssid: string) returns (rssi: int)
    requires exists i :: 0 <= i < |scan| && Strip(scan[i].ssid) == ssid
    ensures Strongest(scan, ssid, rssi)
    decreases |scan|
  {
    hide Strip, NormalizeRssi;
    var front, last := scan[..|scan| - 1], scan[|scan| - 1];
    assert forall i :: 0 <= i < |front| ==> front[i] == scan[i];
    if exists i :: 0 <= i < |front| && Strip(front[i].ssid) == ssid {
      rssi := StrongestExists(front, ssid);
      var i :| 0 <= i < |front| && Strip(front[i].ssid) == ssid && NormalizeRssi(front[i].rssi) == rssi;
      assert scan[i] == front[i];
      if Strip(last.ssid) == ssid && NormalizeRssi(last.rssi) > rssi { rssi := NormalizeRssi(last.rssi); }
      forall j | 0 <= j < |scan| && Strip(scan[j].ssid) == ssid ensures NormalizeRssi(scan[j].rssi) <= rssi {
        assert j == |front| || scan[j] == front[j];
      }
    } else {
      rssi := NormalizeRssi(last.rssi);
    }
  }

  // Where units mix so that the raw maximum hides a stronger signal, a candidate is lost.
  lemma HiddenSignalLosesCandidate(ns: seq<Network>, r: seq<Network>, n: Network, i: nat)
    requires Deduplicated(ns, r) && (forall k :: 0 <= k < |ns| ==> Strip(ns[k].ssid) == ns[k].ssid)
    requires Kept(ns, n, |ns|) && i < |ns| && ns[i].ssid == n.ssid && Dbm(n) < Dbm(ns[i])
    ensures !SameCandidates(ns, r)
  {
    hide Strip, NormalizeRssi;
    var a, b := AsScan(ns), AsScan(r);
    assert Strip(a[i].ssid) == n.ssid;
    var top := StrongestExists(a, n.ssid);
    assert NormalizeRssi(a[i].rssi) <= top;
    var cfg := WifiCandidates.Config(top, 0, 0.0);
    var record := Saved(n.ssid, 0, 0.0, 0, 0.0);
    var c := Candidate(n.ssid, top, 0, 0.0, 0);
    var k0 :| 0 <= k0 < |ns| && KeptAt(ns, k0, |ns|) && ns[k0] == n;
    assert LastSaved([record], n.ssid) == Some(record);
    assert Qualifies(cfg, a, [record], 1.0, c);
    forall k | 0 <= k < |b| && Strip(b[k].ssid) == n.ssid ensures NormalizeRssi(b[k].rssi) < top {
      assert r[k] in r;
      var j :| 0 <= j < |ns| && KeptAt(ns, j, |ns|) && ns[j] == r[k];
      KeptIsUnique(ns, r[k], n);
    }
    assert !Qualifies(cfg, b, [record], 1.0, c);
  }

  // For a scan of stripped SSIDs, exactly when the pre-filter changes no candidate.
  lemma PreFilterHarmlessExactlyWhen(ns: seq<Network>, r: seq<Network>)
    requires Deduplicated(ns, r) && (forall k :: 0 <= k < |ns| ==> Strip(ns[k].ssid) == ns[k].ssid)
    ensures SameCandidates(ns, r) <==> StrongestAgrees(ns)
  {
    hide Strip, NormalizeRssi, SameCandidates, Deduplicated;
    if StrongestAgrees(ns) {
      PreFilterIsHarmless(ns, r);
    } else {
      var n :| Kept(ns, n, |ns|) && !forall i :: 0 <= i < |ns| && ns[i].ssid == n.ssid ==> Dbm(ns[i]) <= Dbm(n);
      var i :| 0 <= i < |ns| && ns[i].ssid == n.ssid && Dbm(ns[i]) > Dbm(n);
      HiddenSignalLosesCandidate(ns, r, n, i);
    }
  }

  // Negative dBm readings, or percentages throughout, never disagree.
  lemma OneUnitAgrees(ns: seq<Network>)
    requires (forall i :: 0 <= i < |ns| ==> ns[i].rssi < 0) || (forall i :: 0 <= i < |ns| ==> 0 <= ns[i].rssi <= 100)
    ensures StrongestAgrees(ns)
  {
    forall n, i | Kept(ns, n, |ns|) && 0 <= i < |ns| && ns[i].ssid == n.ssid ensures Dbm(ns[i]) <= Dbm(n) {
      var k :| 0 <= k < |ns| && KeptAt(ns, k, |ns|) && ns[k] == n;
      NormalizeMeaning(ns[i].rssi);
      NormalizeMeaning(n.rssi);
    }
  }

  // Two candidate lists over the same candidates agree on the best score.
  lemma BestScoreIsShared(cfg: WifiCandidates.Config, one: seq<Network>, two: seq<Network>, saved: seq<Saved>,
                          now: real,
                          a: seq<Candidate>, b: seq<Candidate>)
    requires SameCandidates(one, two)
    requires CandidateList(cfg, AsScan(one), saved, now, a) && CandidateList(cfg, AsScan(two), saved, now, b)
    ensures (forall c :: c in a <==> c in b) && (a == [] <==> b == [])
    ensures a != [] ==> a[0].rssi == b[0].rssi && a[0].priority == b[0].priority
                        && a[0].lastSuccess == b[0].lastSuccess && a[0].failures == b[0].failures
  {
    hide Qualifies, FirstHit;
    forall c ensures c in a <==> c in b {
      assert Qualifies(cfg, AsScan(one), saved, now, c) <==> Qualifies(cfg, AsScan(two), saved, now, c);
    }
    if b != [] { assert b[0] in a; }
    if a != [] {
      assert a[0] in b;
      var i :| 0 <= i < |b| && b[i] == a[0];
      assert b[0] in a;
      var j :| 0 <= j < |a| && a[j] == b[0];
    }
  }

  // ---- switching ----

  datatype Reason = NoCandidate | NotConnected | AlreadyBest | CoolingDown | CurrentWeak | Better | NotBetter

  function ShouldSwitch(cfg: WifiCandidates.Config, current: string, currentRssi: Rssi, candidate: Option<Candidate>,
                        lastSwitch: real, now: real): (bool, Reason)
  {
    if candidate.None? then (false, NoCandidate)
    else if current == "" then (true, NotConnected)
    else if candidate.value.ssid == current then (false, AlreadyBest)
    else if now - lastSwitch < cfg.cooldown then (false, CoolingDown)
    else if NormalizeRssi(currentRssi) < cfg.minimum then (true, CurrentWeak)
    else if candidate.value.rssi >= NormalizeRssi(currentRssi) + cfg.hysteresis then (true, Better)
    else (false, NotBetter)
  }

  // Granted to any candidate while disconnected; between two networks, off cooldown, for a
  // weak current signal or a gain of the hysteresis; and to nobody else.
  lemma SwitchGrantedExactlyWhen(cfg: WifiCandidates.Config, current: string, currentRssi: Rssi,
                                 candidate: Option<Candidate>, lastSwitch: real, now: real)
    ensures ShouldSwitch(cfg, current, currentRssi, candidate, lastSwitch, now).0 <==>
            && candidate.Some?
            && (|current| > 0 ==>
                  && candidate.value.ssid != current && lastSwitch + cfg.cooldown <= now
                  && (NormalizeRssi(currentRssi) < cfg.minimum
                      || candidate.value.rssi - NormalizeRssi(currentRssi) >= cfg.hysteresis))
  {}

  // A disconnected device with any candidate joins the strongest of them.
  lemma DisconnectedJoinsStrongest(cfg: WifiCandidates.Config, scan: seq<Scanned>, saved: seq<Saved>, now: real,
                                   r: seq<Candidate>, currentRssi: Rssi, lastSwitch: real, at: real)
    requires CandidateList(cfg, scan, saved, now, r)
    ensures var (join, _) := ShouldSwitch(cfg, "", currentRssi, if r == [] then None else Some(r[0]), lastSwitch, at);
            && (join <==> exists c :: Qualifies(cfg, scan, saved, now, c))
            && (join ==> forall c :: Qualifies(cfg, scan, saved, now, c) ==> c.rssi <= r[0].rssi)
  {
    hide Qualifies;
    FirstIsStrongest(cfg, scan, saved, now, r);
    if r != [] { assert r[0] in r; }
  }

  // No ping-pong: after a switch between two networks for signal reasons, the way back
  // is refused at any later time while the readings stay as they were.
  lemma NoPingPong(cfg: WifiCandidates.Config, scan: seq<Scanned>, saved: seq<Saved>, now: real, later: real,
                   from: string, fromRssi: Rssi, to: Candidate, toRssi: Rssi, back: Candidate,
                   lastSwitch: real)
    requires cfg.hysteresis > 0 && from != "" && to.ssid != ""
    requires Qualifies(cfg, scan, saved, now, to)
    requires ShouldSwitch(cfg, from, fromRssi, Some(to), lastSwitch, now).0
    requires NormalizeRssi(toRssi) == to.rssi
    requires back.ssid == from && back.rssi == NormalizeRssi(fromRssi) && Qualifies(cfg, scan, saved, later, back)
    ensures !ShouldSwitch(cfg, to.ssid, toRssi, Some(back), now, later).0
  {}
}
