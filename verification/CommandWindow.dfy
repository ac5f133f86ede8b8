// Duplicate-command filter: a list and a set with batch eviction, against the plain
// history of accepted ids.
module CommandWindow {
  const HIGH := 1000
  const LOW := 500

  ghost predicate DistinctIds(ids: seq<string>) {
    forall i, j :: 0 <= i < j < |ids| ==> ids[i] != ids[j]
  }

  function Ids(ids: seq<string>): set<string> { set id | id in ids }

  lemma IdsMeaning(ids: seq<string>, id: string)
    ensures id in Ids(ids) <==> id in ids
  {}

  lemma DropOldest(ids: seq<string>)
    requires DistinctIds(ids) && ids != []
    ensures DistinctIds(ids[1..]) && Ids(ids[1..]) == Ids(ids) - {ids[0]}
  {
    assert ids == [ids[0]] + ids[1..];
  }

  lemma AddNewest(ids: seq<string>, id: string)
    requires DistinctIds(ids) && id !in ids
    ensures DistinctIds(ids + [id]) && Ids(ids + [id]) == Ids(ids) + {id}
  {}

  function Last<T>(s: seq<T>, n: nat): seq<T> {
    if |s| <= n then s else s[|s| - n..]
  }

  // What one acceptance leaves in the window.
  function Remembered(window: seq<string>, id: string): seq<string> {
    if |window| + 1 > HIGH then Last(window + [id], LOW) else window + [id]
  }

  class DuplicateFilter {
    var processed: seq<string>
    var processedSet: set<string>
    ghost var accepted: seq<string>

    ghost predicate Valid()
      reads this
    {
      && processed == Window(accepted)
      && DistinctIds(processed)
      && processedSet == Ids(processed)
    }

    constructor ()
      ensures Valid() && accepted == []
    {
      processed, processedSet, accepted := [], {}, [];
    }

    method IsDuplicateCommand(id: string) returns (duplicate: bool)
      requires Valid()
      modifies this
      ensures Valid()
      ensures duplicate == Rejects(old(accepted), id)
      ensures accepted == if duplicate then old(accepted) else old(accepted) + [id]
    {
      hide DistinctIds, Ids;
      WindowMeaning(accepted);
      assert id in processedSet <==> id in processed by { IdsMeaning(processed, id); }
      if id in processedSet {
        return true;
      }
      AddNewest(processed, id);
      processed := processed + [id];
      processedSet := processedSet + {id};
      ghost var full := processed;
      if |processed| > HIGH {
        while |processed| > LOW
          invariant LOW <= |processed| <= |full| && processed == full[|full| - |processed|..]
          invariant DistinctIds(processed) && accepted == old(accepted)
          invariant processedSet == Ids(processed)
        {
          var expired := processed[0];
          DropOldest(processed);
          processed := processed[1..];
          processedSet := processedSet - {expired};
        }
      }
      accepted := accepted + [id];
      assert accepted[..|accepted| - 1] == old(accepted);
      return false;
    }

    // The use in _on_message: a command without an id is never filtered.
    method Admit(id: string) returns (run: bool)
      requires Valid()
      modifies this
      ensures Valid()
      ensures run == (id == "" || !Rejects(old(accepted), id))
      ensures accepted == if run && id != "" then old(accepted) + [id] else old(accepted)
    {
      if id == "" { return true; }
      var duplicate := IsDuplicateCommand(id);
      return !duplicate;
    }
  }

  // The window after a history of accepted ids.
  function Window(accepted: seq<string>): seq<string>
    decreases |accepted|
  {
    if accepted == [] then [] else Remembered(Window(accepted[..|accepted| - 1]), accepted[|accepted| - 1])
  }

  // How many of the latest ids are remembered after n acceptances: all of them up to
  // 1000, then 500 growing to 1000 and back.
  function Memory(n: nat): nat {
    if n <= HIGH then n else LOW + (n - HIGH - 1) % (HIGH - LOW + 1)
  }

  // The filter by its history alone.
  predicate Rejects(accepted: seq<string>, id: string) {
    id in Last(accepted, Memory(|accepted|))
  }

  lemma MemoryStep(n: nat)
    ensures Memory(n + 1) == if Memory(n) + 1 > HIGH then LOW else Memory(n) + 1
    ensures Memory(n) <= HIGH && Memory(n) <= n && (n >= LOW ==> Memory(n) >= LOW)
  {
    if n > HIGH { NextRemainder(n - HIGH - 1, HIGH - LOW + 1); }
  }

  lemma NextRemainder(a: nat, d: nat)
    requires d > 0
    ensures (a + 1) % d == if a % d + 1 == d then 0 else a % d + 1
  {
    var q, r := a / d, a % d;
    assert a == q * d + r;
    if r + 1 == d {
      assert a + 1 == (q + 1) * d;
      ExactRemainder(a + 1, q + 1, 0, d);
    } else {
      ExactRemainder(a + 1, q, r + 1, d);
    }
  }

  lemma ExactRemainder(a: int, q: int, r: int, d: int)
    requires a == q * d + r && 0 <= r < d
    ensures a % d == r
  {
    var p := a / d;
    assert a == p * d + a % d;
    assert (p - q) * d == r - a % d;
    NoMultipleBetween(p - q, d);
  }

  lemma NoMultipleBetween(k: int, d: int)
    requires -d < k * d < d
    ensures k == 0
  {}

  lemma LastAppend(s: seq<string>, x: string, m: nat)
    requires m <= |s|
    ensures Last(s, m) + [x] == Last(s + [x], m + 1)
    ensures 1 <= m ==> Last(Last(s, m) + [x], m) == Last(s + [x], m)
  {}

  lemma LastOfLast(s: seq<string>, m: nat, n: nat)
    requires n <= m
    ensures Last(Last(s, m), n) == Last(s, n)
  {}

  lemma RememberedMeaning(s: seq<string>, id: string, m: nat)
    requires m <= |s| && m <= HIGH
    ensures Remembered(Last(s, m), id) == Last(s + [id], if m + 1 > HIGH then LOW else m + 1)
  {
    hide Last;
    LastLength(s, m);
    LastAppend(s, id, m);
    if m + 1 > HIGH { LastOfLast(s + [id], m + 1, LOW); }
  }

  // The window is exactly the last Memory(n) accepted ids.
  lemma {:induction false} WindowMeaning(accepted: seq<string>)
    ensures Window(accepted) == Last(accepted, Memory(|accepted|))
    ensures |Window(accepted)| == Memory(|accepted|)
    decreases |accepted|
  {
    hide Last, Memory, Remembered;
    MemoryStep(|accepted|);
    LastLength(accepted, Memory(|accepted|));
    if accepted == [] {
      assert Last(accepted, Memory(0)) == [];
    } else {
      var before, id := accepted[..|accepted| - 1], accepted[|accepted| - 1];
      assert accepted == before + [id];
      WindowMeaning(before);
      MemoryStep(|before|);
      RememberedMeaning(before, id, Memory(|before|));
    }
  }

  lemma LastLength(s: seq<string>, m: nat)
    requires m <= |s|
    ensures |Last(s, m)| == m
  {}

  // ---- runs ----

  // The ids accepted from a stream of commands.
  function AcceptedFrom(accepted: seq<string>, ids: seq<string>): seq<string>
    decreases |ids|
  {
    if ids == [] then accepted
    else AcceptedFrom(if Rejects(accepted, ids[0]) then accepted else accepted + [ids[0]], ids[1..])
  }

  // No id is accepted twice within any 501 consecutive acceptances.
  ghost predicate Spaced(accepted: seq<string>) {
    forall i, j :: 0 <= i < j < |accepted| && j - i <= 500 ==> accepted[i] != accepted[j]
  }

  lemma {:induction false} RunIsSpaced(accepted: seq<string>, ids: seq<string>)
    requires Spaced(accepted)
    ensures Spaced(AcceptedFrom(accepted, ids))
    ensures accepted <= AcceptedFrom(accepted, ids)
    decreases |ids|
  {
    if ids != [] {
      var next := if Rejects(accepted, ids[0]) then accepted else accepted + [ids[0]];
      if !Rejects(accepted, ids[0]) {
        MemoryStep(|accepted|);
        var memory := Last(accepted, Memory(|accepted|));
        forall i | 0 <= i < |accepted| && |accepted| - i <= LOW
          ensures accepted[i] != ids[0]
        {
          assert accepted[i] == memory[i - (|accepted| - |memory|)];
        }
      }
      RunIsSpaced(next, ids[1..]);
    }
  }

  // A command among the last 500 accepted is rejected; one outside the last 1000 is not.
  lemma WindowBounds(accepted: seq<string>, id: string)
    ensures id in Last(accepted, 500) ==> Rejects(accepted, id)
    ensures id !in Last(accepted, 1000) ==> !Rejects(accepted, id)
    ensures |accepted| <= 1000 ==> (Rejects(accepted, id) <==> id in accepted)
    ensures |accepted| == 1001 ==> (Rejects(accepted, id) <==> id in accepted[501..])
  {
    MemoryStep(|accepted|);
    var memory, low, high := Last(accepted, Memory(|accepted|)), Last(accepted, LOW), Last(accepted, HIGH);
    assert |low| <= |memory| <= |high|;
    assert low == memory[|memory| - |low|..];
    assert memory == high[|high| - |memory|..];
  }
}
