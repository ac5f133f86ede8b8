// A stable sort by a strict "goes before" relation.
module StableSort {
  // Strict weak order: what is before c is before b, or b is before c.
  ghost predicate WeakOrder<T(!new)>(before: (T, T) -> bool) {
    && (forall a, b :: before(a, b) ==> !before(b, a))
    && (forall a, b, c :: before(a, c) ==> before(a, b) || before(b, c))
  }

  function Insert<T>(before: (T, T) -> bool, s: seq<T>, x: T): (r: seq<T>)
    ensures multiset(r) == multiset(s) + multiset{x}
    decreases |s|
  {
    if s == [] then [x]
    else
      assert s == s[..|s| - 1] + [s[|s| - 1]];
      if before(x, s[|s| - 1]) then Insert(before, s[..|s| - 1], x) + [s[|s| - 1]] else s + [x]
  }

  function Sort<T>(before: (T, T) -> bool, s: seq<T>): (r: seq<T>)
    ensures multiset(r) == multiset(s)
    decreases |s|
  {
    if s == [] then []
    else
      assert s == s[..|s| - 1] + [s[|s| - 1]];
      Insert(before, Sort(before, s[..|s| - 1]), s[|s| - 1])
  }

  // Every earlier element goes before, or ties and ranked earlier in the input.
  ghost predicate Arranged<T>(before: (T, T) -> bool, rank: T -> int, s: seq<T>) {
    forall i, j :: 0 <= i < j < |s| ==> !before(s[j], s[i]) && (before(s[i], s[j]) || rank(s[i]) < rank(s[j]))
  }

  ghost predicate Follows<T>(before: (T, T) -> bool, rank: T -> int, y: T, x: T) {
    !before(x, y) && (before(y, x) || rank(y) < rank(x))
  }

  lemma ArrangedSnoc<T>(before: (T, T) -> bool, rank: T -> int, s: seq<T>, x: T)
    requires Arranged(before, rank, s) && forall y :: y in s ==> Follows(before, rank, y, x)
    ensures Arranged(before, rank, s + [x])
  {
    var r := s + [x];
    forall i, j | 0 <= i < j < |r| ensures Follows(before, rank, r[i], r[j]) {
      if j == |s| { assert s[i] in s; }
    }
    forall i, j | 0 <= i < j < |r| ensures !before(r[j], r[i]) && (before(r[i], r[j]) || rank(r[i]) < rank(r[j])) {
      assert Follows(before, rank, r[i], r[j]);
    }
  }

  lemma ArrangedFront<T>(before: (T, T) -> bool, rank: T -> int, front: seq<T>, last: T)
    requires Arranged(before, rank, front + [last])
    ensures Arranged(before, rank, front)
    ensures forall y :: y in front ==> Follows(before, rank, y, last)
  {
    var s := front + [last];
    assert forall i :: 0 <= i < |front| ==> s[i] == front[i];
    forall y | y in front ensures Follows(before, rank, y, last) {
      var i :| 0 <= i < |front| && front[i] == y;
      assert s[i] == y && s[|front|] == last;
    }
  }

  lemma {:induction false} InsertArranges<T(!new)>(before: (T, T) -> bool, rank: T -> int, s: seq<T>, x: T)
    requires WeakOrder(before) && Arranged(before, rank, s)
    requires forall y :: y in s ==> rank(y) < rank(x)
    ensures Arranged(before, rank, Insert(before, s, x))
    decreases |s|
  {
    hide Arranged;
    if s == [] {
      assert Arranged(before, rank, [x]) by { SingletonArranged(before, rank, x); }
    } else {
      var front, last := s[..|s| - 1], s[|s| - 1];
      assert s == front + [last];
      ArrangedFront(before, rank, front, last);
      if before(x, last) {
        InsertArranges(before, rank, front, x);
        var r := Insert(before, front, x);
        forall y | y in r ensures Follows(before, rank, y, last) {
          assert y in multiset(r);
          assert y == x || y in multiset(front);
        }
        ArrangedSnoc(before, rank, r, last);
      } else {
        forall y | y in s ensures Follows(before, rank, y, x) {
          assert y == last || Follows(before, rank, y, last);
        }
        ArrangedSnoc(before, rank, s, x);
      }
    }
  }

  lemma SingletonArranged<T>(before: (T, T) -> bool, rank: T -> int, x: T)
    ensures Arranged(before, rank, [x])
  {}

  lemma {:induction false} SortArranges<T(!new)>(before: (T, T) -> bool, rank: T -> int, s: seq<T>)
    requires WeakOrder(before)
    requires forall i, j :: 0 <= i < j < |s| ==> rank(s[i]) < rank(s[j])
    ensures Arranged(before, rank, Sort(before, s))
    decreases |s|
  {
    if s != [] {
      var front, last := s[..|s| - 1], s[|s| - 1];
      SortArranges(before, rank, front);
      forall y | y in Sort(before, front) ensures rank(y) < rank(last) {
        assert y in multiset(front);
        var i :| 0 <= i < |front| && front[i] == y;
        assert s[i] == y;
      }
      InsertArranges(before, rank, Sort(before, front), last);
    }
  }
}
