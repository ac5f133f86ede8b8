// The terse nmcli field splitter and the escaping it undoes.
module NmcliFields {
  datatype Scan = Scan(parts: seq<string>, current: string, esc: bool)

  const EMPTY := Scan([], "", false)

  function Fed(s: Scan, c: char, expected: int): Scan {
    if s.esc then s.(current := s.current + [c], esc := false)
    else if c == '\\' then s.(esc := true)
    else if c == ':' && |s.parts| < expected - 1 then Scan(s.parts + [s.current], "", false)
    else s.(current := s.current + [c])
  }

  function FedAll(s: Scan, line: string, expected: int): Scan
    decreases |line|
  {
    if line == [] then s else FedAll(Fed(s, line[0], expected), line[1..], expected)
  }

  function Padded(parts: seq<string>, expected: int): seq<string> {
    if |parts| < expected then parts + seq(expected - |parts|, (_: nat) => "") else parts
  }

  // An escape left open at the end of the line is dropped.
  function Split(line: string, expected: int): seq<string> {
    var s := FedAll(EMPTY, line, expected);
    Padded(s.parts + [s.current], expected)
  }

  method SplitNmcli(line: string, expected: int) returns (fields: seq<string>)
    ensures fields == Split(line, expected)
    ensures |fields| == if expected < 1 then 1 else expected
  {
    SplitHasExpectedFields(line, expected);
    fields := [];
    var current: string := "";
    var esc := false;
    for i := 0 to |line|
      invariant FedAll(EMPTY, line, expected) == FedAll(Scan(fields, current, esc), line[i..], expected)
    {
      var c := line[i];
      assert line[i..][1..] == line[i + 1..];
      if esc {
        current := current + [c];
        esc := false;
      } else if c == '\\' {
        esc := true;
      } else if c == ':' && |fields| < expected - 1 {
        fields := fields + [current];
        current := "";
      } else {
        current := current + [c];
      }
    }
    fields := fields + [current];
    ghost var split := fields;
    while |fields| < expected
      invariant |split| <= |fields| && (|fields| <= expected || fields == split)
      invariant fields == split + seq(|fields| - |split|, (_: nat) => "")
    {
      fields := fields + [""];
    }
  }

  // On every line, whatever it holds.
  lemma SplitHasExpectedFields(line: string, expected: int)
    ensures |Split(line, expected)| == if expected < 1 then 1 else expected
  {
    PartsStayBelow(EMPTY, line, expected);
  }

  lemma {:induction false} PartsStayBelow(s: Scan, line: string, expected: int)
    requires |s.parts| <= if expected < 1 then 0 else expected - 1
    ensures |FedAll(s, line, expected).parts| <= if expected < 1 then 0 else expected - 1
    decreases |line|
  {
    if line != [] { PartsStayBelow(Fed(s, line[0], expected), line[1..], expected); }
  }

  // ---- lines without escapes ----

  function Colons(n: nat): (s: string)
    ensures |s| == n
    decreases n
  {
    if n == 0 then "" else Colons(n - 1) + ":"
  }

  // Fields put back together with plain colons.
  function Rejoined(fields: seq<string>): string
    requires fields != []
    decreases |fields|
  {
    if |fields| == 1 then fields[0] else Rejoined(fields[..|fields| - 1]) + ":" + fields[|fields| - 1]
  }

  lemma RejoinedAppend(fields: seq<string>, last: string)
    requires fields != []
    ensures Rejoined(fields + [last]) == Rejoined(fields) + ":" + last
  {
    assert (fields + [last])[..|fields|] == fields;
  }

  lemma RejoinedExtended(parts: seq<string>, current: string, c: char)
    ensures Rejoined(parts + [current + [c]]) == Rejoined(parts + [current]) + [c]
  {
    if parts == [] {
      assert parts + [current + [c]] == [current + [c]] && parts + [current] == [current];
    } else {
      RejoinedAppend(parts, current + [c]);
      RejoinedAppend(parts, current);
      assert Rejoined(parts) + ":" + (current + [c]) == Rejoined(parts) + ":" + current + [c];
    }
  }

  lemma PlainStep(s: Scan, c: char, expected: int)
    requires !s.esc && c != '\\'
    ensures var t := Fed(s, c, expected);
            !t.esc && Rejoined(t.parts + [t.current]) == Rejoined(s.parts + [s.current]) + [c]
  {
    hide Rejoined;
    RejoinedAppend(s.parts + [s.current], "");
    RejoinedExtended(s.parts, s.current, c);
    assert Rejoined(s.parts + [s.current]) + ":" + "" == Rejoined(s.parts + [s.current]) + ":";
  }

  lemma {:induction false} PlainScan(s: Scan, line: string, expected: int)
    requires !s.esc && '\\' !in line
    ensures var t := FedAll(s, line, expected);
            !t.esc && Rejoined(t.parts + [t.current]) == Rejoined(s.parts + [s.current]) + line
    decreases |line|
  {
    hide Rejoined, Fed;
    var soFar := Rejoined(s.parts + [s.current]);
    if line == [] {
      assert soFar + line == soFar;
    } else {
      var c, rest := line[0], line[1..];
      assert c in line && forall d :: d in rest ==> d in line;
      PlainStep(s, c, expected);
      PlainScan(Fed(s, c, expected), rest, expected);
      assert soFar + line == soFar + [c] + rest;
    }
  }

  lemma {:induction false} RejoinedPadding(fields: seq<string>, n: nat)
    requires fields != []
    ensures Rejoined(fields + seq(n, (_: nat) => "")) == Rejoined(fields) + Colons(n)
    decreases n
  {
    var pad := seq(n, (_: nat) => "");
    if n == 0 {
      assert fields + pad == fields && Rejoined(fields) + Colons(0) == Rejoined(fields);
    } else {
      hide Rejoined;
      RejoinedPadding(fields, n - 1);
      assert fields + pad == fields + seq(n - 1, (_: nat) => "") + [""];
      RejoinedAppend(fields + seq(n - 1, (_: nat) => ""), "");
      var front := Rejoined(fields + seq(n - 1, (_: nat) => ""));
      assert front + ":" + "" == front + ":";
      assert Rejoined(fields) + Colons(n - 1) + ":" == Rejoined(fields) + Colons(n);
    }
  }

  // Without escapes nothing is lost: the fields put back together are the line, a short one
  // filled up with empty fields, a long one keeping its extra colons in the last field.
  lemma PlainLineIsKept(line: string, expected: int)
    requires '\\' !in line
    ensures exists missing: nat :: Rejoined(Split(line, expected)) == line + Colons(missing)
                                && (missing > 0 ==> expected > 0 && missing < expected)
    ensures forall i :: 0 <= i < |Split(line, expected)| - 1 ==> ':' !in Split(line, expected)[i]
  {
    PlainScan(EMPTY, line, expected);
    PartsArePlain(EMPTY, line, expected);
    var s := FedAll(EMPTY, line, expected);
    var fields := s.parts + [s.current];
    assert Rejoined([] + [""]) == "" && "" + line == line;
    assert EMPTY.parts + [EMPTY.current] == [] + [""];
    var missing := if |fields| < expected then expected - |fields| else 0;
    if missing > 0 {
      RejoinedPadding(fields, missing);
    } else {
      assert line + Colons(0) == line;
    }
    assert Rejoined(Split(line, expected)) == line + Colons(missing);
  }

  lemma {:induction false} PartsArePlain(s: Scan, line: string, expected: int)
    requires !s.esc && '\\' !in line && (forall i :: 0 <= i < |s.parts| ==> ':' !in s.parts[i])
    requires ':' in s.current ==> |s.parts| >= expected - 1
    ensures var t := FedAll(s, line, expected);
            && (forall i :: 0 <= i < |t.parts| ==> ':' !in t.parts[i])
            && (':' in t.current ==> |t.parts| >= expected - 1)
    decreases |line|
  {
    if line != [] {
      assert line[0] in line && forall d :: d in line[1..] ==> d in line;
      PartsArePlain(Fed(s, line[0], expected), line[1..], expected);
    }
  }

  // An escape left open at the end is dropped.
  lemma OpenEscapeIsDropped(line: string, expected: int)
    requires '\\' !in line
    ensures Split(line + "\\", expected) == Split(line, expected)
  {
    PlainScan(EMPTY, line, expected);
    FedAppend(EMPTY, line, '\\', expected);
  }

  lemma {:induction false} FedAppend(s: Scan, line: string, c: char, expected: int)
    ensures FedAll(s, line + [c], expected) == Fed(FedAll(s, line, expected), c, expected)
    decreases |line|
  {
    if line == [] {
      assert line + [c] == [c] && [c][1..] == [];
      assert FedAll(s, [c], expected) == FedAll(Fed(s, c, expected), [], expected);
    } else {
      assert (line + [c])[1..] == line[1..] + [c];
      FedAppend(Fed(s, line[0], expected), line[1..], c, expected);
    }
  }

  // ---- the printer ----

  function EscapedChar(c: char): string {
    if c == ':' || c == '\\' then ['\\', c] else [c]
  }

  function Escaped(field: string): string
    decreases |field|
  {
    if field == [] then [] else EscapedChar(field[0]) + Escaped(field[1..])
  }

  function Joined(fields: seq<string>): string
    requires fields != []
    decreases |fields|
  {
    if |fields| == 1 then Escaped(fields[0]) else Escaped(fields[0]) + ":" + Joined(fields[1..])
  }

  // One character of a field, escaped or plain, is read back as itself.
  lemma CharIsRead(s: Scan, c: char, rest: string, expected: int)
    requires !s.esc
    ensures FedAll(s, EscapedChar(c) + rest, expected) == FedAll(s.(current := s.current + [c]), rest, expected)
  {
    var line := EscapedChar(c) + rest;
    if c == ':' || c == '\\' {
      assert line[1..] == [c] + rest && ([c] + rest)[1..] == rest;
    } else {
      assert line[1..] == rest;
    }
  }

  lemma {:induction false} EscapedIsRead(s: Scan, field: string, rest: string, expected: int)
    requires !s.esc
    ensures FedAll(s, Escaped(field) + rest, expected) == FedAll(s.(current := s.current + field), rest, expected)
    decreases |field|
  {
    hide FedAll, EscapedChar;
    if field == [] {
      assert Escaped(field) + rest == rest && s.current + field == s.current;
    } else {
      var c, tail := field[0], field[1..];
      assert Escaped(field) + rest == EscapedChar(c) + (Escaped(tail) + rest);
      CharIsRead(s, c, Escaped(tail) + rest, expected);
      EscapedIsRead(s.(current := s.current + [c]), tail, rest, expected);
      assert s.current + [c] + tail == s.current + field;
    }
  }

  lemma ColonIsRead(s: Scan, rest: string, expected: int)
    requires !s.esc && |s.parts| < expected - 1
    ensures FedAll(s, ":" + rest, expected) == FedAll(Scan(s.parts + [s.current], "", false), rest, expected)
  {
    assert (":" + rest)[1..] == rest;
  }

  lemma {:induction false} JoinedIsRead(s: Scan, fields: seq<string>, expected: int)
    requires fields != [] && !s.esc && s.current == "" && |s.parts| + |fields| == expected
    ensures var t := FedAll(s, Joined(fields), expected);
            t.parts + [t.current] == s.parts + fields
    decreases |fields|
  {
    hide FedAll, Escaped;
    var first := fields[0];
    var read := s.(current := first);
    assert "" + first == first;
    if |fields| == 1 {
      assert Joined(fields) == Escaped(first) + "";
      EscapedIsRead(s, first, "", expected);
      assert FedAll(read, "", expected) == read by { NothingIsRead(read, expected); }
      assert fields == [first];
    } else {
      var rest := fields[1..];
      assert Joined(fields) == Escaped(first) + (":" + Joined(rest));
      EscapedIsRead(s, first, ":" + Joined(rest), expected);
      ColonIsRead(read, Joined(rest), expected);
      var next := Scan(s.parts + [first], "", false);
      JoinedIsRead(next, rest, expected);
      assert next.parts + rest == s.parts + fields;
    }
  }

  lemma NothingIsRead(s: Scan, expected: int)
    ensures FedAll(s, "", expected) == s
  {}

  // Splitting undoes escaping and joining, for any number of fields.
  lemma RoundTrip(fields: seq<string>)
    requires fields != []
    ensures Split(Joined(fields), |fields|) == fields
  {
    hide FedAll, Joined;
    JoinedIsRead(EMPTY, fields, |fields|);
    assert [] + fields == fields;
  }

  // So printing is injective, and a split line printed again splits the same way.
  lemma PrintingIsInjective(one: seq<string>, two: seq<string>)
    requires one != [] && |one| == |two| && Joined(one) == Joined(two)
    ensures one == two
  {
    RoundTrip(one);
    RoundTrip(two);
  }

  lemma SplitIsStable(line: string, expected: int)
    requires expected >= 1
    ensures Split(Joined(Split(line, expected)), expected) == Split(line, expected)
  {
    SplitHasExpectedFields(line, expected);
    RoundTrip(Split(line, expected));
  }
}
