/** Python's view of lines and whitespace in a string: str.splitlines, str.strip, "\n".join. */
module Text {

  /** The characters at which splitlines breaks a line. */
  predicate IsBreak(c: char) {
    var n := c as int;
    10 <= n <= 13 || 28 <= n <= 30 || n == 0x85 || n == 0x2028 || n == 0x2029
  }

  predicate IsSpace(c: char) {
    var n := c as int;
    || 9 <= n <= 13 || 28 <= n <= 32 || n == 0x85 || n == 0xa0 || n == 0x1680 || 0x2000 <= n <= 0x200a
    || n == 0x2028 || n == 0x2029 || n == 0x202f || n == 0x205f || n == 0x3000
  }

  // ---- lines ----

  /** The lines of s, of which the first has been read as far as line. */
  function LinesFrom(s: string, line: string): seq<string>
    decreases |s|
  {
    if s == [] then if line == [] then [] else [line]
    else if s[0] == '\r' && |s| > 1 && s[1] == '\n' then [line] + LinesFrom(s[2..], [])
    else if IsBreak(s[0]) then [line] + LinesFrom(s[1..], [])
    else LinesFrom(s[1..], line + [s[0]])
  }

  function SplitLines(s: string): seq<string> { LinesFrom(s, []) }

  function Join(lines: seq<string>): string {
    if lines == [] then [] else if |lines| == 1 then lines[0] else lines[0] + "\n" + Join(lines[1..])
  }

  predicate Unbroken(s: string) { forall i | 0 <= i < |s| :: !IsBreak(s[i]) }

  lemma {:induction false} LinesOfUnbroken(s: string, line: string)
    requires Unbroken(s)
    ensures LinesFrom(s + "\n", line) == [line + s]
    ensures LinesFrom(s, line) == if line + s == [] then [] else [line + s]
  {
    if s == [] {
      assert line + s == line;
      assert ("\n")[1..] == [];
    } else {
      LinesOfUnbroken(s[1..], line + [s[0]]);
      assert (s + "\n")[1..] == s[1..] + "\n";
      assert line + [s[0]] + s[1..] == line + s;
    }
  }

  lemma {:induction false} LinesAreUnbroken(s: string, line: string)
    requires Unbroken(line)
    ensures forall l | l in LinesFrom(s, line) :: Unbroken(l)
    decreases |s|
  {
    if s != [] {
      if s[0] == '\r' && |s| > 1 && s[1] == '\n' { LinesAreUnbroken(s[2..], []); }
      else if IsBreak(s[0]) { LinesAreUnbroken(s[1..], []); }
      else { LinesAreUnbroken(s[1..], line + [s[0]]); }
    }
  }

  lemma AfterFirst(a: string, b: string)
    requires a != []
    ensures (a + "\n" + b)[1..] == a[1..] + "\n" + b && (a + "\n")[1..] == a[1..] + "\n"
    ensures (a + "\n" + b)[0] == (a + "\n")[0] == a[0]
  {
  }

  /** A newline always ends a line, whatever stands before it. */
  lemma {:induction false} LinesConcat(a: string, b: string, line: string)
    ensures LinesFrom(a + "\n" + b, line) == LinesFrom(a + "\n", line) + LinesFrom(b, [])
    decreases |a|
  {
    var s, t := a + "\n" + b, a + "\n";
    if a == [] {
      assert s == ['\n'] + b && s[1..] == b && t[1..] == [];
    } else if a[0] == '\r' && |a| > 1 && a[1] == '\n' {
      LinesConcat(a[2..], b, []);
      assert s[2..] == a[2..] + "\n" + b && t[2..] == a[2..] + "\n";
    } else if a == ['\r'] {
      assert s[2..] == b && t[2..] == [];
    } else if IsBreak(a[0]) {
      LinesConcat(a[1..], b, []);
      AfterFirst(a, b);
    } else {
      LinesConcat(a[1..], b, line + [a[0]]);
      AfterFirst(a, b);
    }
  }

  /** The lines that a list entry contributes once the entries are joined. */
  function Flatten(entries: seq<string>): seq<string> {
    if entries == [] then [] else SplitLines(entries[0] + "\n") + Flatten(entries[1..])
  }

  lemma {:induction false} LinesOfJoin(entries: seq<string>)
    requires entries != []
    ensures SplitLines(Join(entries) + "\n") == Flatten(entries)
  {
    if |entries| == 1 {
      assert Flatten(entries[1..]) == [];
    } else {
      LinesOfJoin(entries[1..]);
      LinesConcat(entries[0], Join(entries[1..]) + "\n", []);
      assert Join(entries) + "\n" == entries[0] + "\n" + (Join(entries[1..]) + "\n");
    }
  }

  lemma {:induction false} FlattenConcat(a: seq<string>, b: seq<string>)
    ensures Flatten(a + b) == Flatten(a) + Flatten(b)
  {
    if a == [] {
      assert a + b == b;
    } else {
      hide SplitLines;
      FlattenConcat(a[1..], b);
      assert (a + b)[1..] == a[1..] + b && (a + b)[0] == a[0];
      var first := SplitLines(a[0] + "\n");
      assert (first + Flatten(a[1..])) + Flatten(b) == first + (Flatten(a[1..]) + Flatten(b));
    }
  }

  lemma {:induction false} FlattenUnbroken(entries: seq<string>)
    requires forall i | 0 <= i < |entries| :: Unbroken(entries[i])
    ensures Flatten(entries) == entries
  {
    if entries != [] {
      LinesOfUnbroken(entries[0], []);
      FlattenUnbroken(entries[1..]);
      assert [] + entries[0] == entries[0];
    }
  }

  // ---- strip ----

  function StripLeft(s: string): (r: string)
    ensures r != [] ==> !IsSpace(r[0])
  {
    if s != [] && IsSpace(s[0]) then StripLeft(s[1..]) else s
  }

  function StripRight(s: string): (r: string)
    ensures r != [] ==> !IsSpace(r[|r| - 1])
  {
    if s != [] && IsSpace(s[|s| - 1]) then StripRight(s[..|s| - 1]) else s
  }

  function Strip(s: string): string { StripRight(StripLeft(s)) }

  predicate Trimmed(s: string) { s != [] && !IsSpace(s[0]) && !IsSpace(s[|s| - 1]) }

  lemma StripTrimmed(s: string)
    requires Trimmed(s)
    ensures Strip(s) == s && StripRight(s) == s
  {
  }

  lemma {:induction false} LeftIsSuffix(s: string)
    ensures var r := StripLeft(s); |r| <= |s| && r == s[|s| - |r|..]
  {
    if s != [] && IsSpace(s[0]) { LeftIsSuffix(s[1..]); }
  }

  lemma {:induction false} RightIsPrefix(s: string)
    ensures var r := StripRight(s); |r| <= |s| && r == s[..|r|]
  {
    if s != [] && IsSpace(s[|s| - 1]) { RightIsPrefix(s[..|s| - 1]); }
  }

  lemma StripEnds(s: string)
    ensures Strip(s) == [] || Trimmed(Strip(s))
    ensures Strip(Strip(s)) == Strip(s)
    ensures forall c | c in Strip(s) :: c in s
  {
    var r, l := Strip(s), StripLeft(s);
    LeftIsSuffix(s);
    RightIsPrefix(l);
    if r != [] { assert r[0] == l[0]; }
    forall c | c in r ensures c in s {
      var i :| 0 <= i < |r| && r[i] == c;
      assert l[i] == c && s[|s| - |l| + i] == c;
    }
  }

  lemma {:induction false} StripRightSpace(s: string, c: char)
    requires IsSpace(c)
    ensures StripRight(s + [c]) == StripRight(s)
  {
    assert (s + [c])[..|s|] == s;
  }

  lemma {:induction false} StripLeftEnd(s: string, c: char)
    requires IsSpace(c)
    ensures StripLeft(s + [c]) == if StripLeft(s) == [] then [] else StripLeft(s) + [c]
  {
    if s == [] {
      assert s + [c] == [c] && [c][1..] == [];
    } else if IsSpace(s[0]) {
      StripLeftEnd(s[1..], c);
      assert (s + [c])[1..] == s[1..] + [c];
    }
  }

  /** Whitespace around a string does not matter to strip. */
  lemma StripPad(s: string, c: char)
    requires IsSpace(c)
    ensures Strip([c] + s) == Strip(s) && Strip(s + [c]) == Strip(s)
  {
    assert ([c] + s)[1..] == s;
    StripLeftEnd(s, c);
    if StripLeft(s) != [] { StripRightSpace(StripLeft(s), c); }
  }

  // ---- joining lines again ----

  /** The only line break in s is the newline. */
  predicate OnlyNewlines(s: string) { forall i | 0 <= i < |s| && IsBreak(s[i]) :: s[i] == '\n' }

  lemma {:induction false} JoinCons(line: string, rest: seq<string>)
    ensures Join([line] + rest) == if rest == [] then line else line + "\n" + Join(rest)
  {
    assert ([line] + rest)[1..] == rest;
  }

  /** Splitting and joining gives s back, up to a final newline. */
  lemma {:induction false} JoinLines(s: string, line: string)
    requires OnlyNewlines(s)
    ensures line + s == Join(LinesFrom(s, line)) || line + s == Join(LinesFrom(s, line)) + "\n"
    ensures s != [] && s[|s| - 1] != '\n' ==> line + s == Join(LinesFrom(s, line))
    ensures s == [] ==> line + s == Join(LinesFrom(s, line))
    decreases |s|
  {
    if s == [] {
      assert line + s == line;
      assert line != [] ==> Join([line]) == line;
    } else if IsBreak(s[0]) {
      var rest := LinesFrom(s[1..], []);
      JoinLines(s[1..], []);
      JoinCons(line, rest);
      assert line + s == line + "\n" + s[1..];
      assert [] + s[1..] == s[1..];
      LinesNonempty(s[1..], []);
    } else {
      JoinLines(s[1..], line + [s[0]]);
      assert line + [s[0]] + s[1..] == line + s;
    }
  }

  lemma LinesNonempty(s: string, line: string)
    ensures LinesFrom(s, line) == [] ==> s == [] && line == []
    decreases |s|
  {
    if s != [] {
      if s[0] == '\r' && |s| > 1 && s[1] == '\n' {}
      else if IsBreak(s[0]) {}
      else { LinesNonempty(s[1..], line + [s[0]]); }
    }
  }

  /** A final newline adds at most an empty line. */
  lemma {:induction false} LinesOfTerminated(s: string, line: string)
    requires '\r' !in s
    ensures LinesFrom(s + "\n", line) == LinesFrom(s, line) || LinesFrom(s + "\n", line) == LinesFrom(s, line) + [[]]
    decreases |s|
  {
    if s == [] {
      assert (s + "\n")[1..] == [];
    } else {
      assert (s + "\n")[1..] == s[1..] + "\n" && s[0] in s;
      if IsBreak(s[0]) {
        LinesOfTerminated(s[1..], []);
        assert [line] + (LinesFrom(s[1..], []) + [[]]) == ([line] + LinesFrom(s[1..], [])) + [[]];
      } else {
        LinesOfTerminated(s[1..], line + [s[0]]);
      }
    }
  }

  lemma {:induction false} JoinSnocEmpty(lines: seq<string>)
    ensures Join(lines + [[]]) == if lines == [] then [] else Join(lines) + "\n"
  {
    if lines == [] {
      assert lines + [[]] == [[]];
    } else {
      JoinSnocEmpty(lines[1..]);
      assert (lines + [[]])[1..] == lines[1..] + [[]];
      if |lines| == 1 { assert lines[1..] == []; }
    }
  }
}
