/** Reading the rendered units back and comparing them with the units they should be
    (src/book2skill/application/content_integrity.py). */
module ContentIntegrity {
  import opened Knowledge
  import opened Text
  import opened References

  datatype Section = Section(id: string, content: string)

  datatype Parsed = Parsed(sections: seq<Section>, refs: seq<string>, malformed: nat) {
    function Plus(p: Parsed): Parsed { Parsed(sections + p.sections, refs + p.refs, malformed + p.malformed) }
  }

  // ---- one line ----

  /** The id in a marker line, at least one character without carriage return or newline. */
  function MarkedId(line: string, prefix: string): Option<string> {
    if |line| > |prefix| + |CLOSE| && prefix <= line && line[|line| - |CLOSE|..] == CLOSE
    then
      var id := line[|prefix|..|line| - |CLOSE|];
      if '\r' in id || '\n' in id then None else Some(id)
    else None
  }

  /** Leading characters that are neither space nor, if stop is set, a slash. */
  function Word(s: string, stop: bool): (w: string)
    ensures w <= s
  {
    if s == [] || IsSpace(s[0]) || (stop && s[0] == '/') then [] else [s[0]] + Word(s[1..], stop)
  }

  /** A bullet that names a source block: "- source / block", whatever follows the block. */
  function RefOf(line: string): Option<string> {
    var bullet := StripLeft(line);
    if |bullet| < 2 || bullet[0] != '-' || !IsSpace(bullet[1]) then None
    else
      var rest := StripLeft(bullet[1..]);
      var source := Word(rest, true);
      var slash := StripLeft(rest[|source|..]);
      if source == [] || slash == [] || slash[0] != '/' then None
      else
        var block := Word(StripLeft(slash[1..]), false);
        if block == [] then None else Some(source + " / " + block)
  }

  predicate IsTitle(line: string) { Strip(line) in {CONDITIONS, EXCEPTIONS, SOURCES} }

  // ---- one section ----

  /** The lines before the first title. */
  function ContentLines(body: seq<string>): seq<string> {
    if body == [] || IsTitle(body[0]) then [] else [body[0]] + ContentLines(body[1..])
  }

  /** The references among the lines after a Sources title. */
  function RefsIn(body: seq<string>, inSources: bool): seq<string> {
    if body == [] then []
    else if Strip(body[0]) == SOURCES then RefsIn(body[1..], true)
    else (if inSources && RefOf(body[0]).Some? then [RefOf(body[0]).value] else []) + RefsIn(body[1..], inSources)
  }

  function EndOf(segment: seq<string>, id: string, i: nat): Option<nat>
    decreases |segment| - i
  {
    if i >= |segment| then None
    else if MarkedId(segment[i], END) == Some(id) then Some(i)
    else EndOf(segment, id, i + 1)
  }

  /** The lines from one start marker up to the next. */
  function ParseSegment(segment: seq<string>, id: string): Parsed {
    if |segment| < 2 || segment[1] != "## " + id then Parsed([], [], 1)
    else
      var end := EndOf(segment, id, 2);
      if end.None? then Parsed([], [], 1)
      else
        EndInRange(segment, id, 2);
        var body := segment[2..end.value];
        Parsed([Section(id, Strip(Join(ContentLines(body))))], RefsIn(body, false), 0)
  }

  lemma EndInRange(segment: seq<string>, id: string, i: nat)
    ensures EndOf(segment, id, i).Some? ==> i <= EndOf(segment, id, i).value < |segment|
    decreases |segment| - i
  {
    if i < |segment| && MarkedId(segment[i], END) != Some(id) { EndInRange(segment, id, i + 1); }
  }

  predicate IsStart(line: string) { MarkedId(line, START).Some? }

  /** How many lines come before the next start marker. */
  function ToStart(lines: seq<string>): (n: nat)
    ensures n <= |lines|
  {
    if lines == [] || IsStart(lines[0]) then 0 else 1 + ToStart(lines[1..])
  }

  /** A file: every start marker opens a segment. */
  function Parse(lines: seq<string>): Parsed
    decreases |lines|
  {
    if lines == [] then Parsed([], [], 0)
    else if !IsStart(lines[0]) then Parse(lines[1..])
    else
      var n := 1 + ToStart(lines[1..]);
      ParseSegment(lines[..n], Strip(MarkedId(lines[0], START).value)).Plus(Parse(lines[n..]))
  }

  // ---- the scanning loops ----

  method ContentOf(body: seq<string>) returns (content: string)
    ensures content == Strip(Join(ContentLines(body)))
  {
    hide IsTitle, Strip, Join;
    var contentLines := [];
    var i := 0;
    while i < |body| && !IsTitle(body[i])
      invariant i <= |body| && ContentLines(body) == contentLines + ContentLines(body[i..])
    {
      assert body[i..][0] == body[i] && body[i..][1..] == body[i + 1..];
      contentLines := contentLines + [body[i]];
      i := i + 1;
    }
    assert ContentLines(body[i..]) == [] by {
      if i < |body| { assert body[i..][0] == body[i]; }
    }
    assert contentLines + [] == contentLines;
    content := Strip(Join(contentLines));
  }

  method RefsOf(body: seq<string>) returns (refs: seq<string>)
    ensures refs == RefsIn(body, false)
  {
    hide RefOf, Strip;
    refs := [];
    var inSources := false;
    for i := 0 to |body|
      invariant refs + RefsIn(body[i..], inSources) == RefsIn(body, false)
    {
      assert body[i..][0] == body[i] && body[i..][1..] == body[i + 1..];
      if Strip(body[i]) == SOURCES {
        inSources := true;
      } else if inSources {
        var ref := RefOf(body[i]);
        if ref.Some? { refs := refs + [ref.value]; }
      }
    }
  }

  /** The start markers of a file, by line number. */
  function Starts(lines: seq<string>, i: nat): (starts: seq<nat>)
    ensures forall k | 0 <= k < |starts| :: i <= starts[k] < |lines|
    decreases |lines| - i
  {
    if i >= |lines| then [] else (if IsStart(lines[i]) then [i] else []) + Starts(lines, i + 1)
  }

  /** Where the segment that a marker opens ends. */
  function SegmentEnd(lines: seq<string>, i: nat): (end: nat)
    requires i < |lines|
    ensures i < end <= |lines|
  {
    i + 1 + ToStart(lines[i + 1..])
  }

  /** The first marker from i on, or the end; what lies before it is skipped. */
  function FirstStart(lines: seq<string>, i: nat): (at: nat)
    requires i <= |lines|
    ensures i <= at <= |lines|
  {
    i + ToStart(lines[i..])
  }

  lemma {:induction false} Skip(lines: seq<string>, i: nat)
    requires i <= |lines|
    ensures Parse(lines[i..]) == Parse(lines[FirstStart(lines, i)..])
    decreases |lines| - i
  {
    hide MarkedId, ParseSegment, Strip;
    if i < |lines| {
      assert lines[i..][0] == lines[i] && lines[i..][1..] == lines[i + 1..];
      if !IsStart(lines[i]) { Skip(lines, i + 1); }
    }
  }

  function MarkerAt(lines: seq<string>, starts: seq<nat>, k: nat): nat { if k < |starts| then starts[k] else |lines| }

  predicate Linked(lines: seq<string>, starts: seq<nat>, k: nat)
    requires k < |starts| && starts[k] < |lines|
  {
    IsStart(lines[starts[k]]) && SegmentEnd(lines, starts[k]) == MarkerAt(lines, starts, k + 1)
  }

  /** The markers delimit the segments. */
  lemma {:induction false} Chain(lines: seq<string>, i: nat)
    requires i <= |lines|
    ensures var starts := Starts(lines, i);
            && FirstStart(lines, i) == MarkerAt(lines, starts, 0)
            && forall k | 0 <= k < |starts| :: Linked(lines, starts, k)
    decreases |lines| - i
  {
    if i < |lines| {
      hide IsStart, SegmentEnd, FirstStart;
      Chain(lines, i + 1);
      Ends(lines, i);
      var rest, starts := Starts(lines, i + 1), Starts(lines, i);
      if IsStart(lines[i]) {
        assert starts == [i] + rest;
        forall k | 0 <= k < |starts| ensures Linked(lines, starts, k) {
          assert k > 0 ==> starts[k] == rest[k - 1] && Linked(lines, rest, k - 1);
        }
      } else {
        assert starts == rest;
      }
    }
  }

  lemma Ends(lines: seq<string>, i: nat)
    requires i < |lines|
    ensures SegmentEnd(lines, i) == FirstStart(lines, i + 1)
    ensures FirstStart(lines, i) == if IsStart(lines[i]) then i else FirstStart(lines, i + 1)
  {
    hide IsStart;
    assert lines[i..][0] == lines[i] && lines[i..][1..] == lines[i + 1..];
  }

  lemma ParseUnfold(lines: seq<string>, i: nat)
    requires i < |lines| && IsStart(lines[i])
    ensures var end := SegmentEnd(lines, i);
            Parse(lines[i..]) == ParseSegment(lines[i..end], Strip(MarkedId(lines[i], START).value)).Plus(Parse(lines[end..]))
  {
    hide MarkedId, ParseSegment, Strip;
    var rest, n := lines[i..], ToStart(lines[i + 1..]);
    assert rest[0] == lines[i] && rest[1..] == lines[i + 1..];
    assert rest[..1 + n] == lines[i..i + 1 + n] && rest[1 + n..] == lines[i + 1 + n..];
  }

  /** Read one file, by the loops of the program: first the markers, then the segment of each. */
  method ParseFile(text: string) returns (parsed: Parsed)
    ensures parsed == Parse(SplitLines(text))
  {
    hide MarkedId, ParseSegment, Strip, SplitLines, Parse, IsStart, Starts, ToStart, SegmentEnd, FirstStart;
    var lines := SplitLines(text);
    var markers := FindMarkers(lines);
    Chain(lines, 0);
    Skip(lines, 0);
    assert lines[0..] == lines;
    parsed := Parsed([], [], 0);
    for k := 0 to |markers|
      invariant parsed.Plus(Parse(lines[MarkerAt(lines, markers, k)..])) == Parse(lines)
    {
      var start := markers[k];
      var end := if k + 1 < |markers| then markers[k + 1] else |lines|;
      assert Linked(lines, markers, k) && (k + 1 < |markers| ==> Linked(lines, markers, k + 1));
      ParseUnfold(lines, start);
      var more := ReadSegment(lines, start, end);
      PlusAssociates(parsed, more, Parse(lines[end..]));
      parsed := parsed.Plus(more);
    }
    assert lines[|lines|..] == [];
    NothingLeft(parsed);
  }

  lemma PlusAssociates(a: Parsed, b: Parsed, c: Parsed)
    ensures a.Plus(b).Plus(c) == a.Plus(b.Plus(c))
  {
    assert a.sections + b.sections + c.sections == a.sections + (b.sections + c.sections);
    assert a.refs + b.refs + c.refs == a.refs + (b.refs + c.refs);
  }

  lemma NothingLeft(parsed: Parsed)
    ensures parsed.Plus(Parse([])) == parsed
  {
    assert parsed.sections + [] == parsed.sections && parsed.refs + [] == parsed.refs;
  }

  method FindMarkers(lines: seq<string>) returns (markers: seq<nat>)
    ensures markers == Starts(lines, 0)
  {
    markers := [];
    for i := 0 to |lines|
      invariant markers + Starts(lines, i) == Starts(lines, 0)
    {
      if IsStart(lines[i]) { markers := markers + [i]; }
    }
  }

  /** The lines between two markers, by line number: the heading, the end marker, content and references. */
  method ReadSegment(lines: seq<string>, start: nat, end: nat) returns (parsed: Parsed)
    requires start < end <= |lines| && IsStart(lines[start])
    requires end < |lines| ==> IsStart(lines[end])
    ensures parsed == ParseSegment(lines[start..end], Strip(MarkedId(lines[start], START).value))
  {
    hide MarkedId, Strip, Join, ContentLines, RefsIn;
    var id := Strip(MarkedId(lines[start], START).value);
    ghost var segment := lines[start..end];
    if start + 1 >= |lines| || lines[start + 1] != "## " + id {
      assert |segment| >= 2 ==> segment[1] == lines[start + 1];
      return Parsed([], [], 1);
    }
    if start + 1 == end { HeadingIsNoMarker(id); }
    assert |segment| >= 2 && segment[1] == lines[start + 1];
    var endMarker := None;
    var i := start + 2;
    while i < end && endMarker.None?
      invariant start + 2 <= i <= end
      invariant endMarker.None? ==> EndOf(segment, id, 2) == EndOf(segment, id, i - start)
      invariant endMarker.Some? ==> start + 2 <= endMarker.value < end && EndOf(segment, id, 2) == Some(endMarker.value - start)
      decreases end - i, endMarker.None?
    {
      assert segment[i - start] == lines[i];
      if MarkedId(lines[i], END) == Some(id) { endMarker := Some(i); } else { i := i + 1; }
    }
    if endMarker.None? { return Parsed([], [], 1); }
    var body := lines[start + 2..endMarker.value];
    SliceOfSlice(lines, start, end, start + 2, endMarker.value);
    var content := ContentOf(body);
    var refs := RefsOf(body);
    return Parsed([Section(id, content)], refs, 0);
  }

  lemma SliceOfSlice(lines: seq<string>, start: nat, end: nat, a: nat, b: nat)
    requires start <= a <= b <= end <= |lines|
    ensures lines[a..b] == lines[start..end][a - start..b - start]
  {
    var part := lines[start..end];
    forall j | 0 <= j < b - a ensures part[a - start..b - start][j] == lines[a..b][j] {
      assert part[a - start + j] == lines[a + j];
    }
  }

  lemma HeadingIsNoMarker(id: string)
    ensures !IsStart("## " + id)
  {
    assert ("## " + id)[0] == '#';
    assert START[0] == '<';
  }

  // ---- the comparison ----

  /** Content as it is compared: lines joined by newlines, without surrounding whitespace. */
  function Normalized(content: string): string { Strip(Join(SplitLines(Newlines(content)))) }

  /** Turning carriage returns into newlines keeps the lines. */
  lemma {:induction false} SameLines(s: string, line: string)
    ensures LinesFrom(Newlines(s), line) == LinesFrom(s, line)
    decreases |s|
  {
    if s != [] {
      var n := Newlines(s);
      if s[0] == '\r' {
        var rest := if |s| > 1 && s[1] == '\n' then s[2..] else s[1..];
        assert n[0] == '\n' && n[1..] == Newlines(rest);
        SameLines(rest, []);
      } else {
        assert n[0] == s[0] && n[1..] == Newlines(s[1..]);
        SameLines(s[1..], if IsBreak(s[0]) then [] else line + [s[0]]);
      }
    }
  }

  /** What a normalized content is: its lines without the whitespace around the whole. A content without outer
      whitespace whose lines end in plain newlines is its own normal form, so nothing of it can be lost. */
  lemma NormalizedIs(content: string)
    ensures Normalized(content) == Strip(Join(SplitLines(content)))
    ensures Trimmed(content) && OnlyNewlines(content) ==> Normalized(content) == content
  {
    SameLines(content, []);
    if Trimmed(content) && OnlyNewlines(content) {
      JoinLines(content, []);
      assert [] + content == content;
      StripTrimmed(content);
    }
  }

  function Nothing(): Parsed { Parsed([], [], 0) }

  /** All reference files but the provenance ledger; a file that cannot be decoded is malformed. */
  function ParseAll(files: seq<File>): Parsed {
    if files == [] then Nothing()
    else
      var file := files[|files| - 1];
      ParseAll(files[..|files| - 1]).Plus(
        if file.text.None? then Parsed([], [], 1)
        else if file.name == LEDGER then Nothing()
        else Parse(SplitLines(file.text.value)))
  }

  function SectionIds(sections: seq<Section>): seq<string> { seq(|sections|, i requires 0 <= i < |sections| => sections[i].id) }

  function UnitIds(units: seq<Unit>): seq<string> { seq(|units|, i requires 0 <= i < |units| => units[i].unitId) }

  function RefTexts(refs: seq<Ref>): seq<string> { seq(|refs|, i requires 0 <= i < |refs| => RefText(refs[i])) }

  function ExpectedRefs(units: seq<Unit>): seq<string> {
    if units == [] then [] else ExpectedRefs(units[..|units| - 1]) + RefTexts(units[|units| - 1].sourceRefs)
  }

  datatype Findings = Findings(
    missing: set<string>, extra: set<string>, duplicate: set<string>, mismatch: set<string>,
    missingRefs: set<string>, extraRefs: set<string>, malformed: nat)

  predicate NoFindings(f: Findings) {
    f.missing == {} && f.extra == {} && f.duplicate == {} && f.mismatch == {} && f.missingRefs == {} && f.extraRefs == {}
  }

  /** The unit that stands for an id; a later one in the list would replace it. */
  function ById(units: seq<Unit>, id: string): (u: Option<Unit>)
    ensures u.Some? ==> u.value in units && u.value.unitId == id
    ensures u.None? ==> forall v | v in units :: v.unitId != id
  {
    if units == [] then None
    else
      assert units == units[..|units| - 1] + [units[|units| - 1]];
      if units[|units| - 1].unitId == id then Some(units[|units| - 1]) else ById(units[..|units| - 1], id)
  }

  predicate Mismatched(sections: seq<Section>, u: Unit) {
    exists i | 0 <= i < |sections| :: sections[i].id == u.unitId && Normalized(sections[i].content) != Normalized(u.content)
  }

  /** What each finding says. */
  ghost predicate Reports(f: Findings, p: Parsed, expected: seq<Unit>) {
    var found, wanted := multiset(SectionIds(p.sections)), multiset(UnitIds(expected));
    var refs, wantedRefs := multiset(p.refs), multiset(ExpectedRefs(expected));
    && (forall id :: id in f.missing <==> id in wanted && id !in found)
    && (forall id :: id in f.extra <==> id in found && id !in wanted)
    && (forall id :: id in f.duplicate <==> found[id] > 1 || wanted[id] > 1)
    && (forall id :: id in f.mismatch <==> ById(expected, id).Some? && Mismatched(p.sections, ById(expected, id).value))
    && (forall r :: r in f.missingRefs <==> refs[r] < wantedRefs[r])
    && (forall r :: r in f.extraRefs <==> refs[r] > wantedRefs[r])
    && f.malformed == p.malformed
  }

  method CheckContent(files: seq<File>, units: seq<Unit>) returns (f: Findings)
    ensures Reports(f, ParseAll(files), Usable(units))
  {
    hide Parse, SplitLines, Normalized, Join;
    var expected := UsableUnits(units);
    var p := Nothing();
    for i := 0 to |files|
      invariant p == ParseAll(files[..i])
    {
      assert files[..i + 1][..i] == files[..i];
      if files[i].text.None? {
        p := p.(malformed := p.malformed + 1);
        assert p == ParseAll(files[..i]).Plus(Parsed([], [], 1));
      } else if files[i].name != LEDGER {
        var more := ParseFile(files[i].text.value);
        p := p.Plus(more);
      } else {
        assert p == p.Plus(Nothing());
      }
    }
    assert files[..|files|] == files;
    f := Compare(p, expected);
  }

  method Compare(p: Parsed, expected: seq<Unit>) returns (f: Findings)
    ensures Reports(f, p, expected)
  {
    hide Normalized, SectionIds, UnitIds, Mismatched;
    var foundIds, wantedIds := SectionIds(p.sections), UnitIds(expected);
    var found, wanted := multiset(foundIds), multiset(wantedIds);
    var wantedRefList := ExpectedRefs(expected);
    var refs, wantedRefs := multiset(p.refs), multiset(wantedRefList);
    var ids := (set id | id in foundIds) + (set id | id in wantedIds);
    var allRefs := (set r | r in p.refs) + (set r | r in wantedRefList);
    var mismatch := {};
    for i := 0 to |expected|
      invariant forall id :: id in mismatch <==> exists k | 0 <= k < i :: expected[k].unitId == id && ById(expected, id).Some? && Mismatched(p.sections, ById(expected, id).value)
    {
      var id := expected[i].unitId;
      assert expected[i] in expected;
      var unit := ById(expected, id);
      if Mismatched(p.sections, unit.value) { mismatch := mismatch + {id}; }
    }
    forall id | ById(expected, id).Some? ensures exists k | 0 <= k < |expected| :: expected[k].unitId == id {
      var k :| 0 <= k < |expected| && expected[k] == ById(expected, id).value;
    }
    f := Findings(
      (set id | id in ids && id in wanted && id !in found),
      (set id | id in ids && id in found && id !in wanted),
      (set id | id in ids && (found[id] > 1 || wanted[id] > 1)),
      mismatch,
      (set r | r in allRefs && refs[r] < wantedRefs[r]),
      (set r | r in allRefs && refs[r] > wantedRefs[r]),
      p.malformed);
  }

  // ---- what empty findings mean ----

  ghost predicate DistinctIds(units: seq<Unit>) { forall i, j | 0 <= i < j < |units| :: units[i].unitId != units[j].unitId }

  /** Every usable unit is found exactly once, with its normalized content; nothing else is found; and the
      source references are exactly those of the units. */
  ghost predicate Faithful(p: Parsed, expected: seq<Unit>) {
    && DistinctIds(expected)
    && multiset(SectionIds(p.sections)) == multiset(UnitIds(expected))
    && (forall i, u | 0 <= i < |p.sections| && u in expected && u.unitId == p.sections[i].id ::
          Normalized(p.sections[i].content) == Normalized(u.content))
    && multiset(p.refs) == multiset(ExpectedRefs(expected))
  }

  lemma {:induction false} CountIs<T>(s: seq<T>, x: T)
    ensures multiset(s)[x] <= 1 <==> forall i, j | 0 <= i < j < |s| && s[i] == x :: s[j] != x
    ensures multiset(s)[x] == 0 <==> x !in s
  {
    if s != [] {
      var init, last := s[..|s| - 1], s[|s| - 1];
      assert s == init + [last];
      CountIs(init, x);
      if last == x && x in init {
        var i :| 0 <= i < |init| && init[i] == x;
        assert s[i] == x && s[|s| - 1] == x;
      }
      if multiset(init)[x] > 1 {
        var i, j :| 0 <= i < j < |init| && init[i] == x && init[j] == x;
        assert s[i] == x && s[j] == x;
      }
    }
  }

  lemma CleanIsFaithful(p: Parsed, expected: seq<Unit>, f: Findings)
    requires Reports(f, p, expected) && NoFindings(f)
    ensures Faithful(p, expected)
  {
    hide Normalized, ExpectedRefs;
    DistinctIff(expected);
    var found, wanted := multiset(SectionIds(p.sections)), multiset(UnitIds(expected));
    var refs, wantedRefs := multiset(p.refs), multiset(ExpectedRefs(expected));
    forall id ensures found[id] == wanted[id] { assert id !in f.missing && id !in f.extra && id !in f.duplicate; }
    forall r ensures refs[r] == wantedRefs[r] { assert r !in f.missingRefs && r !in f.extraRefs; }
    assert found == wanted && refs == wantedRefs;
    forall id ensures wanted[id] <= 1 { assert id !in f.duplicate; }
    forall i, u | 0 <= i < |p.sections| && u in expected && u.unitId == p.sections[i].id
      ensures Normalized(p.sections[i].content) == Normalized(u.content)
    {
      OnlyOne(expected, u);
      assert u.unitId !in f.mismatch;
    }
  }

  lemma FaithfulIsClean(p: Parsed, expected: seq<Unit>, f: Findings)
    requires Reports(f, p, expected) && Faithful(p, expected)
    ensures NoFindings(f)
  {
    hide Normalized, ExpectedRefs;
    DistinctIff(expected);
    forall id ensures id !in f.mismatch {
      var u := ById(expected, id);
      assert u.Some? ==> u.value in expected && !Mismatched(p.sections, u.value);
    }
  }

  /** For any files: no finding about units, content or references, if and only if the files hold exactly
      the expected units. */
  lemma CleanIffFaithful(p: Parsed, expected: seq<Unit>, f: Findings)
    requires Reports(f, p, expected)
    ensures NoFindings(f) <==> Faithful(p, expected)
  {
    hide Reports, NoFindings, Faithful;
    if NoFindings(f) {
      CleanIsFaithful(p, expected, f);
    }
    if Faithful(p, expected) {
      FaithfulIsClean(p, expected, f);
    }
  }

  lemma DistinctIff(units: seq<Unit>)
    ensures DistinctIds(units) <==> forall id :: multiset(UnitIds(units))[id] <= 1
  {
    var ids := UnitIds(units);
    forall id { CountIs(ids, id); }
    if !DistinctIds(units) {
      var i, j :| 0 <= i < j < |units| && units[i].unitId == units[j].unitId;
      assert ids[i] == ids[j];
      assert multiset(ids)[ids[i]] > 1;
    }
    if id :| multiset(ids)[id] > 1 {
      var i, j :| 0 <= i < j < |ids| && ids[i] == id && ids[j] == id;
      assert units[i].unitId == units[j].unitId;
    }
  }

  lemma OnlyOne(units: seq<Unit>, u: Unit)
    requires DistinctIds(units) && u in units
    ensures ById(units, u.unitId) == Some(u)
  {
    var v := ById(units, u.unitId).value;
    var i :| 0 <= i < |units| && units[i] == u;
    var j :| 0 <= j < |units| && units[j] == v;
  }
}
