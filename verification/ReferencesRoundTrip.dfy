/** Printing reference files and checking them undo each other. */
module ReferencesRoundTrip {
  import opened Knowledge
  import opened Text
  import opened References
  import opened ContentIntegrity

  // ---- what a unit must not contain ----

  /** A line that the checker does not take for a marker of the unit or for a title. */
  predicate Plain(line: string, id: string) {
    !IsStart(line) && MarkedId(line, END) != Some(id) && !IsTitle(line)
  }

  ghost predicate AllPlain(lines: seq<string>, id: string) { forall l | l in lines :: Plain(l, id) }

  /** No spaces, and, in a source id, no slash. */
  predicate SaneRef(r: Ref) {
    && r.sourceId != [] && (forall i | 0 <= i < |r.sourceId| :: !IsSpace(r.sourceId[i]) && r.sourceId[i] != '/')
    && r.blockId != [] && (forall i | 0 <= i < |r.blockId| :: !IsSpace(r.blockId[i]))
    && (r.quote.Some? ==> Unbroken(r.quote.value))
  }

  ghost predicate Printable(u: Unit) {
    && Trimmed(u.unitId) && Unbroken(u.unitId)
    && (forall r | r in u.sourceRefs :: SaneRef(r))
    && AllPlain(SplitLines(Newlines(u.content) + "\n"), u.unitId)
    && AllPlain(Flatten(Bullets(u.conditions)), u.unitId)
    && AllPlain(Flatten(Bullets(u.exceptions)), u.unitId)
  }

  // ---- single lines ----

  lemma SpaceOrNot(s: string)
    requires forall i | 0 <= i < |s| :: !IsSpace(s[i])
    ensures Unbroken(s)
  {
  }

  /** The id of a marker line is read back. */
  lemma MarkerRead(prefix: string, id: string)
    requires id != [] && Unbroken(id)
    ensures MarkedId(prefix + id + CLOSE, prefix) == Some(id)
  {
    var line := prefix + id + CLOSE;
    assert line[|prefix|..|line| - |CLOSE|] == id;
    assert line[|line| - |CLOSE|..] == CLOSE;
    assert line[..|prefix|] == prefix;
  }

  /** A line that does not begin with the angle bracket of a marker. */
  lemma NoMarker(line: string, prefix: string)
    requires prefix != [] && (line == [] || line[0] != prefix[0])
    ensures MarkedId(line, prefix).None?
  {
  }

  lemma StartIsNoEnd(id: string, other: string)
    ensures MarkedId(START + id + CLOSE, END).None? && !IsStart(END + other + CLOSE)
  {
    var a, b := START + id + CLOSE, END + other + CLOSE;
    assert START[21] == 's' && END[21] == 'e';
    assert a[21] == 's' && b[21] == 'e';
    NoPrefix(END, a, 21);
    NoPrefix(START, b, 21);
  }

  lemma NoPrefix(p: string, s: string, k: nat)
    requires k < |p| && k < |s| && p[k] != s[k]
    ensures !(p <= s)
  {
  }

  lemma BulletPlain(line: string, id: string)
    requires |line| >= 2 && line[0] == '-'
    ensures Plain(line, id)
  {
    NoMarker(line, START);
    NoMarker(line, END);
    TitleStarts(line);
  }

  lemma {:induction false} StripRightKeepsHead(s: string)
    requires s != [] && !IsSpace(s[0])
    ensures StripRight(s) != [] && StripRight(s)[0] == s[0]
  {
    if |s| > 1 && IsSpace(s[|s| - 1]) { StripRightKeepsHead(s[..|s| - 1]); }
  }

  /** Only a line whose first visible character is an asterisk can be a title. */
  lemma TitleStarts(line: string)
    ensures line != [] && !IsSpace(line[0]) && line[0] != '*' ==> !IsTitle(line)
    ensures line == [] ==> !IsTitle(line)
  {
    assert CONDITIONS[0] == '*' && EXCEPTIONS[0] == '*' && SOURCES[0] == '*';
    if line != [] && !IsSpace(line[0]) && line[0] != '*' {
      StripRightKeepsHead(line);
      assert Strip(line)[0] == line[0];
    }
  }

  lemma TitlesAreTitles()
    ensures Strip(CONDITIONS) == CONDITIONS && Strip(EXCEPTIONS) == EXCEPTIONS && Strip(SOURCES) == SOURCES
    ensures Unbroken(CONDITIONS) && Unbroken(EXCEPTIONS) && Unbroken(SOURCES)
    ensures CONDITIONS != SOURCES && EXCEPTIONS != SOURCES && Strip([]) == []
  {
    assert Trimmed(CONDITIONS) && Trimmed(EXCEPTIONS) && Trimmed(SOURCES);
    assert |CONDITIONS| != |SOURCES| && |EXCEPTIONS| != |SOURCES|;
  }

  // ---- references ----

  lemma {:induction false} WordStops(w: string, rest: string, stop: bool)
    requires forall i | 0 <= i < |w| :: !IsSpace(w[i]) && (stop ==> w[i] != '/')
    requires rest == [] || IsSpace(rest[0]) || (stop && rest[0] == '/')
    ensures Word(w + rest, stop) == w
  {
    if w == [] {
      assert w + rest == rest;
    } else {
      assert (w + rest)[1..] == w[1..] + rest;
      WordStops(w[1..], rest, stop);
    }
  }

  function QuoteText(r: Ref): string {
    if r.quote.Some? && r.quote.value != [] then " \U{2014} \"" + r.quote.value + "\"" else ""
  }

  /** A printed reference is read back. */
  lemma RefRead(r: Ref)
    requires SaneRef(r)
    ensures RefOf(RefLine(r)) == Some(RefText(r)) && Unbroken(RefLine(r))
    ensures |RefLine(r)| >= 2 && RefLine(r)[0] == '-'
  {
    hide StripLeft, Word, IsSpace, QuoteText;
    var line := RefLine(r);
    var afterBlock := r.blockId + QuoteText(r);
    BulletRead(r);
    SourceRead(r, " / " + afterBlock);
    BlockRead(r);
    RefUnbroken(r);
  }

  lemma BulletRead(r: Ref)
    requires SaneRef(r)
    ensures var line := RefLine(r);
            |line| >= 2 && line[0] == '-' && IsSpace(line[1]) && StripLeft(line) == line
            && StripLeft(line[1..]) == r.sourceId + (" / " + (r.blockId + QuoteText(r)))
  {
    var rest := r.sourceId + (" / " + (r.blockId + QuoteText(r)));
    assert RefLine(r) == "- " + rest;
    assert RefLine(r)[1..] == " " + rest;
    assert (" " + rest)[1..] == rest;
  }

  lemma SourceRead(r: Ref, rest: string)
    requires SaneRef(r) && rest != [] && rest[0] == ' '
    ensures Word(r.sourceId + rest, true) == r.sourceId && (r.sourceId + rest)[|r.sourceId|..] == rest
  {
    WordStops(r.sourceId, rest, true);
  }

  lemma BlockRead(r: Ref)
    requires SaneRef(r)
    ensures var rest := r.blockId + QuoteText(r);
            && StripLeft(" / " + rest) == "/ " + rest
            && ("/ " + rest)[0] == '/' && StripLeft(("/ " + rest)[1..]) == rest
            && Word(rest, false) == r.blockId
  {
    hide Unbroken;
    var rest, tail := r.blockId + QuoteText(r), QuoteText(r);
    assert tail != [] ==> tail[0] == ' ';
    WordStops(r.blockId, tail, false);
    hide QuoteText;
    Slashed(rest);
  }

  lemma Slashed(rest: string)
    requires rest != [] && !IsSpace(rest[0])
    ensures StripLeft(" / " + rest) == "/ " + rest && StripLeft(("/ " + rest)[1..]) == rest
  {
    assert (" / " + rest)[1..] == "/ " + rest;
    assert ("/ " + rest)[1..] == " " + rest;
    assert (" " + rest)[1..] == rest;
  }

  lemma RefUnbroken(r: Ref)
    requires SaneRef(r)
    ensures Unbroken(RefLine(r))
  {
    SpaceOrNot(r.sourceId);
    SpaceOrNot(r.blockId);
    assert Unbroken("- ") && Unbroken(" / ") && Unbroken(" \U{2014} \"") && Unbroken("\"");
  }

  // ---- the lines of one unit ----

  /** The lines between the heading and the end marker. */
  function Body(u: Unit): seq<string> {
    [""] + SplitLines(Newlines(u.content) + "\n") + Sections(u)
  }

  function Sections(u: Unit): seq<string> {
    Flatten(Titled(CONDITIONS, Bullets(u.conditions))) + Flatten(Titled(EXCEPTIONS, Bullets(u.exceptions)))
    + Flatten(Titled(SOURCES, RefLines(u.sourceRefs))) + [""]
  }

  function Lines(u: Unit): seq<string> {
    [START + u.unitId + CLOSE, "## " + u.unitId] + Body(u) + [END + u.unitId + CLOSE]
  }

  lemma FlattenOne(line: string)
    requires Unbroken(line)
    ensures Flatten([line]) == [line]
  {
    FlattenUnbroken([line]);
  }

  /** The entries of a unit, as the lines they become. */
  lemma LinesOfEntries(u: Unit)
    requires Printable(u)
    ensures Flatten(Entries(u)) == Lines(u)
  {
    hide Titled, Bullets, RefLines, SplitLines, Newlines, Flatten;
    var id := u.unitId;
    var a, b := START + id + CLOSE, END + id + CLOSE;
    MarkersUnbroken(id);
    var c, e, r := Titled(CONDITIONS, Bullets(u.conditions)), Titled(EXCEPTIONS, Bullets(u.exceptions)), Titled(SOURCES, RefLines(u.sourceRefs));
    var head, content, tail := [a, "## " + id, ""], [Newlines(u.content)], ["", b];
    assert Entries(u) == head + content + c + e + r + tail;
    FlattenConcat(head + content + c + e + r, tail);
    FlattenConcat(head + content + c + e, r);
    FlattenConcat(head + content + c, e);
    FlattenConcat(head + content, c);
    FlattenConcat(head, content);
    FlattenUnbroken(head);
    FlattenUnbroken(tail);
    ContentFlat(u);
  }

  lemma ContentFlat(u: Unit)
    ensures Flatten([Newlines(u.content)]) == SplitLines(Newlines(u.content) + "\n")
  {
    assert [Newlines(u.content)][1..] == [];
  }

  lemma MarkersUnbroken(id: string)
    requires Unbroken(id)
    ensures Unbroken(START + id + CLOSE) && Unbroken(END + id + CLOSE) && Unbroken("## " + id) && Unbroken("")
  {
    assert Unbroken(START) && Unbroken(END) && Unbroken(CLOSE) && Unbroken("## ");
  }

  // ---- reading the body ----

  lemma {:induction false} ContentLinesPrefix(a: seq<string>, b: seq<string>)
    requires forall l | l in a :: !IsTitle(l)
    ensures ContentLines(a + b) == a + ContentLines(b)
  {
    hide IsTitle;
    if a == [] {
      assert a + b == b;
    } else {
      assert (a + b)[1..] == a[1..] + b;
      ContentLinesPrefix(a[1..], b);
    }
  }

  lemma {:induction false} RefsInPrefix(a: seq<string>, b: seq<string>)
    requires forall l | l in a :: Strip(l) != SOURCES
    ensures RefsIn(a + b, false) == RefsIn(b, false)
  {
    hide Strip, RefOf;
    if a == [] {
      assert a + b == b;
    } else {
      assert (a + b)[1..] == a[1..] + b;
      RefsInPrefix(a[1..], b);
    }
  }

  lemma RefsCons(line: string, rest: seq<string>, ref: string)
    requires Strip(line) != SOURCES && RefOf(line) == Some(ref)
    ensures RefsIn([line] + rest, true) == [ref] + RefsIn(rest, true)
  {
    hide Strip, RefOf;
    assert ([line] + rest)[1..] == rest;
  }

  lemma {:induction false} RefLinesRead(refs: seq<Ref>)
    requires forall r | r in refs :: SaneRef(r)
    ensures RefsIn(RefLines(refs) + [""], true) == RefTexts(refs)
  {
    hide RefLine, RefText, Strip, RefOf, MarkedId;
    if refs == [] {
      assert RefLines(refs) + [""] == [""] && [""][1..] == [];
      TitlesAreTitles();
      EmptyIsNoRef();
    } else {
      EmptyIsNoRef();
      var first, rest := RefLine(refs[0]), RefLines(refs[1..]);
      RefLinesRead(refs[1..]);
      RefRead(refs[0]);
      BulletPlain(first, "");
      PlainIsNoSources(first, "");
      assert RefLines(refs) + [""] == [first] + (rest + [""]);
      RefsCons(first, rest + [""], RefText(refs[0]));
      assert RefTexts(refs) == [RefText(refs[0])] + RefTexts(refs[1..]);
    }
  }

  lemma EmptyIsNoRef()
    ensures RefOf("") == None
  {
  }

  lemma TitledFlat(title: string, lines: seq<string>)
    requires Unbroken(title)
    ensures Flatten(Titled(title, lines)) == if lines == [] then [] else ["", title] + Flatten(lines)
  {
    if lines != [] {
      FlattenConcat(["", title], lines);
      FlattenUnbroken(["", title]);
    }
  }

  lemma {:induction false} RefLinesFlat(refs: seq<Ref>)
    requires forall r | r in refs :: SaneRef(r)
    ensures Flatten(RefLines(refs)) == RefLines(refs)
    ensures forall l | l in RefLines(refs) :: |l| >= 2 && l[0] == '-'
  {
    if refs != [] {
      RefRead(refs[0]);
      RefLinesFlat(refs[1..]);
      FlattenConcat([RefLine(refs[0])], RefLines(refs[1..]));
      FlattenOne(RefLine(refs[0]));
    }
  }

  function Conditions(u: Unit): seq<string> { Flatten(Titled(CONDITIONS, Bullets(u.conditions))) }

  function Exceptions(u: Unit): seq<string> { Flatten(Titled(EXCEPTIONS, Bullets(u.exceptions))) }

  function Sources(u: Unit): seq<string> { Flatten(Titled(SOURCES, RefLines(u.sourceRefs))) }

  lemma SectionsAre(u: Unit)
    ensures Sections(u) == (Conditions(u) + Exceptions(u)) + (Sources(u) + [""])
  {
    hide Flatten, Titled, Bullets, RefLines;
  }

  lemma PartsAre(u: Unit)
    requires Printable(u)
    ensures Sections(u) == (Conditions(u) + Exceptions(u)) + (Sources(u) + [""])
    ensures Conditions(u) == [] || Conditions(u) == ["", CONDITIONS] + Flatten(Bullets(u.conditions))
    ensures Exceptions(u) == [] || Exceptions(u) == ["", EXCEPTIONS] + Flatten(Bullets(u.exceptions))
    ensures Sources(u) == if RefLines(u.sourceRefs) == [] then [] else ["", SOURCES] + RefLines(u.sourceRefs)
  {
    hide Printable, RefLines, Bullets, Flatten, Titled, Sections, Unbroken, Strip, Trimmed, SaneRef, AllPlain;
    SectionsAre(u);
    TitlesAreTitles();
    TitledFlat(CONDITIONS, Bullets(u.conditions));
    TitledFlat(EXCEPTIONS, Bullets(u.exceptions));
    TitledFlat(SOURCES, RefLines(u.sourceRefs));
    PrintableParts(u);
    RefLinesFlat(u.sourceRefs);
  }

  lemma PrintableParts(u: Unit)
    requires Printable(u)
    ensures forall r | r in u.sourceRefs :: SaneRef(r)
    ensures AllPlain(Flatten(Bullets(u.conditions)), u.unitId) && AllPlain(Flatten(Bullets(u.exceptions)), u.unitId)
    ensures AllPlain(SplitLines(Newlines(u.content) + "\n"), u.unitId)
  {
    hide SaneRef, AllPlain, Flatten, Bullets, SplitLines, Newlines, Trimmed, Unbroken;
  }

  /** After the content comes an empty line, and then a title or the end. */
  lemma SectionsShape(u: Unit)
    requires Printable(u)
    ensures var s := Sections(u);
            && s != [] && s[0] == "" && (|s| > 1 ==> IsTitle(s[1]))
            && RefsIn(s, false) == RefTexts(u.sourceRefs)
  {
    hide Printable, RefLines, Bullets, Flatten, RefsIn, RefTexts, Conditions, Exceptions, Sources, Sections, AllPlain;
    TitlesAreTitles();
    PartsAre(u);
    PrintableParts(u);
    var c, e, r := Conditions(u), Exceptions(u), Sources(u);
    NoSourcesTitle(CONDITIONS, Flatten(Bullets(u.conditions)), u.unitId, c);
    NoSourcesTitle(EXCEPTIONS, Flatten(Bullets(u.exceptions)), u.unitId, e);
    RefsInPrefix(c + e, r + [""]);
    SourcesRead(u, r);
  }

  lemma NoSourcesTitle(title: string, lines: seq<string>, id: string, titled: seq<string>)
    requires AllPlain(lines, id) && title in {CONDITIONS, EXCEPTIONS}
    requires titled == [] || titled == ["", title] + lines
    ensures forall l | l in titled :: Strip(l) != SOURCES
  {
    TitlesAreTitles();
    hide Strip;
  }

  lemma SourcesRead(u: Unit, r: seq<string>)
    requires Printable(u)
    requires r == if RefLines(u.sourceRefs) == [] then [] else ["", SOURCES] + RefLines(u.sourceRefs)
    ensures RefsIn(r + [""], false) == RefTexts(u.sourceRefs)
  {
    hide RefLines, Strip, RefTexts;
    TitlesAreTitles();
    RefLinesRead(u.sourceRefs);
    NoRefs(u.sourceRefs);
    if r == [] {
      assert r + [""] == [""] && [""][1..] == [];
      assert RefTexts(u.sourceRefs) == [] by { NoTexts(u.sourceRefs); }
    } else {
      var rest := RefLines(u.sourceRefs) + [""];
      assert r + [""] == ["", SOURCES] + rest;
      assert (["", SOURCES] + rest)[1..] == [SOURCES] + rest && ([SOURCES] + rest)[1..] == rest;
    }
  }

  lemma NoTexts(refs: seq<Ref>)
    ensures RefTexts(refs) == [] <==> refs == []
  {
    assert |RefTexts(refs)| == |refs|;
  }

  /** The content that the checker cuts out is the normalized content. */
  lemma ContentRead(content: string)
    ensures Strip(Join([""] + SplitLines(Newlines(content) + "\n") + [""])) == Normalized(content)
    ensures Normalized(Normalized(content)) == Normalized(content)
  {
    var c := Newlines(content);
    var lines, terminated := SplitLines(c), SplitLines(c + "\n");
    LinesOfTerminated(c, []);
    JoinSnocEmpty(lines);
    PadLines(terminated);
    if terminated == lines + [[]] && lines != [] { StripPad(Join(lines), '\n'); }
    LinesAreUnbroken(c, []);
    JoinOnlyNewlines(lines);
    NormalizedAgain(Join(lines));
  }

  lemma {:induction false} JoinOnlyNewlines(lines: seq<string>)
    requires forall l | l in lines :: Unbroken(l)
    ensures OnlyNewlines(Join(lines))
  {
    if |lines| > 1 {
      assert lines[0] in lines;
      JoinOnlyNewlines(lines[1..]);
    } else if |lines| == 1 {
      assert lines[0] in lines;
    }
  }

  lemma {:induction false} NewlinesKeep(s: string)
    requires '\r' !in s
    ensures Newlines(s) == s
  {
    if s != [] {
      assert '\r' !in s[1..];
      NewlinesKeep(s[1..]);
      assert [s[0]] + s[1..] == s;
    }
  }

  lemma NormalizedAgain(s: string)
    requires OnlyNewlines(s)
    ensures Normalized(Strip(s)) == Strip(s)
  {
    var y := Strip(s);
    StripEnds(s);
    forall i | 0 <= i < |y| && IsBreak(y[i]) ensures y[i] == '\n' {
      assert y[i] in y;
      var j :| 0 <= j < |s| && s[j] == y[i];
    }
    if '\r' in y {
      var i :| 0 <= i < |y| && y[i] == '\r';
      assert IsBreak(y[i]);
    }
    NewlinesKeep(y);
    JoinLines(y, []);
    assert [] + y == y;
  }

  lemma PadLines(lines: seq<string>)
    ensures Strip(Join([""] + lines + [""])) == Strip(Join(lines))
  {
    assert [""] + lines + [""] == [""] + (lines + [""]);
    JoinCons("", lines + [""]);
    JoinSnocEmpty(lines);
    StripPad(Join(lines + [""]), '\n');
    assert Join([""] + (lines + [""])) == ['\n'] + Join(lines + [""]);
    if lines != [] { StripPad(Join(lines), '\n'); }
  }

  // ---- one segment ----

  lemma EndFound(segment: seq<string>, id: string, i: nat)
    requires i < |segment| && MarkedId(segment[|segment| - 1], END) == Some(id)
    requires forall k | i <= k < |segment| - 1 :: MarkedId(segment[k], END) != Some(id)
    ensures EndOf(segment, id, i) == Some(|segment| - 1)
    decreases |segment| - i
  {
    if i < |segment| - 1 { EndFound(segment, id, i + 1); }
  }

  /** Every line between the heading and the end marker is plain or a title, but not a marker. */
  predicate NotMarker(line: string, id: string) { !IsStart(line) && MarkedId(line, END) != Some(id) }

  lemma TitledNotMarkers(title: string, lines: seq<string>, id: string, titled: seq<string>)
    requires title in {CONDITIONS, EXCEPTIONS, SOURCES} && (titled == [] || titled == ["", title] + lines)
    requires forall l | l in lines :: NotMarker(l, id)
    ensures forall l | l in titled :: NotMarker(l, id)
  {
    assert title[0] == '*' && START[0] == '<' && END[0] == '<';
    NoMarker(title, START);
    NoMarker(title, END);
    NoMarker("", START);
    NoMarker("", END);
    hide MarkedId;
  }

  lemma BodyHasNoMarkers(u: Unit)
    requires Printable(u)
    ensures forall l | l in Body(u) :: NotMarker(l, u.unitId)
  {
    hide Printable, RefLines, Bullets, Flatten, MarkedId, SplitLines, IsTitle, Conditions, Exceptions, Sources, Sections, SaneRef;
    var id := u.unitId;
    PartsAre(u);
    PrintableParts(u);
    RefLinesFlat(u.sourceRefs);
    forall l | l in RefLines(u.sourceRefs) ensures NotMarker(l, id) { BulletPlain(l, id); }
    TitledNotMarkers(CONDITIONS, Flatten(Bullets(u.conditions)), id, Conditions(u));
    TitledNotMarkers(EXCEPTIONS, Flatten(Bullets(u.exceptions)), id, Exceptions(u));
    TitledNotMarkers(SOURCES, RefLines(u.sourceRefs), id, Sources(u));
    EmptyIsPlain(id);
  }

  lemma EmptyIsPlain(id: string)
    ensures Plain("", id)
  {
    NoMarker("", START);
    NoMarker("", END);
    TitleStarts("");
  }

  /** What the checker reads from a unit. */
  function Read(u: Unit): Parsed { Parsed([Section(u.unitId, Normalized(u.content))], RefTexts(u.sourceRefs), 0) }

  lemma BodyRead(u: Unit)
    requires Printable(u)
    ensures Strip(Join(ContentLines(Body(u)))) == Normalized(u.content)
    ensures RefsIn(Body(u), false) == RefTexts(u.sourceRefs)
  {
    hide RefsIn, IsTitle, Strip, Join, Normalized, SplitLines, Newlines, Sections, RefTexts, Flatten;
    var lines := SplitLines(Newlines(u.content) + "\n");
    SectionsShape(u);
    EmptyIsPlain(u.unitId);
    TitlesAreTitles();
    var s := Sections(u);
    assert Body(u) == ([""] + lines) + s;
    ContentLinesPrefix([""] + lines, s);
    TitleCuts(s);
    ContentRead(u.content);
    forall l | l in [""] + lines ensures Strip(l) != SOURCES { PlainIsNoSources(l, u.unitId); }
    RefsInPrefix([""] + lines, s);
  }

  lemma PlainIsNoSources(l: string, id: string)
    requires Plain(l, id)
    ensures Strip(l) != SOURCES
  {
  }

  lemma TitleCuts(s: seq<string>)
    requires s != [] && s[0] == "" && (|s| > 1 ==> IsTitle(s[1])) && !IsTitle("")
    ensures ContentLines(s) == [""]
  {
    assert |s| > 1 ==> s[1..][0] == s[1];
  }

  lemma SegmentRead(u: Unit)
    requires Printable(u)
    ensures ParseSegment(Lines(u), u.unitId) == Read(u)
  {
    hide MarkedId, Body, ContentLines, RefsIn, Normalized, Strip, Join, RefTexts;
    var segment, id := Lines(u), u.unitId;
    BodyHasNoMarkers(u);
    MarkerRead(END, id);
    assert segment[1] == "## " + id;
    forall k | 2 <= k < |segment| - 1 ensures MarkedId(segment[k], END) != Some(id) {
      assert segment[k] == Body(u)[k - 2] && Body(u)[k - 2] in Body(u);
    }
    EndFound(segment, id, 2);
    assert segment[2..|segment| - 1] == Body(u);
    BodyRead(u);
  }

  // ---- one file ----

  lemma {:induction false} ToStartOver(a: seq<string>, b: seq<string>)
    requires (forall l | l in a :: !IsStart(l)) && (b == [] || IsStart(b[0]))
    ensures ToStart(a + b) == |a|
  {
    hide IsStart;
    if a == [] {
      assert a + b == b;
    } else {
      assert (a + b)[1..] == a[1..] + b;
      ToStartOver(a[1..], b);
    }
  }

  lemma TailHasNoStart(u: Unit)
    requires Printable(u)
    ensures forall l | l in Lines(u)[1..] :: !IsStart(l)
  {
    hide MarkedId, Body;
    BodyHasNoMarkers(u);
    HeadingIsNoMarker(u.unitId);
    StartIsNoEnd(u.unitId, u.unitId);
    assert Lines(u)[1..] == ["## " + u.unitId] + Body(u) + [END + u.unitId + CLOSE];
  }

  lemma UnitIdPlain(u: Unit)
    requires Printable(u)
    ensures Trimmed(u.unitId) && Unbroken(u.unitId)
  {
    hide Trimmed, Unbroken, SaneRef, AllPlain;
  }

  lemma ParseOne(u: Unit, rest: seq<string>)
    requires Printable(u) && (rest == [] || IsStart(rest[0]))
    ensures Parse(Lines(u) + rest) == Read(u).Plus(Parse(rest))
  {
    hide MarkedId, Body, ParseSegment, Read, Strip, Printable, ToStart;
    var lines := Lines(u) + rest;
    UnitIdPlain(u);
    MarkerRead(START, u.unitId);
    StripTrimmed(u.unitId);
    TailHasNoStart(u);
    ToStartOver(Lines(u)[1..], rest);
    assert lines[1..] == Lines(u)[1..] + rest;
    assert lines[..|Lines(u)|] == Lines(u) && lines[|Lines(u)|..] == rest;
    assert lines[0] == START + u.unitId + CLOSE;
    SegmentRead(u);
  }

  function ReadAll(units: seq<Unit>): Parsed {
    if units == [] then Nothing() else ReadAll(units[..|units| - 1]).Plus(Read(units[|units| - 1]))
  }

  ghost predicate AllPrintable(units: seq<Unit>) { forall u | u in units :: Printable(u) }

  /** Reading on from a prefix of units. */
  lemma {:induction false} ParseUnits(units: seq<Unit>, rest: seq<string>)
    requires AllPrintable(units) && (rest == [] || IsStart(rest[0]))
    ensures Parse(Flatten(AllEntries(units)) + rest) == ReadAll(units).Plus(Parse(rest))
    decreases |units|
  {
    hide Entries, Lines, Read, Parse, IsStart;
    if units == [] {
      assert Flatten(AllEntries(units)) + rest == rest;
      NothingPlus(Parse(rest));
    } else {
      var init, u := units[..|units| - 1], units[|units| - 1];
      assert u in units;
      LinesOfEntries(u);
      FlattenConcat(AllEntries(init), Entries(u));
      var all := Flatten(AllEntries(init));
      assert all + Lines(u) + rest == all + (Lines(u) + rest);
      LinesStart(u, rest);
      ParseUnits(init, Lines(u) + rest);
      ParseOne(u, rest);
      PlusAssociates(ReadAll(init), Read(u), Parse(rest));
    }
  }

  lemma LinesStart(u: Unit, rest: seq<string>)
    requires Printable(u)
    ensures Lines(u) + rest != [] && IsStart((Lines(u) + rest)[0])
  {
    MarkerRead(START, u.unitId);
  }

  lemma NothingPlus(p: Parsed)
    ensures Nothing().Plus(p) == p && p.Plus(Nothing()) == p
  {
    assert [] + p.sections == p.sections && [] + p.refs == p.refs;
    assert p.sections + [] == p.sections && p.refs + [] == p.refs;
  }

  lemma {:induction false} LastOfJoin(entries: seq<string>, last: string)
    requires last != []
    ensures Join(entries + [last]) != [] && Join(entries + [last])[|Join(entries + [last])| - 1] == last[|last| - 1]
  {
    if entries == [] {
      assert entries + [last] == [last];
    } else {
      LastOfJoin(entries[1..], last);
      assert (entries + [last])[1..] == entries[1..] + [last];
    }
  }

  /** A printed file ends visibly, so trimming it loses nothing and its lines are those of its entries. */
  lemma RenderedLines(kind: Kind, units: seq<Unit>)
    requires units != []
    ensures SplitLines(Rendered(kind, units)) == Flatten(["# " + Title(kind), ""] + AllEntries(units))
  {
    hide Join, StripRight, SplitLines, Entries, Title, Flatten;
    var u := units[|units| - 1];
    var entries := ["# " + Title(kind), ""] + AllEntries(units);
    EntriesEnd(u);
    var before := ["# " + Title(kind), ""] + AllEntries(units[..|units| - 1]) + Entries(u)[..|Entries(u)| - 1];
    assert entries == before + [END + u.unitId + CLOSE];
    hide AllEntries;
    LastOfJoin(before, END + u.unitId + CLOSE);
    EndsVisibly(Join(entries), u.unitId);
    LinesOfJoin(entries);
  }

  /** The checker reads back exactly what was printed for a kind. */
  lemma FileRead(kind: Kind, units: seq<Unit>)
    requires AllPrintable(units) && units != []
    ensures Parse(SplitLines(Rendered(kind, units))) == ReadAll(units)
  {
    hide Rendered, SplitLines, Flatten, Title, AllEntries, ReadAll, AllPrintable, IsStart, MarkedId, Strip, ParseSegment;
    RenderedLines(kind, units);
    FlattenConcat(["# " + Title(kind), ""], AllEntries(units));
    HeaderSkipped(kind, Flatten(AllEntries(units)));
    ParseUnits(units, []);
    assert Flatten(AllEntries(units)) + [] == Flatten(AllEntries(units));
    NothingPlus(ReadAll(units));
  }

  lemma EntriesEnd(u: Unit)
    ensures Entries(u) != [] && Entries(u)[|Entries(u)| - 1] == END + u.unitId + CLOSE
  {
    hide Newlines, Bullets, RefLines, Titled;
  }

  lemma EndsVisibly(s: string, id: string)
    requires s != [] && s[|s| - 1] == (END + id + CLOSE)[|END + id + CLOSE| - 1]
    ensures StripRight(s) == s
  {
    assert CLOSE[|CLOSE| - 1] == '>';
    assert (END + id + CLOSE)[|END + id + CLOSE| - 1] == '>';
  }

  lemma HeaderSkipped(kind: Kind, rest: seq<string>)
    ensures Parse(Flatten(["# " + Title(kind), ""]) + rest) == Parse(rest)
  {
    var title := "# " + Title(kind);
    assert Unbroken(title) && Unbroken("");
    FlattenUnbroken([title, ""]);
    assert START[0] == '<' && title[0] == '#';
    NoMarker(title, START);
    NoMarker("", START);
    hide MarkedId;
    assert ([title, ""] + rest)[1..] == [""] + rest && ([""] + rest)[1..] == rest;
  }

  // ---- all files ----

  function ReadKinds(usable: seq<Unit>, i: nat): Parsed
    requires i <= |KIND_ORDER|
  {
    if i == 0 then Nothing() else ReadKinds(usable, i - 1).Plus(ReadAll(OfKind(usable, KIND_ORDER[i - 1])))
  }

  lemma NotTheLedger(kind: Kind)
    ensures FileName(kind) != LEDGER
  {
    assert LEDGER[1] == 'r';
    assert FileName(kind)[0] == LEDGER[0] ==> kind == Principle;
    assert |FileName(Principle)| != |LEDGER| || FileName(Principle)[2] != LEDGER[2];
  }

  lemma {:induction false} KindsRead(first: seq<File>, usable: seq<Unit>, i: nat)
    requires i <= |KIND_ORDER| && AllPrintable(usable)
    ensures ParseAll(first + KindFiles(usable, i)) == ParseAll(first).Plus(ReadKinds(usable, i))
  {
    hide Rendered, Parse, SplitLines, FileName, ReadAll;
    if i == 0 {
      assert first + KindFiles(usable, 0) == first;
      NothingPlus(ParseAll(first));
    } else {
      KindsRead(first, usable, i - 1);
      var kind := KIND_ORDER[i - 1];
      var units := OfKind(usable, kind);
      var before := first + KindFiles(usable, i - 1);
      if units == [] {
        assert first + KindFiles(usable, i) == before;
        EmptyReads();
        NothingPlus(ReadKinds(usable, i - 1));
      } else {
        var file := File(FileName(kind), Some(Rendered(kind, units)));
        assert first + KindFiles(usable, i) == before + [file];
        assert (before + [file])[..|before|] == before;
        NotTheLedger(kind);
        FileRead(kind, units);
        PlusAssociates(ParseAll(first), ReadKinds(usable, i - 1), ReadAll(units));
      }
    }
  }

  lemma EmptyReads()
    ensures ReadAll([]) == Nothing()
  {
  }

  lemma ReferencesRead(units: seq<Unit>)
    requires AllPrintable(Usable(units))
    ensures ParseAll(ReferenceFiles(units)) == ReadKinds(Usable(units), |KIND_ORDER|)
  {
    hide ReadKinds, KindFiles, Ledger, Usable;
    var usable := Usable(units);
    var first := if usable == [] then [] else [File(LEDGER, Some(Ledger(usable)))];
    KindsRead(first, usable, |KIND_ORDER|);
    LedgerSkipped(usable);
    NothingPlus(ReadKinds(usable, |KIND_ORDER|));
  }

  lemma LedgerSkipped(usable: seq<Unit>)
    ensures ParseAll([File(LEDGER, Some(Ledger(usable)))]) == Nothing() && ParseAll([]) == Nothing()
  {
    hide Ledger, LedgerEntries, Parse, SplitLines;
    var file := File(LEDGER, Some(Ledger(usable)));
    var files := [file];
    assert files[..|files| - 1] == [] && files[|files| - 1] == file;
    NothingPlus(Nothing());
  }

  // ---- grouping by kind loses nothing ----

  function Place(k: Kind): (i: nat)
    ensures i < |KIND_ORDER| && KIND_ORDER[i] == k
  {
    match k
    case Framework => 0
    case Principle => 1
    case Technique => 2
    case Case => 3
    case Term => 4
    case AntiPattern => 5
    case Checklist => 6
    case DecisionRule => 7
  }

  /** The units of the first i kinds, kind by kind. */
  function Grouped(usable: seq<Unit>, i: nat): seq<Unit>
    requires i <= |KIND_ORDER|
  {
    if i == 0 then [] else Grouped(usable, i - 1) + OfKind(usable, KIND_ORDER[i - 1])
  }

  lemma {:induction false} GroupedSnoc(usable: seq<Unit>, i: nat)
    requires usable != [] && i <= |KIND_ORDER|
    ensures var init, u := usable[..|usable| - 1], usable[|usable| - 1];
            multiset(Grouped(usable, i)) == multiset(Grouped(init, i)) + if Place(u.kind) < i then multiset{u} else multiset{}
  {
    if i > 0 {
      GroupedSnoc(usable, i - 1);
      PlaceUnique(usable[|usable| - 1].kind, i - 1);
    }
  }

  lemma PlaceUnique(k: Kind, i: nat)
    requires i < |KIND_ORDER|
    ensures KIND_ORDER[i] == k <==> Place(k) == i
  {
  }

  lemma {:induction false} GroupedAll(usable: seq<Unit>)
    ensures multiset(Grouped(usable, |KIND_ORDER|)) == multiset(usable)
  {
    hide Grouped, OfKind, Place;
    if usable == [] {
      GroupedNone(|KIND_ORDER|);
    } else {
      GroupedSnoc(usable, |KIND_ORDER|);
      GroupedAll(usable[..|usable| - 1]);
      assert usable == usable[..|usable| - 1] + [usable[|usable| - 1]];
    }
  }

  lemma {:induction false} GroupedNone(i: nat)
    requires i <= |KIND_ORDER|
    ensures Grouped([], i) == []
  {
    if i > 0 { GroupedNone(i - 1); }
  }

  lemma {:induction false} ReadAllConcat(a: seq<Unit>, b: seq<Unit>)
    ensures ReadAll(a + b) == ReadAll(a).Plus(ReadAll(b))
  {
    if b == [] {
      assert a + b == a;
      NothingPlus(ReadAll(a));
    } else {
      var init, u := b[..|b| - 1], b[|b| - 1];
      ReadAllConcat(a, init);
      assert (a + b)[..|a + b| - 1] == a + init;
      PlusAssociates(ReadAll(a), ReadAll(init), Read(u));
    }
  }

  lemma {:induction false} ReadKindsIs(usable: seq<Unit>, i: nat)
    requires i <= |KIND_ORDER|
    ensures ReadKinds(usable, i) == ReadAll(Grouped(usable, i))
  {
    hide ReadAll, OfKind;
    if i == 0 {
      EmptyReads();
    } else {
      ReadKindsIs(usable, i - 1);
      ReadAllConcat(Grouped(usable, i - 1), OfKind(usable, KIND_ORDER[i - 1]));
    }
  }

  // ---- what was read, as multisets ----

  lemma {:induction false} ReadAllIs(units: seq<Unit>)
    ensures var p := ReadAll(units);
            && |p.sections| == |units|
            && (forall i | 0 <= i < |units| :: p.sections[i] == Section(units[i].unitId, Normalized(units[i].content)))
            && p.malformed == 0
            && multiset(p.refs) == multiset(ExpectedRefs(units))
  {
    if units != [] {
      hide Normalized, RefTexts;
      ReadAllIs(units[..|units| - 1]);
    }
  }

  lemma {:induction false} ExpectedRefsAt(units: seq<Unit>, k: nat)
    requires k < |units|
    ensures multiset(ExpectedRefs(units)) == multiset(ExpectedRefs(units[..k] + units[k + 1..])) + multiset(RefTexts(units[k].sourceRefs))
    decreases |units|
  {
    hide RefTexts, ExpectedRefs;
    var init, u := units[..|units| - 1], units[|units| - 1];
    LastRefs(units);
    if k == |units| - 1 {
      assert units[..k] + units[k + 1..] == init;
    } else {
      ExpectedRefsAt(init, k);
      var without := units[..k] + units[k + 1..];
      assert without[..|without| - 1] == init[..k] + init[k + 1..];
      assert without[|without| - 1] == u;
      LastRefs(without);
    }
  }

  lemma LastRefs(units: seq<Unit>)
    requires units != []
    ensures multiset(ExpectedRefs(units)) == multiset(ExpectedRefs(units[..|units| - 1])) + multiset(RefTexts(units[|units| - 1].sourceRefs))
  {
    hide RefTexts;
  }

  /** Two arrangements of the same units stay so without the last of one. */
  lemma Peel(a: seq<Unit>, b: seq<Unit>) returns (k: nat)
    requires a != [] && multiset(a) == multiset(b)
    ensures k < |b| && b[k] == a[|a| - 1]
    ensures |b| > 0 && multiset(a[..|a| - 1]) == multiset(b[..k] + b[k + 1..])
  {
    var init, u := a[..|a| - 1], a[|a| - 1];
    assert a == init + [u];
    assert u in multiset(b);
    k :| 0 <= k < |b| && b[k] == u;
    assert b == b[..k] + [u] + b[k + 1..];
    assert multiset(b[..k] + b[k + 1..]) == multiset(b) - multiset{u};
  }

  /** The expected references do not depend on the order of the units. */
  lemma {:induction false} ExpectedRefsPermuted(a: seq<Unit>, b: seq<Unit>)
    requires multiset(a) == multiset(b)
    ensures multiset(ExpectedRefs(a)) == multiset(ExpectedRefs(b))
    decreases |a|
  {
    hide RefTexts;
    if a == [] {
      assert |b| == |multiset(b)| == |multiset(a)| == 0;
    } else {
      var k := Peel(a, b);
      ExpectedRefsAt(b, k);
      ExpectedRefsPermuted(a[..|a| - 1], b[..k] + b[k + 1..]);
    }
  }

  lemma IdsWithout(units: seq<Unit>, k: nat)
    requires k < |units|
    ensures multiset(UnitIds(units)) == multiset(UnitIds(units[..k] + units[k + 1..])) + multiset{units[k].unitId}
  {
    var before, rest := units[..k], units[k + 1..];
    assert UnitIds(units) == UnitIds(before) + [units[k].unitId] + UnitIds(rest);
    assert UnitIds(before + rest) == UnitIds(before) + UnitIds(rest);
  }

  lemma {:induction false} IdsPermuted(a: seq<Unit>, b: seq<Unit>)
    requires multiset(a) == multiset(b)
    ensures multiset(UnitIds(a)) == multiset(UnitIds(b))
    decreases |a|
  {
    hide UnitIds;
    if a == [] {
      assert |b| == |multiset(b)| == |multiset(a)| == 0;
      assert a == b;
    } else {
      var k := Peel(a, b);
      IdsWithout(a, |a| - 1);
      assert a[..|a| - 1] + a[|a|..] == a[..|a| - 1];
      IdsWithout(b, k);
      IdsPermuted(a[..|a| - 1], b[..k] + b[k + 1..]);
    }
  }

  // ---- theorem ----

  /** Printing and checking undo each other: for units with distinct ids and nothing in them that looks like a
      marker, the printed files hold each usable unit exactly once, with its normalized content and the
      exact multiset of its source references, and no file is malformed. */
  lemma RoundTrip(units: seq<Unit>)
    requires DistinctIds(Usable(units)) && AllPrintable(Usable(units))
    ensures Faithful(ParseAll(ReferenceFiles(units)), Usable(units)) && ParseAll(ReferenceFiles(units)).malformed == 0
  {
    hide Usable, ReferenceFiles, Normalized, ExpectedRefs, Grouped, ReadAll, ReadKinds, RefTexts;
    var usable := Usable(units);
    var grouped := Grouped(usable, |KIND_ORDER|);
    ReferencesRead(units);
    ReadKindsIs(usable, |KIND_ORDER|);
    GroupedAll(usable);
    ReadAllIs(grouped);
    ExpectedRefsPermuted(grouped, usable);
    IdsPermuted(grouped, usable);
    var p := ReadAll(grouped);
    assert SectionIds(p.sections) == UnitIds(grouped);
    forall i, u | 0 <= i < |p.sections| && u in usable && u.unitId == p.sections[i].id
      ensures Normalized(p.sections[i].content) == Normalized(u.content)
    {
      assert grouped[i] in multiset(usable);
      OnlyOne(usable, u);
      OnlyOne(usable, grouped[i]);
      ContentRead(u.content);
    }
  }

  /** So the checker has nothing to report about them. */
  lemma PrintedIsClean(units: seq<Unit>, f: Findings)
    requires DistinctIds(Usable(units)) && AllPrintable(Usable(units)) && Reports(f, ParseAll(ReferenceFiles(units)), Usable(units))
    ensures NoFindings(f) && f.malformed == 0
  {
    hide Usable, ReferenceFiles, Faithful;
    RoundTrip(units);
    CleanIffFaithful(ParseAll(ReferenceFiles(units)), Usable(units), f);
  }
}
