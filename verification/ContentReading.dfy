/** What the checker reads from a file, marker by marker and line by line
    (src/book2skill/application/content_integrity.py, lines 92-145). */
module ContentReading {
  import opened Knowledge
  import opened Text
  import opened References
  import opened ContentIntegrity

  /** Increasing positions. */
  ghost predicate Rising(at: seq<nat>) { forall i, j | 0 <= i < j < |at| :: at[i] < at[j] }

  /** The start markers of the file, all of them, in order. */
  ghost predicate MarkersAre(lines: seq<string>, at: seq<nat>) {
    && Rising(at) && (forall i | 0 <= i < |at| :: at[i] < |lines| && IsStart(lines[at[i]]))
    && (forall k: nat | k < |lines| && IsStart(lines[k]) :: k in at)
  }

  /** Line e is the first end marker of the id between the heading and the end. */
  ghost predicate EndsAt(lines: seq<string>, start: nat, end: nat, id: string, e: nat) {
    && start + 2 <= e < end <= |lines| && MarkedId(lines[e], END) == Some(id)
    && forall j | start + 2 <= j < e :: MarkedId(lines[j], END) != Some(id)
  }

  /** The lines before the first title. */
  ghost predicate ContentTells(body: seq<string>, t: nat) {
    t <= |body| && (forall j | 0 <= j < t :: !IsTitle(body[j])) && (t < |body| ==> IsTitle(body[t]))
  }

  /** A line after a Sources title, no such title itself, that names a source block. */
  predicate IsRefLine(body: seq<string>, k: nat) {
    k < |body| && RefOf(body[k]).Some? && Strip(body[k]) != "**Sources:**" && exists j | 0 <= j < k :: Strip(body[j]) == "**Sources:**"
  }

  ghost predicate RefsTell(body: seq<string>, at: seq<nat>, refs: seq<string>) {
    && Rising(at) && |at| == |refs| && (forall i | 0 <= i < |at| :: IsRefLine(body, at[i]) && refs[i] == RefOf(body[at[i]]).value)
    && (forall k: nat | IsRefLine(body, k) :: k in at)
  }

  /** A section has the stripped lines before the first title as its content, and the references below Sources. */
  ghost predicate SectionTells(body: seq<string>, id: string, p: Parsed) {
    && p.malformed == 0
    && (exists t: nat :: ContentTells(body, t) && p.sections == [Section(id, Strip(Join(body[..t])))])
    && (exists at: seq<nat> :: RefsTell(body, at, p.refs))
  }

  /** A start marker without its heading, or without its end marker before the next start, is malformed and yields
      nothing else; any other yields its section. */
  ghost predicate MarkerTells(lines: seq<string>, start: nat, end: nat, p: Parsed)
    requires start < |lines| && IsStart(lines[start])
  {
    var id := Strip(MarkedId(lines[start], START).value);
    if start + 1 < |lines| && lines[start + 1] == "## " + id && exists e: nat :: EndsAt(lines, start, end, id, e)
    then exists e: nat :: EndsAt(lines, start, end, id, e) && SectionTells(lines[start + 2..e], id, p)
    else p == Parsed([], [], 1)
  }

  function Sum(parts: seq<Parsed>): Parsed { if parts == [] then Parsed([], [], 0) else parts[0].Plus(Sum(parts[1..])) }

  /** A file is the sum of what its markers tell. */
  ghost predicate FileTells(lines: seq<string>, at: seq<nat>, parts: seq<Parsed>, p: Parsed) {
    && MarkersAre(lines, at) && |parts| == |at| && p == Sum(parts)
    && forall i | 0 <= i < |at| :: MarkerTells(lines, at[i], if i + 1 < |at| then at[i + 1] else |lines|, parts[i])
  }

  // ---- one section ----

  lemma {:induction false} EndOfIs(segment: seq<string>, id: string, i: nat)
    ensures var e := EndOf(segment, id, i);
            && (e.Some? ==> i <= e.value < |segment| && MarkedId(segment[e.value], END) == Some(id)
                            && forall j | i <= j < e.value :: MarkedId(segment[j], END) != Some(id))
            && (e.None? ==> forall j | i <= j < |segment| :: MarkedId(segment[j], END) != Some(id))
    decreases |segment| - i
  {
    hide MarkedId;
    if i < |segment| && MarkedId(segment[i], END) != Some(id) { EndOfIs(segment, id, i + 1); }
  }

  lemma {:induction false} ContentIs(body: seq<string>) returns (t: nat)
    ensures ContentTells(body, t) && ContentLines(body) == body[..t]
  {
    hide IsTitle;
    if body == [] || IsTitle(body[0]) {
      t := 0;
    } else {
      t := ContentIs(body[1..]);
      t := t + 1;
      assert body[..t] == [body[0]] + body[1..][..t - 1];
      assert forall j | 0 < j < |body| :: body[j] == body[1..][j - 1];
    }
  }

  /** Whether line k is read as a reference when the lines before the body had a Sources title or not. */
  predicate ReadAt(body: seq<string>, seen: bool, k: nat) {
    k < |body| && RefOf(body[k]).Some? && Strip(body[k]) != SOURCES && (seen || exists j | 0 <= j < k :: Strip(body[j]) == SOURCES)
  }

  predicate RefAt(body: seq<string>, seen: bool, k: nat, ref: string) { ReadAt(body, seen, k) && ref == RefOf(body[k]).value }

  ghost predicate RefsRead(body: seq<string>, seen: bool, at: seq<nat>, refs: seq<string>) {
    && Rising(at) && |at| == |refs| && (forall i | 0 <= i < |at| :: RefAt(body, seen, at[i], refs[i]))
    && (forall k: nat | ReadAt(body, seen, k) :: k in at)
  }

  function Shift(at: seq<nat>): (later: seq<nat>)
    ensures |later| == |at| && forall i | 0 <= i < |at| :: later[i] == at[i] + 1
  {
    seq(|at|, i requires 0 <= i < |at| => at[i] + 1)
  }

  lemma ReadLater(body: seq<string>, seen: bool, k: nat)
    requires body != []
    ensures ReadAt(body, seen, k + 1) <==> ReadAt(body[1..], seen || Strip(body[0]) == SOURCES, k)
  {
    hide RefOf, Strip;
    var rest := body[1..];
    assert forall j: nat | j < |rest| :: rest[j] == body[j + 1];
    if j :| 0 <= j < k + 1 && k + 1 < |body| && Strip(body[j]) == SOURCES && j > 0 { assert Strip(rest[j - 1]) == SOURCES; }
    if j :| 0 <= j < k && k < |rest| && Strip(rest[j]) == SOURCES { assert Strip(body[j + 1]) == SOURCES; }
  }

  lemma {:induction false} RefsAre(body: seq<string>, seen: bool) returns (at: seq<nat>)
    ensures RefsRead(body, seen, at, RefsIn(body, seen))
  {
    hide RefOf, Strip;
    if body == [] {
      at := [];
    } else {
      var first := Strip(body[0]) == SOURCES;
      var later := RefsAre(body[1..], seen || first);
      var here := ReadAt(body, seen, 0);
      assert RefsIn(body, seen) == (if here then [RefOf(body[0]).value] else []) + RefsIn(body[1..], seen || first);
      at := (if here then [0] else []) + Shift(later);
      RefsShift(body, seen, later, RefsIn(body[1..], seen || first));
    }
  }

  lemma RefsShift(body: seq<string>, seen: bool, later: seq<nat>, refs: seq<string>)
    requires body != [] && RefsRead(body[1..], seen || Strip(body[0]) == SOURCES, later, refs)
    ensures var here := ReadAt(body, seen, 0);
            RefsRead(body, seen, (if here then [0] else []) + Shift(later), (if here then [RefOf(body[0]).value] else []) + refs)
  {
    hide ReadAt, RefAt, RefOf, Strip, Rising, Shift;
    forall i | 0 <= i < |later| ensures RefAt(body, seen, Shift(later)[i], refs[i]) {
      RefMoves(body, seen, later, refs, i);
    }
    forall k: nat | ReadAt(body, seen, k) && k > 0 ensures k in Shift(later) { RefCovered(body, seen, later, refs, k); }
    RisingShift(later);
    if ReadAt(body, seen, 0) {
      RefsCons(body, seen, Shift(later), refs);
    } else {
      RefsLater(body, seen, Shift(later), refs);
      assert [] + Shift(later) == Shift(later) && [] + refs == refs;
    }
  }

  lemma RefMoves(body: seq<string>, seen: bool, later: seq<nat>, refs: seq<string>, i: nat)
    requires body != [] && RefsRead(body[1..], seen || Strip(body[0]) == SOURCES, later, refs) && i < |later|
    ensures RefAt(body, seen, later[i] + 1, refs[i])
  {
    var rest, now := body[1..], seen || Strip(body[0]) == SOURCES;
    assert ReadAt(rest, now, later[i]) && rest[later[i]] == body[later[i] + 1] by { hide RefOf, Strip; }
    hide RefOf, Strip;
    ReadLater(body, seen, later[i]);
  }

  lemma RefCovered(body: seq<string>, seen: bool, later: seq<nat>, refs: seq<string>, k: nat)
    requires body != [] && RefsRead(body[1..], seen || Strip(body[0]) == SOURCES, later, refs) && ReadAt(body, seen, k) && k > 0
    ensures k in Shift(later)
  {
    hide RefOf, Strip, ReadAt;
    ReadLater(body, seen, k - 1);
    var i :| 0 <= i < |later| && later[i] == k - 1;
    assert Shift(later)[i] == k;
  }

  lemma RisingShift(at: seq<nat>)
    requires Rising(at)
    ensures Rising(Shift(at)) && forall k | k in Shift(at) :: k > 0
  {
  }

  lemma RefsLater(body: seq<string>, seen: bool, at: seq<nat>, refs: seq<string>)
    requires !ReadAt(body, seen, 0) && Rising(at) && |at| == |refs|
    requires forall i | 0 <= i < |at| :: RefAt(body, seen, at[i], refs[i])
    requires forall k: nat | ReadAt(body, seen, k) && k > 0 :: k in at
    ensures RefsRead(body, seen, at, refs)
  {
    hide ReadAt, RefAt, RefOf;
  }

  lemma RefsCons(body: seq<string>, seen: bool, at: seq<nat>, refs: seq<string>)
    requires ReadAt(body, seen, 0) && Rising(at) && |at| == |refs| && (forall k | k in at :: k > 0)
    requires forall i | 0 <= i < |at| :: RefAt(body, seen, at[i], refs[i])
    requires forall k: nat | ReadAt(body, seen, k) && k > 0 :: k in at
    ensures RefsRead(body, seen, [0] + at, [RefOf(body[0]).value] + refs)
  {
    assert RefAt(body, seen, 0, RefOf(body[0]).value);
    hide ReadAt, RefAt, RefOf;
    assert forall i | 0 <= i < |at| :: at[i] in at;
  }

  lemma SectionIs(body: seq<string>, id: string)
    ensures SectionTells(body, id, Parsed([Section(id, Strip(Join(ContentLines(body))))], RefsIn(body, false), 0))
  {
    var t := ContentIs(body);
    var at := RefsAre(body, false);
    hide RefOf, Strip, Join, IsTitle, ContentLines, RefsIn;
    assert SOURCES == "**Sources:**";
    forall k: nat ensures ReadAt(body, false, k) <==> IsRefLine(body, k) {}
    assert RefsTell(body, at, RefsIn(body, false));
  }

  lemma SegmentIs(lines: seq<string>, start: nat, end: nat)
    requires start < end <= |lines| && IsStart(lines[start])
    ensures MarkerTells(lines, start, end, ParseSegment(lines[start..end], Strip(MarkedId(lines[start], START).value)))
  {
    hide MarkedId, Strip, Join, ContentLines, RefsIn, SectionTells;
    var segment, id := lines[start..end], Strip(MarkedId(lines[start], START).value);
    assert forall j: nat | j < |segment| :: segment[j] == lines[start + j];
    EndOfIs(segment, id, 2);
    var e := EndOf(segment, id, 2);
    if e.Some? {
      assert EndsAt(lines, start, end, id, start + e.value);
      SliceOfSlice(lines, start, end, start + 2, start + e.value);
      SectionIs(lines[start + 2..start + e.value], id);
    } else {
      forall f: nat ensures !EndsAt(lines, start, end, id, f) { NoEnd(lines, start, end, id, f); }
    }
  }

  lemma NoEnd(lines: seq<string>, start: nat, end: nat, id: string, f: nat)
    requires start < end <= |lines| && forall j | 2 <= j < end - start :: MarkedId(lines[start..end][j], END) != Some(id)
    ensures !EndsAt(lines, start, end, id, f)
  {
    hide MarkedId;
    assert start + 2 <= f < end ==> lines[start..end][f - start] == lines[f];
  }

  // ---- the file ----

  ghost predicate StartsFrom(lines: seq<string>, i: nat, at: seq<nat>) {
    && Rising(at) && (forall k | 0 <= k < |at| :: i <= at[k] < |lines| && IsStart(lines[at[k]]))
    && (forall k: nat | i <= k < |lines| && IsStart(lines[k]) :: k in at)
  }

  lemma {:induction false} StartsAre(lines: seq<string>, i: nat)
    ensures StartsFrom(lines, i, Starts(lines, i))
    decreases |lines| - i
  {
    hide IsStart;
    if i < |lines| {
      StartsAre(lines, i + 1);
      var rest := Starts(lines, i + 1);
      assert Starts(lines, i) == if IsStart(lines[i]) then [i] + rest else rest;
      hide Starts;
      if IsStart(lines[i]) { StartsCons(lines, i, rest); } else { StartsSkip(lines, i, rest); }
    }
  }

  lemma StartsCons(lines: seq<string>, i: nat, rest: seq<nat>)
    requires i < |lines| && IsStart(lines[i]) && StartsFrom(lines, i + 1, rest)
    ensures StartsFrom(lines, i, [i] + rest)
  {
    hide IsStart;
  }

  lemma StartsSkip(lines: seq<string>, i: nat, rest: seq<nat>)
    requires i < |lines| && !IsStart(lines[i]) && StartsFrom(lines, i + 1, rest)
    ensures StartsFrom(lines, i, rest)
  {
    hide IsStart;
  }

  /** What the markers from the k-th on tell. */
  ghost predicate PartsTell(lines: seq<string>, at: seq<nat>, k: nat, parts: seq<Parsed>) {
    && |parts| + k == |at|
    && forall i | k <= i < |at| :: at[i] < |lines| && IsStart(lines[at[i]]) && MarkerTells(lines, at[i], MarkerAt(lines, at, i + 1), parts[i - k])
  }

  lemma {:induction false} PartsFrom(lines: seq<string>, at: seq<nat>, k: nat) returns (parts: seq<Parsed>)
    requires k <= |at| && AllLinked(lines, at)
    ensures PartsTell(lines, at, k, parts)
    ensures MarkerAt(lines, at, k) <= |lines| && Parse(lines[MarkerAt(lines, at, k)..]) == Sum(parts)
    decreases |at| - k
  {
    hide MarkedId, Strip, ParseSegment, MarkerTells, SegmentEnd, PartsTell, AllLinked;
    if k == |at| {
      parts := [];
      assert lines[|lines|..] == [];
      NoParts(lines, at);
    } else {
      hide Parse, Sum, IsStart;
      LinkAt(lines, at, k);
      var start, end := at[k], MarkerAt(lines, at, k + 1);
      ParseUnfold(lines, start);
      SegmentIs(lines, start, end);
      var rest := PartsFrom(lines, at, k + 1);
      var one := ParseSegment(lines[start..end], Strip(MarkedId(lines[start], START).value));
      parts := [one] + rest;
      SumCons(one, rest);
      PartsCons(lines, at, k, one, rest);
    }
  }

  ghost predicate AllLinked(lines: seq<string>, at: seq<nat>) {
    forall i | 0 <= i < |at| :: at[i] < |lines| && Linked(lines, at, i)
  }

  lemma LinkAt(lines: seq<string>, at: seq<nat>, k: nat)
    requires AllLinked(lines, at) && k < |at|
    ensures at[k] < |lines| && IsStart(lines[at[k]]) && MarkerAt(lines, at, k) == at[k]
    ensures SegmentEnd(lines, at[k]) == MarkerAt(lines, at, k + 1) && at[k] < MarkerAt(lines, at, k + 1) <= |lines|
  {
    hide IsStart;
    assert Linked(lines, at, k);
  }

  lemma NoParts(lines: seq<string>, at: seq<nat>)
    ensures PartsTell(lines, at, |at|, [])
  {
  }

  lemma PartsCons(lines: seq<string>, at: seq<nat>, k: nat, one: Parsed, rest: seq<Parsed>)
    requires k < |at| && at[k] < |lines| && IsStart(lines[at[k]]) && MarkerTells(lines, at[k], MarkerAt(lines, at, k + 1), one)
    requires PartsTell(lines, at, k + 1, rest)
    ensures PartsTell(lines, at, k, [one] + rest)
  {
    hide MarkerTells, IsStart, MarkerAt;
    var parts := [one] + rest;
    forall i | k <= i < |at| ensures at[i] < |lines| && IsStart(lines[at[i]]) && MarkerTells(lines, at[i], MarkerAt(lines, at, i + 1), parts[i - k]) {
      assert i > k ==> parts[i - k] == rest[i - (k + 1)];
    }
  }

  lemma SumCons(one: Parsed, rest: seq<Parsed>)
    ensures Sum([one] + rest) == one.Plus(Sum(rest))
  {
    assert ([one] + rest)[1..] == rest;
  }

  /** What parsing a file yields, in terms of its lines alone. */
  lemma ParseTells(lines: seq<string>) returns (at: seq<nat>, parts: seq<Parsed>)
    ensures FileTells(lines, at, parts, Parse(lines))
  {
    hide MarkerTells, Parse, FirstStart, Sum, IsStart, Starts, Linked;
    at := Starts(lines, 0);
    StartsAre(lines, 0);
    Chain(lines, 0);
    Skip(lines, 0);
    assert lines[0..] == lines;
    assert AllLinked(lines, at);
    hide AllLinked;
    parts := PartsFrom(lines, at, 0);
    Together(lines, at, parts);
  }

  lemma Together(lines: seq<string>, at: seq<nat>, parts: seq<Parsed>)
    requires StartsFrom(lines, 0, at) && PartsTell(lines, at, 0, parts)
    ensures FileTells(lines, at, parts, Sum(parts))
  {
    hide MarkerTells, Sum, IsStart;
  }
}
