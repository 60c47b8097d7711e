/** Rendering units to Markdown reference files (src/book2skill/compiler/ir_builder.py). */
module References {
  import opened Knowledge
  import opened Text

  const START := "<!-- book2skill-unit-start: "
  const END := "<!-- book2skill-unit-end: "
  const CLOSE := " -->"
  const CONDITIONS := "**Conditions:**"
  const EXCEPTIONS := "**Exceptions:**"
  const SOURCES := "**Sources:**"

  datatype File = File(name: string, text: Option<string>)

  const KIND_ORDER: seq<Kind> := [Framework, Principle, Technique, Case, Term, AntiPattern, Checklist, DecisionRule]

  function FileName(kind: Kind): string {
    match kind
    case Framework => "frameworks.md"
    case Principle => "principles.md"
    case Technique => "techniques.md"
    case Case => "cases.md"
    case Term => "terms.md"
    case AntiPattern => "anti-patterns.md"
    case Checklist => "checklists.md"
    case DecisionRule => "decision-rules.md"
  }

  function Title(kind: Kind): string {
    match kind
    case Framework => "Framework"
    case Principle => "Principle"
    case Technique => "Technique"
    case Case => "Case"
    case Term => "Term"
    case AntiPattern => "Anti Pattern"
    case Checklist => "Checklist"
    case DecisionRule => "Decision Rule"
  }

  /** Carriage returns become newlines before the content is printed, and before it is compared. */
  function Newlines(s: string): (r: string)
    ensures '\r' !in r
  {
    if s == [] then []
    else if s[0] == '\r' then "\n" + Newlines(if |s| > 1 && s[1] == '\n' then s[2..] else s[1..])
    else [s[0]] + Newlines(s[1..])
  }

  function Bullets(items: seq<string>): seq<string> {
    if items == [] then [] else ["- " + items[0]] + Bullets(items[1..])
  }

  function RefText(r: Ref): string { r.sourceId + " / " + r.blockId }

  function RefLine(r: Ref): string {
    "- " + RefText(r) + if r.quote.Some? && r.quote.value != [] then " \U{2014} \"" + r.quote.value + "\"" else ""
  }

  function RefLines(refs: seq<Ref>): seq<string> {
    if refs == [] then [] else [RefLine(refs[0])] + RefLines(refs[1..])
  }

  /** A titled list after an empty line, or nothing. */
  function Titled(title: string, lines: seq<string>): seq<string> { if lines == [] then [] else ["", title] + lines }

  /** The entries that one unit adds; the content may span several lines. */
  function Entries(u: Unit): seq<string> {
    [START + u.unitId + CLOSE, "## " + u.unitId, "", Newlines(u.content)]
    + Titled(CONDITIONS, Bullets(u.conditions)) + Titled(EXCEPTIONS, Bullets(u.exceptions)) + Titled(SOURCES, RefLines(u.sourceRefs))
    + ["", END + u.unitId + CLOSE]
  }

  function AllEntries(units: seq<Unit>): seq<string> {
    if units == [] then [] else AllEntries(units[..|units| - 1]) + Entries(units[|units| - 1])
  }

  function Rendered(kind: Kind, units: seq<Unit>): string {
    StripRight(Join(["# " + Title(kind), ""] + AllEntries(units))) + "\n"
  }

  /** From line k on: an empty line, the title and one bullet for every item; nothing if there is no item. */
  ghost predicate ListedAt(lines: seq<string>, k: nat, title: string, items: seq<string>) {
    items != [] ==> (k + 2 + |items| <= |lines| && lines[k] == "" && lines[k + 1] == title
                     && forall i | 0 <= i < |items| :: lines[k + 2 + i] == "- " + items[i])
  }

  function Height(n: nat): nat { if n == 0 then 0 else n + 2 }

  /** The conditions of a unit stand under their title, the exceptions under theirs, the sources last; between the
      marker lines there is nothing else but the heading and the content. */
  ghost predicate Layout(u: Unit, lines: seq<string>) {
    var c, e, r := 4 + Height(|u.conditions|), 4 + Height(|u.conditions|) + Height(|u.exceptions|), Height(|u.sourceRefs|);
    && |lines| == e + r + 2
    && lines[0] == "<!-- book2skill-unit-start: " + u.unitId + " -->" && lines[1] == "## " + u.unitId && lines[2] == "" && lines[3] == Newlines(u.content)
    && ListedAt(lines, 4, "**Conditions:**", u.conditions) && ListedAt(lines, c, "**Exceptions:**", u.exceptions)
    && (u.sourceRefs != [] ==> lines[e] == "" && lines[e + 1] == "**Sources:**")
    && (forall i | 0 <= i < |u.sourceRefs| :: lines[e + 2 + i] == RefLine(u.sourceRefs[i]))
    && lines[e + r] == "" && lines[e + r + 1] == "<!-- book2skill-unit-end: " + u.unitId + " -->"
  }

  lemma {:induction false} BulletsAre(items: seq<string>)
    ensures |Bullets(items)| == |items| && forall i | 0 <= i < |items| :: Bullets(items)[i] == "- " + items[i]
  {
    if items != [] { BulletsAre(items[1..]); }
  }

  lemma {:induction false} RefLinesAre(refs: seq<Ref>)
    ensures |RefLines(refs)| == |refs| && forall i | 0 <= i < |refs| :: RefLines(refs)[i] == RefLine(refs[i])
  {
    hide RefLine;
    if refs != [] { RefLinesAre(refs[1..]); }
  }

  lemma ListedIn(before: seq<string>, title: string, items: seq<string>, rest: seq<string>)
    ensures |Titled(title, Bullets(items))| == Height(|items|)
    ensures ListedAt(before + Titled(title, Bullets(items)) + rest, |before|, title, items)
  {
    BulletsAre(items);
    hide Bullets;
    var lines := before + Titled(title, Bullets(items)) + rest;
    forall i | 0 <= i < |items| ensures lines[|before| + 2 + i] == "- " + items[i] { assert lines[|before| + 2 + i] == Titled(title, Bullets(items))[2 + i]; }
  }

  lemma LayoutIs(u: Unit)
    ensures Layout(u, Entries(u))
  {
    hide Newlines, Bullets, RefLine, RefLines, ListedAt;
    var head := [START + u.unitId + CLOSE, "## " + u.unitId, "", Newlines(u.content)];
    var conditions, exceptions := Titled(CONDITIONS, Bullets(u.conditions)), Titled(EXCEPTIONS, Bullets(u.exceptions));
    var sources := Titled(SOURCES, RefLines(u.sourceRefs));
    var tail, lines := ["", END + u.unitId + CLOSE], Entries(u);
    ListedIn(head, CONDITIONS, u.conditions, exceptions + sources + tail);
    ListedIn(head + conditions, EXCEPTIONS, u.exceptions, sources + tail);
    RefLinesAre(u.sourceRefs);
    hide Titled;
    assert lines == head + conditions + (exceptions + sources + tail);
    assert lines == head + conditions + exceptions + (sources + tail);
    assert lines == head + conditions + exceptions + sources + tail;
    SourcesIn(head + conditions + exceptions, u.sourceRefs, tail);
  }

  lemma SourcesIn(before: seq<string>, refs: seq<Ref>, rest: seq<string>)
    ensures var lines, k := before + Titled(SOURCES, RefLines(refs)) + rest, |before|;
            && |Titled(SOURCES, RefLines(refs))| == Height(|refs|)
            && (refs != [] ==> lines[k] == "" && lines[k + 1] == SOURCES && forall i | 0 <= i < |refs| :: lines[k + 2 + i] == RefLine(refs[i]))
  {
    RefLinesAre(refs);
    hide RefLines, RefLine;
  }

  method RenderUnit(u: Unit) returns (lines: seq<string>)
    ensures lines == Entries(u) && Layout(u, lines)
  {
    LayoutIs(u);
    hide Layout;
    hide Newlines, Bullets, RefLines;
    lines := [START + u.unitId + CLOSE, "## " + u.unitId, "", Newlines(u.content)];
    var conditions := TitledList(CONDITIONS, u.conditions);
    var exceptions := TitledList(EXCEPTIONS, u.exceptions);
    lines := lines + conditions + exceptions;
    var refs := RefsRendered(u.sourceRefs);
    if u.sourceRefs != [] { lines := lines + (["", SOURCES] + refs); }
    assert refs == [] <==> u.sourceRefs == [] by { NoRefs(u.sourceRefs); }
    lines := lines + ["", END + u.unitId + CLOSE];
  }

  lemma NoRefs(refs: seq<Ref>)
    ensures RefLines(refs) == [] <==> refs == []
  {
  }

  method TitledList(title: string, items: seq<string>) returns (lines: seq<string>)
    ensures lines == Titled(title, Bullets(items))
  {
    lines := [];
    if items != [] {
      var bullets := Bulleted(items);
      lines := ["", title] + bullets;
    }
  }

  method RenderReference(kind: Kind, units: seq<Unit>) returns (text: string)
    ensures text == Rendered(kind, units)
  {
    hide Entries, Title;
    var lines := ["# " + Title(kind), ""];
    for i := 0 to |units|
      invariant lines == ["# " + Title(kind), ""] + AllEntries(units[..i])
    {
      assert units[..i + 1][..i] == units[..i];
      var more := RenderUnit(units[i]);
      lines := lines + more;
    }
    assert units[..|units|] == units;
    text := StripRight(Join(lines)) + "\n";
  }

  method Bulleted(items: seq<string>) returns (lines: seq<string>)
    ensures lines == Bullets(items)
  {
    lines := [];
    for i := 0 to |items|
      invariant lines + Bullets(items[i..]) == Bullets(items)
    {
      assert items[i..][0] == items[i] && items[i..][1..] == items[i + 1..];
      lines := lines + ["- " + items[i]];
    }
  }

  method RefsRendered(refs: seq<Ref>) returns (lines: seq<string>)
    ensures lines == RefLines(refs)
  {
    lines := [];
    for i := 0 to |refs|
      invariant lines + RefLines(refs[i..]) == RefLines(refs)
    {
      assert refs[i..][0] == refs[i] && refs[i..][1..] == refs[i + 1..];
      lines := lines + [RefLine(refs[i])];
    }
  }

  // ---- all files ----

  predicate Excluded(s: Status) { s == Rejected || s == Superseded }

  function Usable(units: seq<Unit>): (r: seq<Unit>)
    ensures forall u | u in r :: u in units && !Excluded(u.reviewStatus)
  {
    if units == [] then []
    else Usable(units[..|units| - 1]) + if Excluded(units[|units| - 1].reviewStatus) then [] else [units[|units| - 1]]
  }

  function OfKind(units: seq<Unit>, kind: Kind): (r: seq<Unit>)
    ensures forall u | u in r :: u in units && u.kind == kind
  {
    if units == [] then []
    else OfKind(units[..|units| - 1], kind) + if units[|units| - 1].kind == kind then [units[|units| - 1]] else []
  }

  /** The files of the first i kinds; a kind without units has none. */
  function KindFiles(usable: seq<Unit>, i: nat): seq<File>
    requires i <= |KIND_ORDER|
  {
    if i == 0 then []
    else
      var kind := KIND_ORDER[i - 1];
      var units := OfKind(usable, kind);
      KindFiles(usable, i - 1) + if units == [] then [] else [File(FileName(kind), Some(Rendered(kind, units)))]
  }

  const LEDGER := "provenance.md"

  function LedgerEntries(units: seq<Unit>): seq<string> {
    if units == [] then []
    else
      var u := units[|units| - 1];
      LedgerEntries(units[..|units| - 1]) + ["## " + u.unitId, "", SOURCES] + RefLines(u.sourceRefs) + [""]
  }

  function Ledger(units: seq<Unit>): string { StripRight(Join(["# Provenance", ""] + LedgerEntries(units))) + "\n" }

  /** The provenance ledger and one file per kind. */
  function ReferenceFiles(units: seq<Unit>): seq<File> {
    var usable := Usable(units);
    (if usable == [] then [] else [File(LEDGER, Some(Ledger(usable)))]) + KindFiles(usable, |KIND_ORDER|)
  }

  method BuildReferences(units: seq<Unit>) returns (files: seq<File>)
    ensures files == ReferenceFiles(units)
  {
    hide KindFiles, Ledger, OfKind;
    var usable := UsableUnits(units);
    var byKind := GroupByKind(usable);
    files := RenderKinds(usable, byKind);
    if usable != [] {
      var ledger := RenderLedger(usable);
      files := [File(LEDGER, Some(ledger))] + files;
    }
  }

  /** Every unit that is neither rejected nor superseded is printed, as often as it is given. */
  lemma {:induction false} UsableAre(units: seq<Unit>, u: Unit)
    ensures multiset(Usable(units))[u] == if u.reviewStatus == Rejected || u.reviewStatus == Superseded then 0 else multiset(units)[u]
  {
    if units != [] {
      UsableAre(units[..|units| - 1], u);
      assert units == units[..|units| - 1] + [units[|units| - 1]];
    }
  }

  method UsableUnits(units: seq<Unit>) returns (usable: seq<Unit>)
    ensures usable == Usable(units)
  {
    usable := [];
    for i := 0 to |units|
      invariant usable == Usable(units[..i])
    {
      assert units[..i + 1][..i] == units[..i];
      if !Excluded(units[i].reviewStatus) { usable := usable + [units[i]]; }
    }
    assert units[..|units|] == units;
  }

  method RenderKinds(usable: seq<Unit>, byKind: map<Kind, seq<Unit>>) returns (files: seq<File>)
    requires forall k :: (if k in byKind then byKind[k] else []) == OfKind(usable, k)
    requires forall k | k in byKind :: byKind[k] != []
    ensures files == KindFiles(usable, |KIND_ORDER|)
  {
    hide Rendered, OfKind, FileName;
    files := [];
    for i := 0 to |KIND_ORDER|
      invariant files == KindFiles(usable, i)
    {
      var kind := KIND_ORDER[i];
      assert (if kind in byKind then byKind[kind] else []) == OfKind(usable, kind);
      if kind in byKind {
        var text := RenderReference(kind, byKind[kind]);
        files := files + [File(FileName(kind), Some(text))];
      }
    }
  }

  method GroupByKind(units: seq<Unit>) returns (byKind: map<Kind, seq<Unit>>)
    ensures forall k :: (if k in byKind then byKind[k] else []) == OfKind(units, k)
    ensures forall k | k in byKind :: byKind[k] != []
  {
    byKind := map[];
    for i := 0 to |units|
      invariant forall k :: (if k in byKind then byKind[k] else []) == OfKind(units[..i], k)
      invariant forall k | k in byKind :: byKind[k] != []
    {
      assert units[..i + 1][..i] == units[..i];
      var u := units[i];
      byKind := byKind[u.kind := (if u.kind in byKind then byKind[u.kind] else []) + [u]];
    }
    assert units[..|units|] == units;
  }

  /** From line k on: the heading of the unit and a line for each of its references. */
  ghost predicate LedgerAt(lines: seq<string>, k: nat, u: Unit) {
    && k + 4 + |u.sourceRefs| <= |lines| && lines[k] == "## " + u.unitId && lines[k + 1] == "" && lines[k + 2] == "**Sources:**"
    && (forall i | 0 <= i < |u.sourceRefs| :: lines[k + 3 + i] == RefLine(u.sourceRefs[i]))
    && lines[k + 3 + |u.sourceRefs|] == ""
  }

  /** The lines hold every unit in order, with all its references, and nothing else. */
  ghost predicate LedgerIs(units: seq<Unit>, lines: seq<string>, at: seq<nat>) {
    && |at| == |units| + 1 && at[0] == 0 && at[|units|] == |lines|
    && forall i | 0 <= i < |units| :: at[i + 1] == at[i] + 4 + |units[i].sourceRefs| && LedgerAt(lines, at[i], units[i])
  }

  lemma {:induction false} LedgerLayout(units: seq<Unit>) returns (at: seq<nat>)
    ensures LedgerIs(units, LedgerEntries(units), at)
  {
    hide RefLine, RefLines, LedgerAt;
    if units == [] {
      at := [0];
    } else {
      hide LedgerEntries, LedgerIs;
      var init, u := units[..|units| - 1], units[|units| - 1];
      at := LedgerLayout(init);
      var before, more := LedgerEntries(init), ["## " + u.unitId, "", SOURCES] + RefLines(u.sourceRefs) + [""];
      LedgerUnfold(units);
      assert units == init + [u];
      LedgerNext(before, u);
      RefLinesAre(u.sourceRefs);
      LedgerSnoc(init, before, at, u, more);
      at := at + [|before| + |more|];
    }
  }

  lemma LedgerUnfold(units: seq<Unit>)
    requires units != []
    ensures var u := units[|units| - 1];
            LedgerEntries(units) == LedgerEntries(units[..|units| - 1]) + (["## " + u.unitId, "", SOURCES] + RefLines(u.sourceRefs) + [""])
  {
  }

  lemma LedgerSnoc(units: seq<Unit>, lines: seq<string>, at: seq<nat>, u: Unit, more: seq<string>)
    requires LedgerIs(units, lines, at) && |more| == 4 + |u.sourceRefs| && LedgerAt(lines + more, |lines|, u)
    ensures LedgerIs(units + [u], lines + more, at + [|lines| + |more|])
  {
    hide LedgerAt;
    forall i | 0 <= i < |units| ensures LedgerAt(lines + more, at[i], units[i]) { LedgerLater(lines, more, at[i], units[i]); }
  }

  lemma LedgerLater(lines: seq<string>, more: seq<string>, k: nat, u: Unit)
    requires LedgerAt(lines, k, u)
    ensures LedgerAt(lines + more, k, u)
  {
    hide RefLine;
  }

  lemma LedgerNext(before: seq<string>, u: Unit)
    ensures LedgerAt(before + (["## " + u.unitId, "", SOURCES] + RefLines(u.sourceRefs) + [""]), |before|, u)
  {
    RefLinesAre(u.sourceRefs);
    hide RefLines, RefLine;
  }

  method RenderLedger(units: seq<Unit>) returns (text: string)
    ensures text == Ledger(units)
  {
    var lines := ["# Provenance", ""];
    for i := 0 to |units|
      invariant lines == ["# Provenance", ""] + LedgerEntries(units[..i])
    {
      assert units[..i + 1][..i] == units[..i];
      var refs := RefsRendered(units[i].sourceRefs);
      lines := lines + ["## " + units[i].unitId, "", SOURCES] + refs + [""];
    }
    assert units[..|units|] == units;
    text := StripRight(Join(lines)) + "\n";
  }
}
