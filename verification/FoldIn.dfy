/** Planning and recording an update over the append-only history
    (src/book2skill/application/update.py, lines 214-335 and 743-803). */
module FoldIn {
  import opened Knowledge
  import opened Views
  import opened Merge
  import opened MergeCollections
  import opened MergeOutcome

  datatype Suggestion = Suggestion(added: seq<Unit>, removed: seq<Unit>, modified: seq<Change>, merged: seq<Unit>)

  // ---- plan ----

  /** A generated candidate status is no drift: the unit takes the status it already has. */
  function Adjust(base: seq<Unit>, u: Unit): Unit {
    var was := Current(base, u.unitId);
    if was.Some? && u.reviewStatus == Candidate then u.(reviewStatus := was.value.reviewStatus) else u
  }

  function Adjusted(base: seq<Unit>, units: seq<Unit>): seq<Unit> {
    seq(|units|, i requires 0 <= i < |units| => Adjust(base, units[i]))
  }

  function Plan(history: seq<Unit>, analysed: seq<Unit>, active: seq<Override>, removals: bool): Suggestion
    requires AllValid(active)
  {
    var base := Active(history);
    var update := Adjusted(base, analysed);
    var d := Diff(base, update, removals);
    Suggestion(d.added, d.removed, d.modified, Merged(base, update, active, removals))
  }

  /** What planning answers. It refuses a collection without records or without active ones, and sources that
      yield no analysis. */
  datatype Planning = Planned(s: Suggestion) | NoUnits | NoActiveUnits | NoAnalysis

  function PlanOrRefuse(history: seq<Unit>, analysis: Option<seq<Unit>>, active: seq<Override>, removals: bool): Planning
    requires AllValid(active)
  {
    if history == [] then NoUnits
    else if Active(history) == [] then NoActiveUnits
    else if analysis.None? then NoAnalysis
    else Planned(Plan(history, analysis.value, active, removals))
  }

  method PlanUpdate(history: seq<Unit>, analysis: Option<seq<Unit>>, overrides: seq<Override>, removals: bool)
    returns (p: Planning, active: seq<Override>)
    requires AllValid(overrides)
    ensures AllValid(active) && p == PlanOrRefuse(history, analysis, active, removals)
    ensures p.Planned? ==> OnePerKey(active) && forall o :: o in active <==> Latest(overrides, o.unitId, o.field) == Some(o)
    ensures p.Planned? ==> IsMerge(Active(history), Adjusted(Active(history), analysis.value), active, removals, p.s.merged)
  {
    hide IsMerge, Landed, ConflictsAre, UnresolvableIs, Diff, Merged, Current, AllValid, OnePerKey;
    active := [];
    AllValidNone();
    if history == [] { return NoUnits, []; }
    var base := ActiveView(history);
    if base == [] { return NoActiveUnits, []; }
    if analysis.None? { return NoAnalysis, []; }
    var analysed, update := analysis.value, [];
    for i := 0 to |analysed|
      invariant |update| == i && forall j | 0 <= j < i :: update[j] == Adjust(base, analysed[j])
    {
      var u := analysed[i];
      var was := LatestRecord(base, u.unitId);
      if was.Some? && u.reviewStatus == Candidate { u := u.(reviewStatus := was.value.reviewStatus); }
      update := update + [u];
    }
    assert update == Adjusted(base, analysed);
    var d := ComputeDiff(base, update, removals);
    var r;
    r, active := MergeWithOverrides(base, update, overrides, removals);
    p := Planned(Suggestion(d.added, d.removed, d.modified, r.merged));
  }

  lemma AllValidNone()
    ensures AllValid([])
  {
  }

  // ---- approve and record ----

  predicate IsAdded(s: Suggestion, id: string) { exists i | 0 <= i < |s.added| :: s.added[i].unitId == id }

  predicate IsModified(s: Suggestion, id: string) { exists i | 0 <= i < |s.modified| :: s.modified[i].unitId == id }

  /** A clean confirm approves the changed candidates. */
  function ApproveUnit(s: Suggestion, u: Unit): Unit {
    if (IsAdded(s, u.unitId) || IsModified(s, u.unitId)) && u.reviewStatus in {Candidate, Reviewed}
    then u.(reviewStatus := Approved) else u
  }

  function Approve(s: Suggestion): (units: seq<Unit>)
    ensures |units| == |s.merged| && forall i | 0 <= i < |units| :: units[i] == ApproveUnit(s, s.merged[i])
  {
    seq(|s.merged|, i requires 0 <= i < |s.merged| => ApproveUnit(s, s.merged[i]))
  }

  /** The change of an id; a later one in the list would replace it. */
  function ChangeOf(changes: seq<Change>, id: string): (c: Option<Change>)
    ensures c.Some? ==> c.value in changes && c.value.unitId == id
    ensures c.None? ==> forall x | x in changes :: x.unitId != id
  {
    if changes == [] then None
    else
      assert changes == changes[..|changes| - 1] + [changes[|changes| - 1]];
      if changes[|changes| - 1].unitId == id then Some(changes[|changes| - 1]) else ChangeOf(changes[..|changes| - 1], id)
  }

  /** The record that a published unit appends, if it changed. */
  function RecordOf(s: Suggestion, u: Unit): Option<Unit> {
    if IsAdded(s, u.unitId) then Some(u)
    else
      var c := ChangeOf(s.modified, u.unitId);
      if c.Some? then Some(Supersession(c.value.prior, u)) else None
  }

  function Tombstone(u: Unit): Unit { Supersession(u, u.(reviewStatus := Superseded)) }

  function ChangedRecords(s: Suggestion, publish: seq<Unit>): seq<Unit> {
    if publish == [] then []
    else
      var r := RecordOf(s, publish[|publish| - 1]);
      ChangedRecords(s, publish[..|publish| - 1]) + if r.Some? then [r.value] else []
  }

  function Pending(s: Suggestion, publish: seq<Unit>): seq<Unit> {
    ChangedRecords(s, publish) + seq(|s.removed|, i requires 0 <= i < |s.removed| => Tombstone(s.removed[i]))
  }

  method PrepareChanges(s: Suggestion, publish: seq<Unit>) returns (pending: seq<Unit>)
    ensures pending == Pending(s, publish)
  {
    var addedIds := set i | 0 <= i < |s.added| :: s.added[i].unitId;
    var changes: map<string, Change> := map[];
    for i := 0 to |s.modified|
      invariant forall id :: (if id in changes then Some(changes[id]) else None) == ChangeOf(s.modified[..i], id)
    {
      assert s.modified[..i + 1][..i] == s.modified[..i];
      changes := changes[s.modified[i].unitId := s.modified[i]];
    }
    assert s.modified[..|s.modified|] == s.modified;
    pending := [];
    for i := 0 to |publish|
      invariant pending == ChangedRecords(s, publish[..i])
    {
      assert publish[..i + 1][..i] == publish[..i];
      var u := publish[i];
      assert u.unitId in addedIds <==> IsAdded(s, u.unitId);
      if u.unitId in addedIds {
        pending := pending + [u];
      } else if u.unitId in changes {
        pending := pending + [Supersession(changes[u.unitId].prior, u)];
      }
    }
    assert publish[..|publish|] == publish;
    ghost var changed := pending;
    for i := 0 to |s.removed|
      invariant pending == changed + seq(i, j requires 0 <= j < i => Tombstone(s.removed[j]))
    {
      pending := pending + [Supersession(s.removed[i], s.removed[i].(reviewStatus := Superseded))];
    }
  }

  method ApproveConfirmed(s: Suggestion) returns (units: seq<Unit>)
    ensures units == Approve(s)
  {
    var changedIds := (set i | 0 <= i < |s.added| :: s.added[i].unitId) + (set i | 0 <= i < |s.modified| :: s.modified[i].unitId);
    units := [];
    for i := 0 to |s.merged|
      invariant |units| == i && forall j | 0 <= j < i :: units[j] == ApproveUnit(s, s.merged[j])
    {
      var u := s.merged[i];
      assert u.unitId in changedIds <==> IsAdded(s, u.unitId) || IsModified(s, u.unitId);
      if u.unitId in changedIds && u.reviewStatus in {Candidate, Reviewed} { u := u.(reviewStatus := Approved); }
      units := units + [u];
    }
  }
}
