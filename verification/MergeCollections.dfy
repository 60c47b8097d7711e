/** Diff and three-way merge of whole collections (src/book2skill/application/diff.py, lines 206-383). */
module MergeCollections {
  import opened Knowledge
  import opened Views
  import opened Merge
  import opened MergeOutcome
  import Conflicts

  // ---- diff ----

  datatype Change = Change(unitId: string, prior: Unit, update: Unit, fields: seq<Field>)

  datatype DiffResult = DiffResult(
    added: seq<Unit>, removed: seq<Unit>, modified: seq<Change>, conflicts: seq<Conflicts.Conflict>, same: seq<Unit>)

  predicate Has(records: seq<Unit>, id: string) { Current(records, id).Some? }

  /** What one unit of the new collection adds to the result. */
  function Classify(r: DiffResult, prior: seq<Unit>, u: Unit): DiffResult {
    var was := Current(prior, u.unitId);
    if was.None? then r.(added := r.added + [u])
    else
      var fields := ChangedFields(was.value, u);
      if fields != [] then r.(modified := r.modified + [Change(u.unitId, was.value, u, fields)])
      else r.(same := r.same + [u])
  }

  function ClassifyAll(prior: seq<Unit>, view: seq<Unit>): DiffResult {
    if view == [] then DiffResult([], [], [], [], [])
    else Classify(ClassifyAll(prior, view[..|view| - 1]), prior, view[|view| - 1])
  }

  function Absent(view: seq<Unit>, update: seq<Unit>): seq<Unit> {
    if view == [] then []
    else
      var u := view[|view| - 1];
      Absent(view[..|view| - 1], update) + if Has(update, u.unitId) then [] else [u]
  }

  /** The program also drops repeated (id, version) pairs from it; ids are distinct, so there are none. */
  function Union(prior: seq<Unit>, update: seq<Unit>): seq<Unit> { View(prior) + Absent(View(update), prior) }

  /** The diff of two collections; without removals, units that only the prior one has stay unchanged. */
  function Diff(prior: seq<Unit>, update: seq<Unit>, removals: bool): DiffResult {
    var r := ClassifyAll(prior, View(update));
    var gone := Absent(View(prior), update);
    var conflicts := Conflicts.DoubleLoop(Union(prior, update));
    if removals then r.(removed := gone, conflicts := conflicts)
    else r.(same := r.same + gone, conflicts := conflicts)
  }

  method ComputeDiff(prior: seq<Unit>, update: seq<Unit>, removals: bool) returns (r: DiffResult)
    ensures r == Diff(prior, update, removals)
  {
    hide ChangedFields, Conflicts.DoubleLoop, Ids, Current;
    var priorView := CurrentView(prior);
    var updateView := CurrentView(update);
    r := DiffResult([], [], [], [], []);
    for i := 0 to |updateView|
      invariant r == ClassifyAll(prior, updateView[..i])
    {
      assert updateView[..i + 1][..i] == updateView[..i];
      var u := updateView[i];
      var was := LatestRecord(prior, u.unitId);
      if was.None? {
        r := r.(added := r.added + [u]);
      } else {
        var fields := FieldsChanged(was.value, u);
        if fields != [] {
          r := r.(modified := r.modified + [Change(u.unitId, was.value, u, fields)]);
        } else {
          r := r.(same := r.same + [u]);
        }
      }
    }
    assert updateView[..|updateView|] == updateView;
    var gone := Without(priorView, update);
    var extra := Without(updateView, prior);
    var conflicts := Conflicts.DetectConflicts(priorView + extra);
    r := if removals then r.(removed := gone, conflicts := conflicts) else r.(same := r.same + gone, conflicts := conflicts);
  }

  method Without(view: seq<Unit>, other: seq<Unit>) returns (rest: seq<Unit>)
    ensures rest == Absent(view, other)
  {
    rest := [];
    for i := 0 to |view|
      invariant rest == Absent(view[..i], other)
    {
      assert view[..i + 1][..i] == view[..i];
      var there := LatestRecord(other, view[i].unitId);
      if there.None? { rest := rest + [view[i]]; }
    }
    assert view[..|view|] == view;
  }

  // ---- what the diff says ----

  lemma {:induction false} AbsentIs(view: seq<Unit>, other: seq<Unit>)
    ensures forall u :: u in Absent(view, other) <==> u in view && !Has(other, u.unitId)
    ensures OneEach(view) ==> OneEach(Absent(view, other))
  {
    if view != [] {
      var init, last := view[..|view| - 1], view[|view| - 1];
      AbsentIs(init, other);
      assert view == init + [last];
      if OneEach(view) {
        forall i | 0 <= i < |Absent(init, other)| ensures Absent(init, other)[i].unitId != last.unitId {
          assert Absent(init, other)[i] in init;
          var j :| 0 <= j < |init| && init[j] == Absent(init, other)[i];
          assert view[j] == init[j];
        }
      }
    }
  }

  lemma {:induction false} ClassifyIs(prior: seq<Unit>, view: seq<Unit>)
    requires OneEach(view)
    ensures var r := ClassifyAll(prior, view);
            && (forall u :: u in r.added <==> u in view && !Has(prior, u.unitId))
            && (forall c :: c in r.modified <==>
                  && c.update in view && Has(prior, c.unitId)
                  && c == Change(c.update.unitId, Current(prior, c.unitId).value, c.update, ChangedFields(Current(prior, c.unitId).value, c.update))
                  && c.fields != [])
            && (forall u :: u in r.same <==> u in view && Has(prior, u.unitId) && ChangedFields(Current(prior, u.unitId).value, u) == [])
            && r.removed == []
  {
    if view != [] {
      var init, last := view[..|view| - 1], view[|view| - 1];
      assert view == init + [last];
      forall i, j | 0 <= i < j < |init| ensures init[i].unitId != init[j].unitId { assert view[i] == init[i] && view[j] == init[j]; }
      ClassifyIs(prior, init);
      hide ChangedFields, Current;
    }
  }

  /** Both sides have the unit, without a changed field. */
  predicate Stays(prior: seq<Unit>, update: seq<Unit>, u: Unit) {
    Current(update, u.unitId) == Some(u) && Has(prior, u.unitId) && ChangedFields(Current(prior, u.unitId).value, u) == []
  }

  /** Every id of either side falls into exactly one class. */
  lemma DiffIs(prior: seq<Unit>, update: seq<Unit>, removals: bool)
    ensures var r := Diff(prior, update, removals);
            && (forall u :: u in r.added <==> Current(update, u.unitId) == Some(u) && !Has(prior, u.unitId))
            && (forall u :: u in r.removed <==> removals && Current(prior, u.unitId) == Some(u) && !Has(update, u.unitId))
            && (forall c :: c in r.modified <==>
                  && Current(update, c.unitId) == Some(c.update) && Current(prior, c.unitId) == Some(c.prior)
                  && c.fields == ChangedFields(c.prior, c.update) && c.fields != [])
            && (forall u :: u in r.same <==> Stays(prior, update, u) || (!removals && Current(prior, u.unitId) == Some(u) && !Has(update, u.unitId)))
  {
    var r := Diff(prior, update, removals);
    ViewOneEach(update);
    ViewOneEach(prior);
    ClassifyIs(prior, View(update));
    AbsentIs(View(prior), update);
    InView(prior);
    InView(update);
    hide ChangedFields, View, Ids, ClassifyAll;
    forall c ensures c in r.modified <==> Current(update, c.unitId) == Some(c.update) && Current(prior, c.unitId) == Some(c.prior)
                                          && c.fields == ChangedFields(c.prior, c.update) && c.fields != [] {
      if Current(update, c.unitId) == Some(c.update) { assert c.update in View(update); }
    }
  }

  lemma InView(records: seq<Unit>)
    ensures forall u :: u in View(records) <==> Current(records, u.unitId) == Some(u)
  {
    var view := View(records);
    forall u ensures u in view <==> Current(records, u.unitId) == Some(u) {
      CurrentExists(records, u.unitId);
      if Current(records, u.unitId) == Some(u) {
        var i :| 0 <= i < |Ids(records)| && Ids(records)[i] == u.unitId;
        assert view[i] == u;
      }
    }
  }

  // ---- merge ----

  /** The overrides of one unit, in order. */
  function Of(active: seq<Override>, id: string): (os: seq<Override>)
    ensures forall o :: o in os <==> o in active && o.unitId == id
  {
    if active == [] then []
    else Of(active[..|active| - 1], id) + if active[|active| - 1].unitId == id then [active[|active| - 1]] else []
  }

  function NotIn(ids: seq<string>, others: seq<string>): (rest: seq<string>)
    ensures forall id :: id in rest <==> id in ids && id !in others
    ensures (forall i, j | 0 <= i < j < |ids| :: ids[i] != ids[j]) ==> forall i, j | 0 <= i < j < |rest| :: rest[i] != rest[j]
  {
    if ids == [] then []
    else
      assert ids == ids[..|ids| - 1] + [ids[|ids| - 1]];
      NotIn(ids[..|ids| - 1], others) + if ids[|ids| - 1] in others then [] else [ids[|ids| - 1]]
  }

  /** Removal mode goes by the new collection; add-only mode keeps the base's order and appends. */
  function OrderedIds(base: seq<Unit>, theirs: seq<Unit>, removals: bool): seq<string> {
    if removals then Ids(theirs) else Ids(base) + NotIn(Ids(theirs), Ids(base))
  }

  /** The ids whose overrides are only preserved at the end. */
  function GoneIds(base: seq<Unit>, theirs: seq<Unit>, removals: bool): seq<string> {
    if removals then NotIn(Ids(base), Ids(theirs)) else []
  }

  function MergedFor(base: seq<Unit>, theirs: seq<Unit>, active: seq<Override>, id: string): Unit
    requires Has(base, id) || Has(theirs, id)
    requires AllValid(active)
  {
    if !Has(theirs, id) then MergedUnit(Current(base, id).value, Current(base, id).value, Of(active, id))
    else if !Has(base, id) then Current(theirs, id).value
    else MergedUnit(Current(base, id).value, Current(theirs, id).value, Of(active, id))
  }

  lemma OrderedIn(base: seq<Unit>, theirs: seq<Unit>, removals: bool)
    ensures forall id | id in OrderedIds(base, theirs, removals) :: Has(base, id) || Has(theirs, id)
    ensures forall i, j | 0 <= i < j < |OrderedIds(base, theirs, removals)| :: OrderedIds(base, theirs, removals)[i] != OrderedIds(base, theirs, removals)[j]
  {
    forall id ensures (id in Ids(base) <==> Has(base, id)) && (id in Ids(theirs) <==> Has(theirs, id)) {
      CurrentExists(base, id);
      CurrentExists(theirs, id);
    }
    var rest := NotIn(Ids(theirs), Ids(base));
    forall i | 0 <= i < |rest| ensures rest[i] !in Ids(base) { assert rest[i] in rest; }
  }

  /** The merged units, each id once. */
  function Merged(base: seq<Unit>, theirs: seq<Unit>, active: seq<Override>, removals: bool): (merged: seq<Unit>)
    requires AllValid(active)
    ensures |merged| == |OrderedIds(base, theirs, removals)|
    ensures forall i | 0 <= i < |merged| :: merged[i].unitId == OrderedIds(base, theirs, removals)[i]
  {
    OrderedIn(base, theirs, removals);
    var ids := OrderedIds(base, theirs, removals);
    forall i | 0 <= i < |ids| ensures MergedFor(base, theirs, active, ids[i]).unitId == ids[i] { MergedForId(base, theirs, active, ids[i]); }
    seq(|ids|, i requires 0 <= i < |ids| => assert ids[i] in ids; MergedFor(base, theirs, active, ids[i]))
  }

  lemma MergedForId(base: seq<Unit>, theirs: seq<Unit>, active: seq<Override>, id: string)
    requires (Has(base, id) || Has(theirs, id)) && AllValid(active)
    ensures MergedFor(base, theirs, active, id).unitId == id
  {
    if Has(base, id) {
      FieldLaw(Current(base, id).value, Current(base, id).value, Of(active, id), KindField);
      if Has(theirs, id) { FieldLaw(Current(base, id).value, Current(theirs, id).value, Of(active, id), KindField); }
    }
  }

  datatype MergeResult = MergeResult(
    merged: seq<Unit>, applied: seq<Override>, preserved: seq<Override>, conflicts: seq<MergeConflict>, unresolvable: seq<string>)

  /** Whether a conflict on that field of that unit is due. */
  predicate Due(base: seq<Unit>, theirs: seq<Unit>, active: seq<Override>, id: string, f: Field) {
    Has(base, id) && Has(theirs, id) &&
    Clashes(Get(Current(base, id).value, f), Get(Current(theirs, id).value, f), OverrideFor(Of(active, id), f))
  }

  /** The conflict tells the values of the override and of the new record. */
  ghost predicate Told(theirs: seq<Unit>, active: seq<Override>, c: MergeConflict) {
    Has(theirs, c.unitId) && Tells(c, Current(theirs, c.unitId).value, Of(active, c.unitId))
  }

  ghost predicate ConflictsDue(base: seq<Unit>, theirs: seq<Unit>, active: seq<Override>, ids: seq<string>, cs: seq<MergeConflict>) {
    && (forall k | 0 <= k < |cs| :: cs[k].number == k && Told(theirs, active, cs[k]))
    && (forall id, f :: id in ids && Due(base, theirs, active, id, f) <==> exists k | 0 <= k < |cs| :: cs[k].unitId == id && cs[k].field == f)
    && (forall j, k | 0 <= j < k < |cs| :: cs[j].unitId != cs[k].unitId || cs[j].field != cs[k].field)
  }

  /** A conflict is recorded for a unit and field exactly when base, override and new value pairwise differ;
      the numbers are 0 to n - 1. */
  ghost predicate ConflictsExact(base: seq<Unit>, theirs: seq<Unit>, active: seq<Override>, cs: seq<MergeConflict>) {
    && (forall k | 0 <= k < |cs| :: cs[k].number == k && Told(theirs, active, cs[k]))
    && (forall id, f :: Due(base, theirs, active, id, f) <==> exists k | 0 <= k < |cs| :: cs[k].unitId == id && cs[k].field == f)
    && (forall j, k | 0 <= j < k < |cs| :: cs[j].unitId != cs[k].unitId || cs[j].field != cs[k].field)
  }

  function AllOf(active: seq<Override>, ids: seq<string>): seq<Override> {
    if ids == [] then [] else AllOf(active, ids[..|ids| - 1]) + Of(active, ids[|ids| - 1])
  }

  function Concerned(active: seq<Override>, ids: seq<string>): seq<Override> {
    if active == [] then []
    else Concerned(active[..|active| - 1], ids) + if active[|active| - 1].unitId in ids then [active[|active| - 1]] else []
  }

  /** The overrides on units of either view. */
  function OnEither(active: seq<Override>, base: seq<Unit>, theirs: seq<Unit>): seq<Override> {
    if active == [] then []
    else
      var o := active[|active| - 1];
      OnEither(active[..|active| - 1], base, theirs) + if Has(base, o.unitId) || Has(theirs, o.unitId) then [o] else []
  }

  lemma {:induction false} EitherIs(active: seq<Override>, base: seq<Unit>, theirs: seq<Unit>, ids: seq<string>)
    requires forall id :: id in ids <==> Has(base, id) || Has(theirs, id)
    ensures Concerned(active, ids) == OnEither(active, base, theirs)
  {
    if active != [] { EitherIs(active[..|active| - 1], base, theirs, ids); }
  }

  lemma {:induction false} ConcernedSplit(active: seq<Override>, ids: seq<string>, id: string)
    requires id !in ids
    ensures multiset(Concerned(active, ids + [id])) == multiset(Concerned(active, ids)) + multiset(Of(active, id))
  {
    if active != [] {
      ConcernedSplit(active[..|active| - 1], ids, id);
      assert forall x :: x in ids + [id] <==> x in ids || x == id;
    }
  }

  lemma {:induction false} AllOfIs(active: seq<Override>, ids: seq<string>)
    requires forall i, j | 0 <= i < j < |ids| :: ids[i] != ids[j]
    ensures multiset(AllOf(active, ids)) == multiset(Concerned(active, ids))
  {
    if ids == [] {
      NoneConcerned(active);
    } else {
      var init, last := ids[..|ids| - 1], ids[|ids| - 1];
      AllOfIs(active, init);
      assert ids == init + [last];
      ConcernedSplit(active, init, last);
    }
  }

  lemma {:induction false} NoneConcerned(active: seq<Override>)
    ensures Concerned(active, []) == []
  {
    if active != [] { NoneConcerned(active[..|active| - 1]); }
  }

  /** The fields of a merged unit, from the laws for one unit. */
  lemma FieldIsMerged(b: Unit, n: Unit, active: seq<Override>, f: Field)
    requires AllValid(active) && OnePerKey(active) && AllValid(Of(active, b.unitId))
    ensures FieldMerged(b, n, active, MergedUnit(b, n, Of(active, b.unitId)), f)
  {
    var os := Of(active, b.unitId);
    FieldLaw(b, n, os, f);
    OfDistinct(active, b.unitId);
    hide Of, MergedUnit, ValuesEqual, Get, AllValid, OnePerKey, OverrideFor;
    forall o | o in active && o.unitId == b.unitId && o.field == f ensures OverrideFor(os, f) == Some(o) { OverrideFound(os, o); }
    if OverrideFor(os, f).Some? {
      var o := OverrideFor(os, f).value;
      assert o in active && o.unitId == b.unitId && o.field == f;
      assert !ValuesEqual(Get(b, f), o.value) ==> Edits(active, b, f, o);
    }
  }

  lemma MergedForIs(base: seq<Unit>, theirs: seq<Unit>, active: seq<Override>, id: string)
    requires (Has(base, id) || Has(theirs, id)) && AllValid(active) && OnePerKey(active)
    ensures MergedFor(base, theirs, active, id).unitId == id
    ensures UnitMerged(base, theirs, active, MergedFor(base, theirs, active, id))
  {
    MergedForId(base, theirs, active, id);
    if Has(base, id) {
      var b := Current(base, id).value;
      var n := if Has(theirs, id) then Current(theirs, id).value else b;
      var u := MergedFor(base, theirs, active, id);
      assert u == MergedUnit(b, n, Of(active, id));
      assert AllValid(Of(active, id));
      hide MergedFor, FieldMerged, MergedUnit, Of, Current;
      FieldLaw(b, n, Of(active, id), KindField);
      forall f ensures FieldMerged(b, n, active, u, f) { FieldIsMerged(b, n, active, f); }
    }
  }

  lemma {:induction false} OfDistinct(active: seq<Override>, id: string)
    requires OnePerKey(active)
    ensures OfOneUnit(Of(active, id))
  {
    if active != [] {
      var init, last := active[..|active| - 1], active[|active| - 1];
      OfDistinct(init, id);
      forall i | 0 <= i < |Of(init, id)| && last.unitId == id ensures Of(init, id)[i].field != last.field {
        assert Of(init, id)[i] in Of(init, id);
        var j :| 0 <= j < |init| && init[j] == Of(init, id)[i];
        assert !SameKey(active[j], active[|active| - 1]);
      }
    }
  }

  method GroupByUnit(active: seq<Override>) returns (groups: map<string, seq<Override>>)
    ensures forall id :: Group(groups, id) == Of(active, id)
  {
    groups := map[];
    for i := 0 to |active|
      invariant forall id :: Group(groups, id) == Of(active[..i], id)
    {
      var o := active[i];
      assert active[..i + 1][..i] == active[..i];
      groups := groups[o.unitId := Group(groups, o.unitId) + [o]];
    }
    assert active[..|active|] == active;
  }

  function Group(groups: map<string, seq<Override>>, id: string): seq<Override> { if id in groups then groups[id] else [] }

  lemma ReflexiveValues(v: Value)
    ensures ValuesEqual(v, v)
  {
  }

  lemma ConflictIn(base: seq<Unit>, theirs: seq<Unit>, active: seq<Override>, ids: seq<string>, cs: seq<MergeConflict>, k: nat)
    requires ConflictsDue(base, theirs, active, ids, cs) && k < |cs|
    ensures cs[k].unitId in ids
  {
    hide Due;
    var id, f := cs[k].unitId, cs[k].field;
    var due := Due(base, theirs, active, id, f);
    assert cs[k].unitId == id && cs[k].field == f;
  }

  /** One unit more: its conflicts are appended, with the numbers that follow. */
  lemma ConflictsGrow(base: seq<Unit>, theirs: seq<Unit>, active: seq<Override>, ids: seq<string>, cs: seq<MergeConflict>, id: string, more: seq<MergeConflict>)
    requires id !in ids && ConflictsDue(base, theirs, active, ids, cs)
    requires more == ConflictsFor(base, theirs, active, id, |cs|)
    ensures ConflictsDue(base, theirs, active, ids + [id], cs + more)
  {
    var all := cs + more;
    ConflictsForIs(base, theirs, active, id, |cs|);
    hide ConflictsFor, Due, Told;
    forall k | 0 <= k < |cs| ensures cs[k].unitId in ids { ConflictIn(base, theirs, active, ids, cs, k); }
    forall x, f ensures x in ids + [id] && Due(base, theirs, active, x, f) <==> exists k | 0 <= k < |all| :: all[k].unitId == x && all[k].field == f {
      DueSplit(cs, more, ids, id, x, f);
    }
  }

  /** The conflicts of one unit: none without a base, and none when the base is merged with itself. */
  function ConflictsFor(base: seq<Unit>, theirs: seq<Unit>, active: seq<Override>, id: string, offset: nat): seq<MergeConflict> {
    if !Has(base, id) then []
    else
      var b := Current(base, id).value;
      ConflictsOf(b, if Has(theirs, id) then Current(theirs, id).value else b, Of(active, id), id, offset, |DIFFED_FIELDS|)
  }

  lemma ConflictsForIs(base: seq<Unit>, theirs: seq<Unit>, active: seq<Override>, id: string, offset: nat)
    ensures var cs := ConflictsFor(base, theirs, active, id, offset);
            && (forall k | 0 <= k < |cs| :: cs[k].number == offset + k && cs[k].unitId == id && Told(theirs, active, cs[k]))
            && (forall f :: Due(base, theirs, active, id, f) <==> exists k | 0 <= k < |cs| :: cs[k].field == f)
            && (forall j, k | 0 <= j < k < |cs| :: cs[j].field != cs[k].field)
  {
    if Has(base, id) {
      var b := Current(base, id).value;
      var n := if Has(theirs, id) then Current(theirs, id).value else b;
      assert ConflictsFor(base, theirs, active, id, offset) == ConflictsOf(b, n, Of(active, id), id, offset, |DIFFED_FIELDS|);
      hide ConflictsFor, ConflictsOf, Current, Of, OverrideFor, Get, ValuesEqual;
      ConflictLaw(b, n, Of(active, id), id, offset, |DIFFED_FIELDS|);
      forall f ensures Due(base, theirs, active, id, f) <==> Clashes(Get(b, f), Get(n, f), OverrideFor(Of(active, id), f)) {
        ReflexiveValues(Get(b, f));
      }
      var cs := ConflictsFor(base, theirs, active, id, offset);
      hide Tells;
      forall k | 0 <= k < |cs| ensures Told(theirs, active, cs[k]) {
        var due := Due(base, theirs, active, id, cs[k].field);
        assert Names(cs, cs[k].field);
      }
    }
  }

  lemma DueSplit(cs: seq<MergeConflict>, more: seq<MergeConflict>, ids: seq<string>, id: string, x: string, f: Field)
    requires forall k | 0 <= k < |cs| :: cs[k].unitId in ids
    requires forall k | 0 <= k < |more| :: more[k].unitId == id
    requires id !in ids
    ensures (exists k | 0 <= k < |cs + more| :: (cs + more)[k].unitId == x && (cs + more)[k].field == f) <==>
              if x == id then exists k | 0 <= k < |more| :: more[k].field == f
              else exists k | 0 <= k < |cs| :: cs[k].unitId == x && cs[k].field == f
  {
    var all := cs + more;
    if k :| 0 <= k < |all| && all[k].unitId == x && all[k].field == f {
      if k < |cs| { assert cs[k] == all[k]; } else { assert more[k - |cs|] == all[k]; }
    }
    if k :| 0 <= k < |cs| && cs[k].unitId == x && cs[k].field == f && x != id { assert all[k] == cs[k]; }
    if k :| 0 <= k < |more| && more[k].field == f && x == id { assert all[|cs| + k] == more[k]; }
  }

  /** The overrides of one unit: applied when there is a base to merge with, preserved otherwise. */
  method MergeOne(base: seq<Unit>, theirs: seq<Unit>, ghost active: seq<Override>, os: seq<Override>, id: string, offset: nat)
    returns (merged: Unit, applied: seq<Override>, preserved: seq<Override>, conflicts: seq<MergeConflict>, unresolvable: bool)
    requires (Has(base, id) || Has(theirs, id)) && AllValid(active) && OnePerKey(active) && os == Of(active, id)
    ensures merged == MergedFor(base, theirs, active, id)
    ensures multiset(applied + preserved) == multiset(os)
    ensures (applied != [] ==> Has(base, id)) && (preserved != [] ==> !Has(base, id))
    ensures conflicts == ConflictsFor(base, theirs, active, id, offset)
    ensures unresolvable <==> conflicts != []
  {
    var b := LatestRecord(base, id);
    var n := LatestRecord(theirs, id);
    OfDistinct(active, id);
    AppliedOnce(os);
    preserved := [];
    if n.None? {
      merged, applied, conflicts, unresolvable := MergeUnit(b.value, b.value, os, id, offset);
    } else if b.None? {
      merged, applied, preserved, conflicts, unresolvable := n.value, [], os, [], false;
    } else {
      merged, applied, conflicts, unresolvable := MergeUnit(b.value, n.value, os, id, offset);
    }
    assert applied + preserved == if b.None? then os else applied;
  }

  /** The state of the merge after the first i units. */
  ghost predicate Progress(base: seq<Unit>, theirs: seq<Unit>, active: seq<Override>, ids: seq<string>, i: nat, r: MergeResult)
    requires i <= |ids| && AllValid(active) && forall k | 0 <= k < |ids| :: Has(base, ids[k]) || Has(theirs, ids[k])
  {
    && |r.merged| == i && (forall k | 0 <= k < i :: r.merged[k] == MergedFor(base, theirs, active, ids[k]))
    && multiset(r.applied + r.preserved) == multiset(AllOf(active, ids[..i]))
    && (forall o | o in r.applied :: Has(base, o.unitId) && o.unitId in ids[..i])
    && (forall o | o in r.preserved :: !Has(base, o.unitId))
    && ConflictsDue(base, theirs, active, ids[..i], r.conflicts)
    && UnresolvableIs(r.conflicts, r.unresolvable)
  }

  /** A unit is reported as unresolvable when it has a conflict. */
  ghost predicate UnresolvableIs(cs: seq<MergeConflict>, ids: seq<string>) {
    forall id :: id in ids <==> exists k | 0 <= k < |cs| :: cs[k].unitId == id
  }

  lemma UnresolvableGrows(cs: seq<MergeConflict>, ids: seq<string>, more: seq<MergeConflict>, id: string)
    requires UnresolvableIs(cs, ids) && forall k | 0 <= k < |more| :: more[k].unitId == id
    ensures UnresolvableIs(cs + more, if more != [] then ids + [id] else ids)
  {
    var all := cs + more;
    assert forall k | 0 <= k < |all| :: all[k].unitId == if k < |cs| then cs[k].unitId else id;
    assert forall k | 0 <= k < |cs| :: cs[k].unitId == all[k].unitId;
    if more != [] { assert all[|cs|].unitId == id; }
  }

  lemma Begin(base: seq<Unit>, theirs: seq<Unit>, active: seq<Override>, ids: seq<string>)
    requires AllValid(active) && forall k | 0 <= k < |ids| :: Has(base, ids[k]) || Has(theirs, ids[k])
    ensures Progress(base, theirs, active, ids, 0, MergeResult([], [], [], [], []))
  {
  }

  function Extended(r: MergeResult, one: Unit, applied: seq<Override>, preserved: seq<Override>, conflicts: seq<MergeConflict>, id: string): MergeResult {
    MergeResult(r.merged + [one], r.applied + applied, r.preserved + preserved, r.conflicts + conflicts,
                if conflicts != [] then r.unresolvable + [id] else r.unresolvable)
  }

  lemma Step(base: seq<Unit>, theirs: seq<Unit>, active: seq<Override>, ids: seq<string>, i: nat, r: MergeResult,
             applied: seq<Override>, preserved: seq<Override>, conflicts: seq<MergeConflict>)
    requires i < |ids| && AllValid(active) && (forall k | 0 <= k < |ids| :: Has(base, ids[k]) || Has(theirs, ids[k]))
    requires forall j, k | 0 <= j < k < |ids| :: ids[j] != ids[k]
    requires Progress(base, theirs, active, ids, i, r)
    requires multiset(applied + preserved) == multiset(Of(active, ids[i]))
    requires (applied != [] ==> Has(base, ids[i])) && (preserved != [] ==> !Has(base, ids[i]))
    requires conflicts == ConflictsFor(base, theirs, active, ids[i], |r.conflicts|)
    ensures Progress(base, theirs, active, ids, i + 1, Extended(r, MergedFor(base, theirs, active, ids[i]), applied, preserved, conflicts, ids[i]))
  {
    hide ConflictsFor, MergedFor, Current, AllValid, AllOf, ConflictsDue, Of;
    var id, done := ids[i], ids[..i];
    assert ids[..i + 1] == done + [id];
    ConflictsGrow(base, theirs, active, done, r.conflicts, id, conflicts);
    ConflictsForIs(base, theirs, active, id, |r.conflicts|);
    hide Due, Told, UnresolvableIs;
    UnresolvableGrows(r.conflicts, r.unresolvable, conflicts, id);
    GoneStep(active, ids, i);
    Landing(base, done, active, id, r.applied, r.preserved, applied, preserved);
  }

  lemma Landing(base: seq<Unit>, done: seq<string>, active: seq<Override>, id: string,
                landed: seq<Override>, kept: seq<Override>, applied: seq<Override>, preserved: seq<Override>)
    requires multiset(landed + kept) == multiset(AllOf(active, done)) && multiset(applied + preserved) == multiset(Of(active, id))
    requires (applied != [] ==> Has(base, id)) && (preserved != [] ==> !Has(base, id))
    requires (forall o | o in landed :: Has(base, o.unitId) && o.unitId in done) && (forall o | o in kept :: !Has(base, o.unitId))
    ensures multiset((landed + applied) + (kept + preserved)) == multiset(AllOf(active, done) + Of(active, id))
    ensures forall o | o in landed + applied :: Has(base, o.unitId) && o.unitId in done + [id]
    ensures forall o | o in kept + preserved :: !Has(base, o.unitId)
  {
    hide AllOf, Current;
    forall o | o in applied + preserved ensures o.unitId == id {
      assert multiset(applied + preserved)[o] > 0;
      assert o in multiset(Of(active, id));
    }
    forall o | o in landed + applied ensures Has(base, o.unitId) && o.unitId in done + [id] {
      if o in applied { assert o in applied + preserved; }
    }
    forall o | o in kept + preserved ensures !Has(base, o.unitId) {
      if o in preserved { assert o in applied + preserved; }
    }
  }

  /** Three-way merge. Each active override on a unit of either view lands exactly once in applied or
      preserved; a conflict is recorded exactly where base, override and new value pairwise differ, and
      the conflicts are numbered 0 to n - 1. */
  method MergeWithOverrides(base: seq<Unit>, theirs: seq<Unit>, overrides: seq<Override>, removals: bool)
    returns (r: MergeResult, active: seq<Override>)
    requires AllValid(overrides)
    ensures OnePerKey(active) && AllValid(active) && forall o :: o in active <==> Latest(overrides, o.unitId, o.field) == Some(o)
    ensures r.merged == Merged(base, theirs, active, removals)
    ensures IsMerge(base, theirs, active, removals, r.merged)
    ensures Landed(base, theirs, active, removals, r.merged, r.applied, r.preserved)
    ensures ConflictsAre(base, theirs, active, r.conflicts) && UnresolvableIs(r.conflicts, r.unresolvable)
  {
    hide Progress, IsMerge, Landed, ConflictsAre, UnresolvableIs, ConflictsExact, ConflictsFor, AllOf, Of, MergedFor;
    hide OrderedIds, GoneIds, OnePerKey, Ids, Current, Extended, Latest, OnEither, Merged, Group;
    active := ActiveOverrides(overrides);
    assert AllValid(active);
    hide AllValid;
    MergedIs(base, theirs, active, removals);
    var groups := GroupByUnit(active);
    var ids := OrderedIds(base, theirs, removals);
    OrderedIn(base, theirs, removals);
    r := MergeResult([], [], [], [], []);
    assert forall k | 0 <= k < |ids| :: ids[k] in ids;
    Begin(base, theirs, active, ids);
    for i := 0 to |ids|
      invariant Progress(base, theirs, active, ids, i, r)
    {
      var id := ids[i];
      var one, applied, preserved, conflicts, unresolvable := MergeOne(base, theirs, active, Group(groups, id), id, |r.conflicts|);
      Step(base, theirs, active, ids, i, r, applied, preserved, conflicts);
      r := Extended(r, one, applied, preserved, conflicts, id);
    }
    var gone := GoneIds(base, theirs, removals);
    ghost var before := r;
    assert AllOf(active, gone[..0]) == [] by { NothingOf(active, gone); }
    for i := 0 to |gone|
      invariant r == before.(preserved := r.preserved)
      invariant multiset(r.preserved) == multiset(before.preserved) + multiset(AllOf(active, gone[..i]))
      invariant forall o | o in r.preserved :: o in before.preserved || o.unitId in gone[..i]
    {
      GoneStep(active, gone, i);
      r := r.(preserved := r.preserved + Group(groups, gone[i]));
    }
    assert gone[..|gone|] == gone && ids[..|ids|] == ids;
    Finish(base, theirs, active, removals, before, r);
    LandedIs(base, theirs, active, removals, r.applied, r.preserved);
    ConflictsTell(base, theirs, active, r.conflicts);
  }

  // ---- what the merge says ----

  lemma {:induction false} NotInOrder(ids: seq<string>, others: seq<string>, i: nat, j: nat)
    requires i < j < |NotIn(ids, others)|
    ensures exists p: nat, q: nat | p < q < |ids| :: ids[p] == NotIn(ids, others)[i] && ids[q] == NotIn(ids, others)[j]
  {
    var init, n := ids[..|ids| - 1], |ids| - 1;
    var was, rest := NotIn(init, others), NotIn(ids, others);
    if j < |was| {
      NotInOrder(init, others, i, j);
      var p: nat, q: nat :| p < q < |init| && init[p] == was[i] && init[q] == was[j];
      assert ids[p] == rest[i] && ids[q] == rest[j];
    } else {
      assert was[i] in was;
      var p: nat :| p < |init| && init[p] == was[i];
      assert ids[p] == rest[i] && ids[n] == rest[j];
    }
  }

  lemma OrderFollows(base: seq<Unit>, theirs: seq<Unit>, removals: bool, i: nat, j: nat)
    requires i < j < |OrderedIds(base, theirs, removals)|
    ensures Follows(base, theirs, removals, OrderedIds(base, theirs, removals)[i], OrderedIds(base, theirs, removals)[j])
  {
    hide AppearsBefore, Current, Ids, NotIn;
    var ids, of := OrderedIds(base, theirs, removals), Ids(base);
    var rest := NotIn(Ids(theirs), of);
    CurrentExists(base, ids[i]);
    CurrentExists(base, ids[j]);
    if removals {
      IdsInOrder(theirs, i, j);
    } else if j < |of| {
      assert ids[i] == of[i] && ids[j] == of[j] && ids[j] in of;
      IdsInOrder(base, i, j);
    } else if i < |of| {
      assert ids[i] == of[i] && ids[i] in of && ids[j] == rest[j - |of|] && ids[j] in rest;
    } else {
      assert ids[i] == rest[i - |of|] && ids[j] == rest[j - |of|] && ids[j] in rest;
      NotInOrder(Ids(theirs), of, i - |of|, j - |of|);
      var p: nat, q: nat :| p < q < |Ids(theirs)| && Ids(theirs)[p] == ids[i] && Ids(theirs)[q] == ids[j];
      IdsInOrder(theirs, p, q);
    }
  }

  /** The merged collection, unit by unit, by the values of both sides and of the active overrides. */
  lemma MergedIs(base: seq<Unit>, theirs: seq<Unit>, active: seq<Override>, removals: bool)
    requires AllValid(active) && OnePerKey(active)
    ensures IsMerge(base, theirs, active, removals, Merged(base, theirs, active, removals))
  {
    hide OrderedIds, Follows, UnitMerged, MergedFor, Current, AllValid, OnePerKey, GoneIds, Listed, AppearsBefore;
    var merged, ids := Merged(base, theirs, active, removals), OrderedIds(base, theirs, removals);
    OrderedIn(base, theirs, removals);
    forall id ensures Listed(merged, id) <==> Has(theirs, id) || (!removals && Has(base, id)) {
      ListedIs(merged, ids, id);
      OrderedHas(base, theirs, removals, id);
    }
    forall i, j | 0 <= i < j < |merged| ensures Follows(base, theirs, removals, merged[i].unitId, merged[j].unitId) {
      OrderFollows(base, theirs, removals, i, j);
    }
    forall i | 0 <= i < |merged| ensures UnitMerged(base, theirs, active, merged[i]) {
      assert ids[i] in ids;
      MergedForIs(base, theirs, active, ids[i]);
    }
  }

  lemma OrderedHas(base: seq<Unit>, theirs: seq<Unit>, removals: bool, id: string)
    ensures id in OrderedIds(base, theirs, removals) <==> Has(theirs, id) || (!removals && Has(base, id))
  {
    CurrentExists(base, id);
    CurrentExists(theirs, id);
  }

  lemma ListedIs(merged: seq<Unit>, ids: seq<string>, id: string)
    requires |merged| == |ids| && forall i | 0 <= i < |ids| :: merged[i].unitId == ids[i]
    ensures Listed(merged, id) <==> id in ids
  {
    if id in ids {
      var i :| 0 <= i < |ids| && ids[i] == id;
      assert merged[i].unitId == id;
    }
  }

  lemma {:induction false} OnEitherIs(active: seq<Override>, base: seq<Unit>, theirs: seq<Unit>, o: Override)
    ensures multiset(OnEither(active, base, theirs))[o] == if Has(base, o.unitId) || Has(theirs, o.unitId) then multiset(active)[o] else 0
  {
    if active != [] {
      hide Current;
      var init, last := active[..|active| - 1], active[|active| - 1];
      OnEitherIs(init, base, theirs, o);
      assert active == init + [last];
    }
  }

  lemma ShowsIn(base: seq<Unit>, theirs: seq<Unit>, active: seq<Override>, removals: bool, merged: seq<Unit>, o: Override)
    requires IsMerge(base, theirs, active, removals, merged) && o in active && Meets(base, theirs, removals, o)
    ensures Shows(base, merged, o)
  {
    hide Current, ValuesEqual, Get, Follows;
    var id := o.unitId;
    assert Listed(merged, id);
    var i :| 0 <= i < |merged| && merged[i].unitId == id;
    var u := merged[i];
    assert u in merged && UnitMerged(base, theirs, active, u);
    var b := Current(base, id).value;
    var n := if Current(theirs, id).Some? then Current(theirs, id).value else b;
    assert MergedWith(b, n, active, u);
    if !ValuesEqual(Get(b, o.field), o.value) {
      assert Edits(active, b, o.field, o);
      assert FieldMerged(b, n, active, u, o.field);
    }
  }

  lemma LandedIs(base: seq<Unit>, theirs: seq<Unit>, active: seq<Override>, removals: bool, applied: seq<Override>, preserved: seq<Override>)
    requires AllValid(active) && OnePerKey(active)
    requires multiset(applied + preserved) == multiset(OnEither(active, base, theirs))
    requires forall o | o in applied :: Has(base, o.unitId) && (Has(theirs, o.unitId) || !removals)
    requires forall o | o in preserved :: !Has(base, o.unitId) || (removals && !Has(theirs, o.unitId))
    ensures Landed(base, theirs, active, removals, Merged(base, theirs, active, removals), applied, preserved)
  {
    hide Current, IsMerge, Shows, Meets, Misses, Merged, OnePerKey, AllValid, OnEither;
    var merged := Merged(base, theirs, active, removals);
    MergedIs(base, theirs, active, removals);
    NoneTwice(active);
    forall o
      ensures multiset(applied)[o] == if Meets(base, theirs, removals, o) && o in active then 1 else 0
      ensures multiset(preserved)[o] == if Misses(base, theirs, removals, o) && o in active then 1 else 0
    {
      LandsOnce(base, theirs, active, removals, applied, preserved, o);
    }
    forall o | o in applied ensures Shows(base, merged, o) {
      assert multiset(applied)[o] > 0;
      ShowsIn(base, theirs, active, removals, merged, o);
    }
  }

  lemma NoneTwice(active: seq<Override>)
    requires OnePerKey(active)
    ensures forall i, j | 0 <= i < j < |active| :: active[i] != active[j]
  {
    forall i, j | 0 <= i < j < |active| ensures active[i] != active[j] { assert !SameKey(active[i], active[j]); }
  }

  lemma LandsOnce(base: seq<Unit>, theirs: seq<Unit>, active: seq<Override>, removals: bool, applied: seq<Override>, preserved: seq<Override>, o: Override)
    requires forall i, j | 0 <= i < j < |active| :: active[i] != active[j]
    requires multiset(applied + preserved) == multiset(OnEither(active, base, theirs))
    requires o in applied ==> Has(base, o.unitId) && (Has(theirs, o.unitId) || !removals)
    requires o in preserved ==> !Has(base, o.unitId) || (removals && !Has(theirs, o.unitId))
    ensures multiset(applied)[o] == if Meets(base, theirs, removals, o) && o in active then 1 else 0
    ensures multiset(preserved)[o] == if Misses(base, theirs, removals, o) && o in active then 1 else 0
  {
    hide Current, OnEither;
    OnEitherIs(active, base, theirs, o);
    CountOnce(active, o);
    assert multiset(applied + preserved)[o] == multiset(applied)[o] + multiset(preserved)[o];
    assert o in applied <==> multiset(applied)[o] > 0;
    assert o in preserved <==> multiset(preserved)[o] > 0;
  }

  lemma ConflictsTell(base: seq<Unit>, theirs: seq<Unit>, active: seq<Override>, cs: seq<MergeConflict>)
    requires OnePerKey(active) && ConflictsExact(base, theirs, active, cs)
    ensures ConflictsAre(base, theirs, active, cs)
  {
    hide Of, OverrideFor, Current, ValuesEqual, Get;
    forall k | 0 <= k < |cs| ensures Disputed(base, theirs, active, cs[k]) {
      var c := cs[k];
      assert Told(theirs, active, c);
      var os := Of(active, c.unitId);
      OfDistinct(active, c.unitId);
      var o :| o in os && o.field == c.field && c.human == o.value;
      OverrideFound(os, o);
      var due := Due(base, theirs, active, c.unitId, c.field);
      assert due;
      assert Disputes(base, theirs, active, o) && Reports(theirs, o, c);
    }
    forall o | Disputes(base, theirs, active, o) ensures Reported(theirs, o, cs) {
      var os := Of(active, o.unitId);
      OfDistinct(active, o.unitId);
      OverrideFound(os, o);
      assert Due(base, theirs, active, o.unitId, o.field);
      var k :| 0 <= k < |cs| && cs[k].unitId == o.unitId && cs[k].field == o.field;
      assert Told(theirs, active, cs[k]);
      var p :| p in os && p.field == o.field && cs[k].human == p.value;
      OverrideFound(os, p);
      assert Reports(theirs, o, cs[k]);
    }
  }

  lemma NothingOf(active: seq<Override>, ids: seq<string>)
    ensures AllOf(active, ids[..0]) == []
  {
  }

  lemma GoneStep(active: seq<Override>, gone: seq<string>, i: nat)
    requires i < |gone|
    ensures AllOf(active, gone[..i + 1]) == AllOf(active, gone[..i]) + Of(active, gone[i])
    ensures forall o | o in Of(active, gone[i]) :: o.unitId in gone[..i + 1]
    ensures forall id | id in gone[..i] :: id in gone[..i + 1]
  {
    assert gone[..i + 1][..i] == gone[..i] && gone[..i + 1][i] == gone[i];
  }

  lemma GoneIs(base: seq<Unit>, theirs: seq<Unit>, removals: bool)
    ensures forall id | id in GoneIds(base, theirs, removals) :: removals && Has(base, id) && !Has(theirs, id)
    ensures removals ==> forall id | id in OrderedIds(base, theirs, removals) :: Has(theirs, id)
    ensures var all := OrderedIds(base, theirs, removals) + GoneIds(base, theirs, removals);
            && (forall i, j | 0 <= i < j < |all| :: all[i] != all[j])
            && (forall id :: id in all <==> Has(base, id) || Has(theirs, id))
  {
    forall id ensures (id in Ids(base) <==> Has(base, id)) && (id in Ids(theirs) <==> Has(theirs, id)) {
      CurrentExists(base, id);
      CurrentExists(theirs, id);
    }
    OrderedIn(base, theirs, removals);
    var ids, gone := OrderedIds(base, theirs, removals), GoneIds(base, theirs, removals);
    forall i, j | 0 <= i < |ids| && 0 <= j < |gone| ensures ids[i] != gone[j] { assert gone[j] in gone && ids[i] in ids; }
  }

  lemma {:induction false} AllOfConcat(active: seq<Override>, a: seq<string>, b: seq<string>)
    ensures multiset(AllOf(active, a + b)) == multiset(AllOf(active, a)) + multiset(AllOf(active, b))
  {
    if b == [] {
      assert a + b == a;
    } else {
      hide Of;
      var init, last := b[..|b| - 1], b[|b| - 1];
      AllOfConcat(active, a, init);
      assert (a + b)[..|a + b| - 1] == a + init && (a + b)[|a + b| - 1] == last;
      assert AllOf(active, a + b) == AllOf(active, a + init) + Of(active, last);
      assert AllOf(active, b) == AllOf(active, init) + Of(active, last);
    }
  }

  lemma Finish(base: seq<Unit>, theirs: seq<Unit>, active: seq<Override>, removals: bool, before: MergeResult, r: MergeResult)
    requires AllValid(active)
    requires forall k | 0 <= k < |OrderedIds(base, theirs, removals)| :: Has(base, OrderedIds(base, theirs, removals)[k]) || Has(theirs, OrderedIds(base, theirs, removals)[k])
    requires Progress(base, theirs, active, OrderedIds(base, theirs, removals), |OrderedIds(base, theirs, removals)|, before)
    requires r == before.(preserved := r.preserved)
    requires multiset(r.preserved) == multiset(before.preserved) + multiset(AllOf(active, GoneIds(base, theirs, removals)))
    requires forall o | o in r.preserved :: o in before.preserved || o.unitId in GoneIds(base, theirs, removals)
    ensures r.merged == Merged(base, theirs, active, removals)
    ensures multiset(r.applied + r.preserved) == multiset(OnEither(active, base, theirs))
    ensures forall o | o in r.applied :: Has(base, o.unitId) && (Has(theirs, o.unitId) || !removals)
    ensures forall o | o in r.preserved :: !Has(base, o.unitId) || (removals && !Has(theirs, o.unitId))
    ensures ConflictsExact(base, theirs, active, r.conflicts) && UnresolvableIs(r.conflicts, r.unresolvable)
  {
    hide UnresolvableIs, Told, Of, AllOf, MergedFor, Ids, Current, Concerned, OnEither, Clashes;
    var ids, gone := OrderedIds(base, theirs, removals), GoneIds(base, theirs, removals);
    assert ids[..|ids|] == ids;
    GoneIs(base, theirs, removals);
    hide OrderedIds, GoneIds;
    MergedSame(base, theirs, active, removals, before.merged);
    AllOfIs(active, ids + gone);
    AllOfConcat(active, ids, gone);
    EitherIs(active, base, theirs, ids + gone);
    assert multiset(r.applied + r.preserved) == multiset(before.applied + before.preserved) + multiset(AllOf(active, gone));
    forall id, f | Due(base, theirs, active, id, f) ensures id in ids { assert id in ids + gone; }
  }

  lemma MergedSame(base: seq<Unit>, theirs: seq<Unit>, active: seq<Override>, removals: bool, merged: seq<Unit>)
    requires AllValid(active) && |merged| == |OrderedIds(base, theirs, removals)|
    requires forall k | 0 <= k < |merged| :: Has(base, OrderedIds(base, theirs, removals)[k]) || Has(theirs, OrderedIds(base, theirs, removals)[k])
    requires forall k | 0 <= k < |merged| :: merged[k] == MergedFor(base, theirs, active, OrderedIds(base, theirs, removals)[k])
    ensures merged == Merged(base, theirs, active, removals)
  {
  }
}
