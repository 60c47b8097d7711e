/** What an update leaves in the history: it agrees with what was published, and planning the same
    material again finds nothing to do, exactly unless a deprecated id was added again. */
module FoldInLaws {
  import opened Knowledge
  import opened Views
  import opened Merge
  import opened MergeCollections
  import opened FoldIn
  import opened MergeOutcome
  import Conflicts

  // ---- the plan, id by id ----

  /** The active record of an id before the update. */
  function Before(history: seq<Unit>, id: string): Option<Unit> { ActiveCurrent(history, id) }

  /** The record of an id that the analysis proposes. */
  function Proposed(history: seq<Unit>, analysed: seq<Unit>, id: string): Option<Unit> {
    Current(Adjusted(Active(history), analysed), id)
  }

  lemma BaseIs(history: seq<Unit>, id: string)
    ensures Current(Active(history), id) == Before(history, id)
  {
    ActiveIs(history);
    var b := Before(history, id);
    if b.Some? {
      CurrentInView(Active(history), b.value);
    }
    CurrentIn(Active(history), id);
  }

  lemma {:induction false} AdjustedIs(base: seq<Unit>, units: seq<Unit>, id: string)
    ensures Current(Adjusted(base, units), id) == match Current(units, id) case None => None case Some(u) => Some(Adjust(base, u))
  {
    if units != [] {
      var init := units[..|units| - 1];
      AdjustedIs(base, init, id);
      assert Adjusted(base, units)[..|units| - 1] == Adjusted(base, init);
    }
  }

  lemma {:induction false} ChangeOfIs(changes: seq<Change>, c: Change)
    requires c in changes && forall x | x in changes && x.unitId == c.unitId :: x == c
    ensures ChangeOf(changes, c.unitId) == Some(c)
  {
    assert changes == changes[..|changes| - 1] + [changes[|changes| - 1]];
    if changes[|changes| - 1].unitId != c.unitId { ChangeOfIs(changes[..|changes| - 1], c); }
  }

  predicate Changes(a: Option<Unit>, n: Option<Unit>) { a.Some? && n.Some? && ChangedFields(a.value, n.value) != [] }

  /** How the plan classifies an id. */
  lemma PlanIs(history: seq<Unit>, analysed: seq<Unit>, active: seq<Override>, removals: bool, id: string)
    requires AllValid(active)
    ensures var s, a, n := Plan(history, analysed, active, removals), Before(history, id), Proposed(history, analysed, id);
            && (IsAdded(s, id) <==> a.None? && n.Some?)
            && (IsModified(s, id) <==> Changes(a, n))
            && (ChangeOf(s.modified, id).Some? <==> Changes(a, n))
            && (Changes(a, n) ==> ChangeOf(s.modified, id).value.prior == a.value)
            && (forall u: Unit | u.unitId == id :: u in s.removed <==> removals && a == Some(u) && n.None?)
  {
    hide Diff, Adjusted, Active, ChangedFields, Merged, IsAdded, IsModified, ChangeOf;
    var base, update := Active(history), Adjusted(Active(history), analysed);
    var d := Diff(base, update, removals);
    DiffIs(base, update, removals);
    BaseIs(history, id);
    var s := Plan(history, analysed, active, removals);
    assert s == Suggestion(d.added, d.removed, d.modified, s.merged);
    hide Plan, Current;
    AddedIs(base, update, d, id, Plan(history, analysed, active, removals));
    ModifiedIs(base, update, d, id, Plan(history, analysed, active, removals));
  }

  lemma AddedIs(base: seq<Unit>, update: seq<Unit>, d: DiffResult, id: string, s: Suggestion)
    requires s.added == d.added && forall u :: u in d.added <==> Current(update, u.unitId) == Some(u) && !Has(base, u.unitId)
    ensures IsAdded(s, id) <==> Current(base, id).None? && Current(update, id).Some?
  {
    if Current(base, id).None? && Current(update, id).Some? {
      var u := Current(update, id).value;
      assert u in s.added;
      var i :| 0 <= i < |s.added| && s.added[i] == u;
    }
    if i :| 0 <= i < |s.added| && s.added[i].unitId == id { assert s.added[i] in s.added; }
  }

  lemma ModifiedIs(base: seq<Unit>, update: seq<Unit>, d: DiffResult, id: string, s: Suggestion)
    requires s.modified == d.modified
    requires forall c :: c in d.modified <==>
               && Current(update, c.unitId) == Some(c.update) && Current(base, c.unitId) == Some(c.prior)
               && c.fields == ChangedFields(c.prior, c.update) && c.fields != []
    ensures var a, n := Current(base, id), Current(update, id);
            && (IsModified(s, id) <==> Changes(a, n)) && (ChangeOf(s.modified, id).Some? <==> Changes(a, n))
            && (Changes(a, n) ==> ChangeOf(s.modified, id).value.prior == a.value)
  {
    hide ChangedFields, Current;
    var a, n := Current(base, id), Current(update, id);
    if Changes(a, n) {
      var c := Change(id, a.value, n.value, ChangedFields(a.value, n.value));
      assert c in s.modified;
      var i :| 0 <= i < |s.modified| && s.modified[i] == c;
      ChangeOfIs(s.modified, c);
    }
    if i :| 0 <= i < |s.modified| && s.modified[i].unitId == id { assert s.modified[i] in s.modified; }
  }

  lemma RemovedOneEach(history: seq<Unit>, analysed: seq<Unit>, active: seq<Override>, removals: bool)
    requires AllValid(active)
    ensures OneEach(Plan(history, analysed, active, removals).removed)
  {
    ViewOneEach(Active(history));
    AbsentIs(View(Active(history)), Adjusted(Active(history), analysed));
    hide View, Active, Adjusted, Merged, Union, Conflicts.DoubleLoop;
    ClassifiesNone(Active(history), View(Adjusted(Active(history), analysed)));
  }

  lemma {:induction false} ClassifiesNone(prior: seq<Unit>, view: seq<Unit>)
    ensures ClassifyAll(prior, view).removed == []
  {
    if view != [] { ClassifiesNone(prior, view[..|view| - 1]); }
  }

  // ---- approval ----

  predicate Changed(history: seq<Unit>, analysed: seq<Unit>, id: string) {
    var a, n := Before(history, id), Proposed(history, analysed, id);
    n.Some? && (a.None? || ChangedFields(a.value, n.value) != [])
  }

  /** An analysed unit counts as changed if it has no active record, or differs from it in a field; a status
      that is just the generated candidate is no difference. */
  lemma ChangedMeans(history: seq<Unit>, analysed: seq<Unit>, id: string)
    ensures var a, n := Before(history, id), Current(analysed, id);
            Changed(history, analysed, id) <==>
              n.Some? && (a.None? || exists f :: f in ChangedFields(a.value, n.value) && !(f == StatusField && n.value.reviewStatus == Candidate))
  {
    hide ChangedFields, Current, Active, ActiveCurrent;
    var base := Active(history);
    AdjustedIs(base, analysed, id);
    BaseIs(history, id);
    var a, n := Before(history, id), Current(analysed, id);
    if a.Some? && n.Some? {
      assert Proposed(history, analysed, id) == Some(Adjust(base, n.value));
      AdjustKeeps(base, a.value, n.value);
    }
  }

  lemma AdjustKeeps(base: seq<Unit>, a: Unit, n: Unit)
    requires Current(base, n.unitId) == Some(a)
    ensures ChangedFields(a, Adjust(base, n)) != [] <==> exists f :: f in ChangedFields(a, n) && !(f == StatusField && n.reviewStatus == Candidate)
  {
    hide ChangedFields, Current;
    var was, now := ChangedFields(a, n), ChangedFields(a, Adjust(base, n));
    forall f ensures f in now <==> f in was && !(f == StatusField && n.reviewStatus == Candidate) {
      ChangedIs(a, n, f);
      ChangedIs(a, Adjust(base, n), f);
    }
    if now != [] { assert now[0] in now; }
  }

  /** A confirmed update publishes every merged unit as it is, except that one it adds or changes is approved
      if it is a candidate or reviewed. */
  lemma ApprovedIs(history: seq<Unit>, analysed: seq<Unit>, active: seq<Override>, removals: bool, i: nat)
    requires AllValid(active) && i < |Plan(history, analysed, active, removals).merged|
    ensures var m, u := Plan(history, analysed, active, removals).merged[i], Approve(Plan(history, analysed, active, removals))[i];
            && (Changed(history, analysed, m.unitId) && (m.reviewStatus == Candidate || m.reviewStatus == Reviewed) ==> u == m.(reviewStatus := Approved))
            && (!Changed(history, analysed, m.unitId) || m.reviewStatus in {Approved, Rejected, Superseded} ==> u == m)
  {
    hide Plan, IsAdded, IsModified, Before, Proposed, ChangedFields, ChangeOf;
    PlanIs(history, analysed, active, removals, Plan(history, analysed, active, removals).merged[i].unitId);
  }

  /** A unit that the update leaves unchanged keeps its review status, unless a human gave it another. */
  lemma UnchangedStays(history: seq<Unit>, analysed: seq<Unit>, active: seq<Override>, removals: bool, u: Unit)
    requires AllValid(active) && OnePerKey(active) && u in Approve(Plan(history, analysed, active, removals))
    requires Before(history, u.unitId).Some? && !Changed(history, analysed, u.unitId)
    ensures UnitMerged(Active(history), Adjusted(Active(history), analysed), active, u)
    ensures var was := Before(history, u.unitId).value.reviewStatus;
            u.reviewStatus == was || exists o | o in active :: o.unitId == u.unitId && o.field == StatusField && o.value == StatusV(u.reviewStatus)
  {
    var s, base, update := Plan(history, analysed, active, removals), Active(history), Adjusted(Active(history), analysed);
    var i :| 0 <= i < |s.merged| && Approve(s)[i] == u;
    ApprovedIs(history, analysed, active, removals, i);
    assert u.unitId == s.merged[i].unitId && s.merged[i] in s.merged;
    MergedIs(base, update, active, removals);
    assert UnitMerged(base, update, active, u);
    BaseIs(history, u.unitId);
    var b := Before(history, u.unitId).value;
    var n := if Proposed(history, analysed, u.unitId).Some? then Proposed(history, analysed, u.unitId).value else b;
    hide Plan, Approve, Before, Proposed, Active, Adjusted, Current, AllValid, OnePerKey, Merged;
    assert MergedWith(b, n, active, u);
    StatusStays(b, n, active, u);
  }

  lemma StatusStays(b: Unit, n: Unit, active: seq<Override>, u: Unit)
    requires ChangedFields(b, n) == [] || b == n
    requires u.unitId == b.unitId && FieldMerged(b, n, active, u, StatusField) && AllValid(active)
    ensures u.reviewStatus == b.reviewStatus || exists o | o in active :: o.unitId == u.unitId && o.field == StatusField && o.value == StatusV(u.reviewStatus)
  {
    ChangedIs(b, n, StatusField);
    hide ValuesEqual;
    if o :| Edits(active, b, StatusField, o) {
      assert Get(u, StatusField) == Normal(o.value) && Valid(o);
    }
  }

  // ---- what is published ----

  predicate IsPublished(history: seq<Unit>, analysed: seq<Unit>, removals: bool, id: string) {
    Proposed(history, analysed, id).Some? || (Before(history, id).Some? && !removals)
  }

  /** Published are the proposed ids, and in add-only mode the old ones as well; each once. */
  lemma PublishedIs(history: seq<Unit>, analysed: seq<Unit>, active: seq<Override>, removals: bool, id: string)
    requires AllValid(active)
    ensures var s := Plan(history, analysed, active, removals);
            var base, update := Active(history), Adjusted(Active(history), analysed);
            && OneEach(Approve(s))
            && (Current(Approve(s), id).Some? <==> IsPublished(history, analysed, removals, id))
            && (IsPublished(history, analysed, removals, id) ==>
                  && (Has(base, id) || Has(update, id))
                  && Current(Approve(s), id) == Some(ApproveUnit(s, MergedFor(base, update, active, id))))
  {
    hide Plan, Active, Adjusted, OrderedIds, Current, Approve, MergedFor, ApproveUnit, Before;
    var s := Plan(history, analysed, active, removals);
    var base, update := Active(history), Adjusted(Active(history), analysed);
    var ids, publish := OrderedIds(base, update, removals), Approve(s);
    BaseIs(history, id);
    OrderedIn(base, update, removals);
    OrderedHas(base, update, removals, id);
    ApprovedAt(history, analysed, active, removals);
    ViewOfView(publish);
    if IsPublished(history, analysed, removals, id) {
      var i :| 0 <= i < |ids| && ids[i] == id;
      assert publish[i].unitId == id;
    }
    CurrentIn(publish, id);
    assert forall u | u in publish :: u.unitId in ids;
  }

  lemma ApprovedAt(history: seq<Unit>, analysed: seq<Unit>, active: seq<Override>, removals: bool)
    requires AllValid(active)
    ensures var s := Plan(history, analysed, active, removals);
            var base, update := Active(history), Adjusted(Active(history), analysed);
            var ids, publish := OrderedIds(base, update, removals), Approve(s);
            && |publish| == |ids|
            && forall i | 0 <= i < |ids| :: publish[i].unitId == ids[i] && (Has(base, ids[i]) || Has(update, ids[i]))
                 && publish[i] == ApproveUnit(s, MergedFor(base, update, active, ids[i]))
  {
    hide Active, Adjusted, OrderedIds, MergedFor;
    OrderedIn(Active(history), Adjusted(Active(history), analysed), removals);
  }

  lemma OrderedHas(base: seq<Unit>, update: seq<Unit>, removals: bool, id: string)
    ensures id in OrderedIds(base, update, removals) <==> Has(update, id) || (Has(base, id) && !removals)
  {
    CurrentExists(base, id);
    CurrentExists(update, id);
  }

  // ---- what is appended ----

  lemma {:induction false} RecordsAre(s: Suggestion, publish: seq<Unit>)
    requires OneEach(publish)
    requires forall u | u in publish && RecordOf(s, u).Some? :: RecordOf(s, u).value.unitId == u.unitId
    ensures OneEach(ChangedRecords(s, publish))
    ensures forall r :: r in ChangedRecords(s, publish) <==> exists u | u in publish :: RecordOf(s, u) == Some(r)
  {
    if publish != [] {
      hide RecordOf;
      var init, last := publish[..|publish| - 1], publish[|publish| - 1];
      assert publish == init + [last];
      forall i, j | 0 <= i < j < |init| ensures init[i].unitId != init[j].unitId { assert publish[i] == init[i] && publish[j] == init[j]; }
      RecordsAre(s, init);
      forall i | 0 <= i < |ChangedRecords(s, init)| ensures ChangedRecords(s, init)[i].unitId != last.unitId {
        var r := ChangedRecords(s, init)[i];
        assert r in ChangedRecords(s, init);
        var u :| u in init && RecordOf(s, u) == Some(r);
        var k :| 0 <= k < |init| && init[k] == u;
        assert publish[k] == u && u in publish;
      }
    }
  }

  /** The record that an update appends for an id. */
  function Appended(s: Suggestion, a: Option<Unit>, n: Option<Unit>, removals: bool, u: Option<Unit>): Option<Unit> {
    if u.Some? && a.None? then u
    else if u.Some? && Changes(a, n) then Some(Supersession(a.value, u.value))
    else if removals && a.Some? && n.None? then Some(Tombstone(a.value))
    else None
  }

  lemma PendingIs(history: seq<Unit>, analysed: seq<Unit>, active: seq<Override>, removals: bool, id: string)
    requires AllValid(active)
    ensures var s := Plan(history, analysed, active, removals);
            && OneEach(Pending(s, Approve(s)))
            && Current(Pending(s, Approve(s)), id) ==
               Appended(s, Before(history, id), Proposed(history, analysed, id), removals, Current(Approve(s), id))
  {
    hide Plan, Active, Adjusted, Approve, ChangedFields, ApproveUnit, MergedFor, IsAdded, IsModified, ChangeOf;
    var s := Plan(history, analysed, active, removals);
    var publish := Approve(s);
    var records := ChangedRecords(s, publish);
    var stones := seq(|s.removed|, i requires 0 <= i < |s.removed| => Tombstone(s.removed[i]));
    RemovedOneEach(history, analysed, active, removals);
    forall u | u in publish ensures RecordOf(s, u).Some? ==> RecordOf(s, u).value.unitId == u.unitId {
      PlanIs(history, analysed, active, removals, u.unitId);
    }
    PublishedIs(history, analysed, active, removals, id);
    RecordsAre(s, publish);
    forall i, j | 0 <= i < |records| && 0 <= j < |stones| ensures records[i].unitId != stones[j].unitId {
      NotBoth(history, analysed, active, removals, records[i], s.removed[j]);
    }
    assert OneEach(records + stones);
    RecordFor(history, analysed, active, removals, id);
  }

  lemma NotBoth(history: seq<Unit>, analysed: seq<Unit>, active: seq<Override>, removals: bool, r: Unit, gone: Unit)
    requires AllValid(active)
    requires var s := Plan(history, analysed, active, removals);
             gone in s.removed && r in ChangedRecords(s, Approve(s))
    ensures r.unitId != gone.unitId
  {
    hide Plan, Active, Adjusted, Approve, ChangedFields, ApproveUnit, MergedFor, IsAdded, IsModified, ChangeOf;
    var s := Plan(history, analysed, active, removals);
    forall u | u in Approve(s) ensures RecordOf(s, u).Some? ==> RecordOf(s, u).value.unitId == u.unitId {
      PlanIs(history, analysed, active, removals, u.unitId);
    }
    PublishedIs(history, analysed, active, removals, r.unitId);
    RecordsAre(s, Approve(s));
    var u :| u in Approve(s) && RecordOf(s, u) == Some(r);
    PlanIs(history, analysed, active, removals, gone.unitId);
  }

  lemma RecordFor(history: seq<Unit>, analysed: seq<Unit>, active: seq<Override>, removals: bool, id: string)
    requires AllValid(active)
    requires var s := Plan(history, analysed, active, removals); OneEach(Pending(s, Approve(s))) && OneEach(Approve(s))
    requires var s := Plan(history, analysed, active, removals);
             forall r :: r in ChangedRecords(s, Approve(s)) <==> exists u | u in Approve(s) :: RecordOf(s, u) == Some(r)
    ensures var s := Plan(history, analysed, active, removals);
            Current(Pending(s, Approve(s)), id) ==
              Appended(s, Before(history, id), Proposed(history, analysed, id), removals, Current(Approve(s), id))
  {
    hide Plan, Active, Adjusted, Approve, ChangedFields, ApproveUnit, MergedFor, IsAdded, IsModified, ChangeOf, Current, Before, Proposed;
    var s := Plan(history, analysed, active, removals);
    var publish := Approve(s);
    var pending, u := Pending(s, publish), Current(publish, id);
    var a, n := Before(history, id), Proposed(history, analysed, id);
    PlanIs(history, analysed, active, removals, id);
    var stones := seq(|s.removed|, i requires 0 <= i < |s.removed| => Tombstone(s.removed[i]));
    assert pending == ChangedRecords(s, publish) + stones;
    assert forall i | 0 <= i < |stones| :: stones[i].unitId == s.removed[i].unitId && s.removed[i] in s.removed;
    if removals && a.Some? && n.None? {
      PublishedIs(history, analysed, active, removals, id);
      assert a.value.unitId == id by { BeforeId(history, id); }
      assert a.value in s.removed;
      var i :| 0 <= i < |s.removed| && s.removed[i] == a.value;
      assert stones[i] == Tombstone(a.value);
      CurrentInView(pending, Tombstone(a.value));
    } else if u.Some? && (a.None? || Changes(a, n)) {
      CurrentIn(publish, id);
      PublishedIs(history, analysed, active, removals, id);
      var r := RecordOf(s, u.value).value;
      assert r in ChangedRecords(s, publish);
      CurrentInView(pending, r);
      if a.Some? { BeforeId(history, id); }
    } else if Current(pending, id).Some? {
      CurrentIn(pending, id);
      var r := Current(pending, id).value;
      if r !in stones {
        var v :| v in publish && RecordOf(s, v) == Some(r);
        PlanIs(history, analysed, active, removals, v.unitId);
        if ChangeOf(s.modified, v.unitId).Some? { BeforeId(history, v.unitId); }
        CurrentInView(publish, v);
      }
    }
  }

  lemma BeforeId(history: seq<Unit>, id: string)
    ensures Before(history, id).Some? ==> Before(history, id).value.unitId == id && Current(history, id) == Before(history, id)
  {
  }

  lemma CurrentIn(units: seq<Unit>, id: string)
    ensures Current(units, id).Some? ==> Current(units, id).value in units && Current(units, id).value.unitId == id
  {
  }

  // ---- the history after the update ----

  function Published(history: seq<Unit>, analysed: seq<Unit>, active: seq<Override>, removals: bool): seq<Unit>
    requires AllValid(active)
  {
    Approve(Plan(history, analysed, active, removals))
  }

  /** The history after a confirmed update. */
  function After(history: seq<Unit>, analysed: seq<Unit>, active: seq<Override>, removals: bool): seq<Unit>
    requires AllValid(active)
  {
    var s := Plan(history, analysed, active, removals);
    history + Pending(s, Approve(s))
  }

  /** Records in the history have a version of at least 1, those of an analysis have version 1. */
  ghost predicate Versioned(history: seq<Unit>, analysed: seq<Unit>) {
    (forall r | r in history :: r.recordVersion >= 1) && (forall u | u in analysed :: u.recordVersion == 1)
  }

  predicate Adds(history: seq<Unit>, analysed: seq<Unit>, id: string) {
    Before(history, id).None? && Proposed(history, analysed, id).Some?
  }

  predicate Modifies(history: seq<Unit>, analysed: seq<Unit>, id: string) {
    Changes(Before(history, id), Proposed(history, analysed, id))
  }

  lemma AddedVersion(history: seq<Unit>, analysed: seq<Unit>, active: seq<Override>, removals: bool, id: string)
    requires AllValid(active) && Versioned(history, analysed) && Adds(history, analysed, id)
    ensures var u := Current(Published(history, analysed, active, removals), id);
            u.Some? && u.value.unitId == id && u.value.recordVersion == 1
            && u == Some(ApproveUnit(Plan(history, analysed, active, removals), Proposed(history, analysed, id).value))
  {
    hide Plan, Active, ApproveUnit, MergedUnit, Of;
    PublishedIs(history, analysed, active, removals, id);
    AdjustedIs(Active(history), analysed, id);
    BaseIs(history, id);
    CurrentIn(analysed, id);
    ApprovedSame(Plan(history, analysed, active, removals), Proposed(history, analysed, id).value);
  }

  lemma ApprovedSame(s: Suggestion, u: Unit)
    ensures ApproveUnit(s, u) == u.(reviewStatus := ApproveUnit(s, u).reviewStatus)
  {
  }

  /** The latest record of every id after the update. An id that is added although the history already
      knows it stays behind the record it has there. */
  lemma AfterIs(history: seq<Unit>, analysed: seq<Unit>, active: seq<Override>, removals: bool, id: string)
    requires AllValid(active) && Versioned(history, analysed)
    ensures var a, n, c := Before(history, id), Proposed(history, analysed, id), Current(history, id);
            var u := Current(Published(history, analysed, active, removals), id);
            Current(After(history, analysed, active, removals), id) ==
              if Adds(history, analysed, id) then if c.None? then u else c
              else if Changes(a, n) && u.Some? then Some(Supersession(a.value, u.value))
              else if removals && a.Some? && n.None? then Some(Tombstone(a.value))
              else c
  {
    hide Plan, Active, Adjusted, Approve, ChangedFields, Pending;
    var s := Plan(history, analysed, active, removals);
    PendingIs(history, analysed, active, removals, id);
    PublishedIs(history, analysed, active, removals, id);
    CurrentAppend(history, Pending(s, Approve(s)), id);
    BeforeId(history, id);
    if Adds(history, analysed, id) { AddedVersion(history, analysed, active, removals, id); }
  }

  // ---- theorem: the history agrees with what was published ----

  /** Everything but version and back pointer. */
  predicate SameFields(r: Unit, u: Unit) { r == u.(recordVersion := r.recordVersion, supersedes := r.supersedes) }

  /** The latest record of every added or modified unit carries the published fields, unless the unit
      was added over an older record of the same id. A modified one takes the next version and points back. */
  lemma PublishedIsRecorded(history: seq<Unit>, analysed: seq<Unit>, active: seq<Override>, removals: bool, id: string)
    requires AllValid(active) && Versioned(history, analysed)
    requires Adds(history, analysed, id) || Modifies(history, analysed, id)
    ensures var u, r := Current(Published(history, analysed, active, removals), id), Current(After(history, analysed, active, removals), id);
            && u.Some? && r.Some?
            && (Modifies(history, analysed, id) || Current(history, id).None? ==> SameFields(r.value, u.value))
            && (Modifies(history, analysed, id) ==> r.value.recordVersion == Before(history, id).value.recordVersion + 1 && r.value.supersedes == Some(id))
            && (Adds(history, analysed, id) && Current(history, id).None? ==> r == u)
            && (Adds(history, analysed, id) && Current(history, id).Some? ==> r == Current(history, id))
  {
    hide Published, After, ChangedFields;
    AfterIs(history, analysed, active, removals, id);
    InPublished(history, analysed, active, removals, id);
    BeforeId(history, id);
    CurrentIn(Published(history, analysed, active, removals), id);
  }

  /** A removed unit is retired by a record of the next version that differs in its status alone. */
  lemma RemovedIsRetired(history: seq<Unit>, analysed: seq<Unit>, active: seq<Override>, id: string)
    requires AllValid(active) && Versioned(history, analysed)
    requires Before(history, id).Some? && Proposed(history, analysed, id).None?
    ensures var a := Before(history, id).value;
            Current(After(history, analysed, active, true), id)
            == Some(a.(recordVersion := a.recordVersion + 1, supersedes := Some(id), reviewStatus := Superseded))
  {
    hide Published, After, ChangedFields, Current;
    AfterIs(history, analysed, active, true, id);
    BeforeId(history, id);
  }

  lemma InPublished(history: seq<Unit>, analysed: seq<Unit>, active: seq<Override>, removals: bool, id: string)
    requires AllValid(active)
    ensures Current(Published(history, analysed, active, removals), id).Some? <==> IsPublished(history, analysed, removals, id)
  {
    PublishedIs(history, analysed, active, removals, id);
  }

  /** No unit is added over an older record of its id. */
  ghost predicate NothingReAdded(history: seq<Unit>, analysed: seq<Unit>) {
    forall id | Adds(history, analysed, id) :: Current(history, id).None?
  }

  /** The status that a changed unit will have is superseded or rejected: an override says so, or, where none
      departs from the old status, the analysis does. */
  predicate Retired(history: seq<Unit>, analysed: seq<Unit>, active: seq<Override>, id: string) {
    var was, n, o := Before(history, id), Proposed(history, analysed, id), OverrideFor(Of(active, id), StatusField);
    if was.Some? && o.Some? && o.value.value != StatusV(was.value.reviewStatus) then
      o.value.value.StatusV? && Inactive(o.value.value.s)
    else n.Some? && Inactive(n.value.reviewStatus)
  }

  /** Neither an override nor the analysis retires a unit that the update changes. */
  ghost predicate ChangedStayActive(history: seq<Unit>, analysed: seq<Unit>, active: seq<Override>) {
    forall id | Adds(history, analysed, id) || Modifies(history, analysed, id) :: !Retired(history, analysed, active, id)
  }

  lemma ChangedStatus(history: seq<Unit>, analysed: seq<Unit>, active: seq<Override>, removals: bool, id: string)
    requires AllValid(active) && Versioned(history, analysed) && (Adds(history, analysed, id) || Modifies(history, analysed, id))
    ensures var u := Current(Published(history, analysed, active, removals), id);
            u.Some? && (Inactive(u.value.reviewStatus) <==> Retired(history, analysed, active, id))
  {
    hide Published, Plan, Active, Adjusted, Current, MergedUnit, ChangedFields, Of, OverrideFor;
    var s := Plan(history, analysed, active, removals);
    PublishedSame(history, analysed, active, removals);
    if Adds(history, analysed, id) {
      AddedVersion(history, analysed, active, removals, id);
    } else {
      PublishedIs(history, analysed, active, removals, id);
      BaseIs(history, id);
      var a, n := Before(history, id).value, Proposed(history, analysed, id).value;
      assert MergedFor(Active(history), Adjusted(Active(history), analysed), active, id) == MergedUnit(a, n, Of(active, id));
      OfValid(active, id);
      FieldLaw(a, n, Of(active, id), StatusField);
      StatusIsValid(Of(active, id));
    }
  }

  lemma OfValid(active: seq<Override>, id: string)
    requires AllValid(active)
    ensures AllValid(Of(active, id))
  {
  }

  lemma StatusIsValid(os: seq<Override>)
    requires AllValid(os)
    ensures OverrideFor(os, StatusField).Some? ==> OverrideFor(os, StatusField).value.value.StatusV?
  {
  }

  ghost predicate ActiveIsPublished(history: seq<Unit>, analysed: seq<Unit>, active: seq<Override>, removals: bool)
    requires AllValid(active)
  {
    forall id :: Before(After(history, analysed, active, removals), id).Some? <==> IsPublished(history, analysed, removals, id)
  }

  lemma ActiveAfter(history: seq<Unit>, analysed: seq<Unit>, active: seq<Override>, removals: bool, id: string)
    requires AllValid(active) && Versioned(history, analysed)
    ensures var u := Current(Published(history, analysed, active, removals), id);
            (Before(After(history, analysed, active, removals), id).Some? <==> IsPublished(history, analysed, removals, id)) <==>
              if Adds(history, analysed, id) then Current(history, id).None? && u.Some? && !Inactive(u.value.reviewStatus)
              else if Modifies(history, analysed, id) then u.Some? && !Inactive(u.value.reviewStatus)
              else true
  {
    hide Published, After, ChangedFields;
    AfterIs(history, analysed, active, removals, id);
    InPublished(history, analysed, active, removals, id);
    BeforeId(history, id);
  }

  /** The active view of the new history holds exactly the published ids, if and only if nothing is added
      over an older record and nothing retires a changed unit. */
  lemma HistoryAgrees(history: seq<Unit>, analysed: seq<Unit>, active: seq<Override>, removals: bool)
    requires AllValid(active) && Versioned(history, analysed)
    ensures ActiveIsPublished(history, analysed, active, removals) <==>
              NothingReAdded(history, analysed) && ChangedStayActive(history, analysed, active)
  {
    hide Retired, Before, After, Published, IsPublished, Adds, Modifies, Current;
    forall id
      ensures var u := Current(Published(history, analysed, active, removals), id);
              (Before(After(history, analysed, active, removals), id).Some? <==> IsPublished(history, analysed, removals, id)) <==>
                if Adds(history, analysed, id) then Current(history, id).None? && u.Some? && !Inactive(u.value.reviewStatus)
                else if Modifies(history, analysed, id) then u.Some? && !Inactive(u.value.reviewStatus)
                else true
    {
      ActiveAfter(history, analysed, active, removals, id);
    }
    forall id | Adds(history, analysed, id) || Modifies(history, analysed, id)
      ensures var u := Current(Published(history, analysed, active, removals), id);
              u.Some? && (Inactive(u.value.reviewStatus) <==> Retired(history, analysed, active, id))
    {
      ChangedStatus(history, analysed, active, removals, id);
    }
    forall id ensures !(Adds(history, analysed, id) && Modifies(history, analysed, id)) { NotBothWays(history, analysed, id); }
  }

  lemma NotBothWays(history: seq<Unit>, analysed: seq<Unit>, id: string)
    ensures !(Adds(history, analysed, id) && Modifies(history, analysed, id))
  {
  }

  // ---- theorem: folding the same material in again ----

  predicate NoChange(s: Suggestion) { s.added == [] && s.removed == [] && s.modified == [] }

  ghost predicate AllCandidates(units: seq<Unit>) { forall u | u in units :: u.reviewStatus == Candidate }

  lemma {:induction false} NoDrift(a: Unit, b: Unit, i: nat)
    requires i <= |DIFFED_FIELDS| && forall f :: !Differs(a, b, f)
    ensures ChangedFrom(a, b, i) == []
  {
    if i > 0 { NoDrift(a, b, i - 1); }
  }

  /** The record of a modified unit differs from the proposal in its status alone. */
  lemma RecordMatches(a: Unit, n: Unit, r: Unit, again: Unit)
    requires r == Supersession(a, MergedUnit(a, n, []).(reviewStatus := r.reviewStatus))
    requires again == n.(reviewStatus := r.reviewStatus)
    ensures ChangedFields(r, again) == []
  {
    var m := MergedUnit(a, n, []);
    forall f ensures !Differs(r, again, f) {
      FieldLaw(a, n, [], f);
      if f != StatusField { assert Get(r, f) == Get(m, f) && Get(again, f) == Get(n, f); }
    }
    NoDrift(r, again, |DIFFED_FIELDS|);
  }

  lemma SameNoDrift(a: Unit)
    ensures ChangedFields(a, a) == []
  {
    NoDrift(a, a, |DIFFED_FIELDS|);
  }

  /** What the second plan proposes for an id is what the first proposed, with the status it has by now. */
  lemma ProposedAgain(history: seq<Unit>, later: seq<Unit>, analysed: seq<Unit>, id: string)
    requires AllCandidates(analysed)
    ensures Proposed(history, analysed, id).Some? <==> Proposed(later, analysed, id).Some?
    ensures Proposed(history, analysed, id).Some? ==>
              var n, b := Proposed(history, analysed, id).value, Before(later, id);
              && Proposed(later, analysed, id) == Some(n.(reviewStatus := if b.Some? then b.value.reviewStatus else Candidate))
              && n.reviewStatus == (if Before(history, id).Some? then Before(history, id).value.reviewStatus else Candidate)
              && n.unitId == id
  {
    hide Active, Before, Current, Adjusted;
    AdjustedIs(Active(history), analysed, id);
    AdjustedIs(Active(later), analysed, id);
    BaseIs(history, id);
    BaseIs(later, id);
    CurrentIn(analysed, id);
  }

  /** Without overrides, the published record of a modified unit. */
  lemma ModifiedRecord(history: seq<Unit>, analysed: seq<Unit>, removals: bool, id: string)
    requires Versioned(history, analysed) && AllCandidates(analysed) && Modifies(history, analysed, id)
    ensures var a, n := Before(history, id).value, Proposed(history, analysed, id).value;
            var r := Current(After(history, analysed, [], removals), id);
            && r.Some? && r.value.reviewStatus == Approved
            && r.value == Supersession(a, MergedUnit(a, n, []).(reviewStatus := Approved))
  {
    hide Plan, Active, Adjusted, Approve, ChangedFields, Pending, Published, After, PutFields, MergedUnit, Current;
    var s := Plan(history, analysed, [], removals);
    var a, n := Before(history, id).value, Proposed(history, analysed, id).value;
    AfterIs(history, analysed, [], removals, id);
    PublishedSame(history, analysed, [], removals);
    PublishedIs(history, analysed, [], removals, id);
    PlanIs(history, analysed, [], removals, id);
    BaseIs(history, id);
    BeforeId(history, id);
    BeforeActive(history, id);
    ProposedAgain(history, history, analysed, id);
    FieldLaw(a, n, [], StatusField);
    assert Of([], id) == [];
    MergedModified(history, analysed, id);
    CurrentIn(Active(history), id);
  }

  lemma PublishedSame(history: seq<Unit>, analysed: seq<Unit>, active: seq<Override>, removals: bool)
    requires AllValid(active)
    ensures Published(history, analysed, active, removals) == Approve(Plan(history, analysed, active, removals))
  {
  }

  lemma BeforeActive(history: seq<Unit>, id: string)
    ensures Before(history, id).Some? ==> !Inactive(Before(history, id).value.reviewStatus)
  {
  }

  lemma MergedModified(history: seq<Unit>, analysed: seq<Unit>, id: string)
    requires Modifies(history, analysed, id)
    ensures Has(Active(history), id) && Has(Adjusted(Active(history), analysed), id)
    ensures MergedFor(Active(history), Adjusted(Active(history), analysed), [], id) ==
            MergedUnit(Before(history, id).value, Proposed(history, analysed, id).value, [])
  {
    BaseIs(history, id);
    assert Of([], id) == [];
  }

  /** After an update, its own analysis proposes nothing for an id: unless the id was re-added. */
  lemma SecondPlan(history: seq<Unit>, analysed: seq<Unit>, removals: bool, id: string)
    requires Versioned(history, analysed) && AllCandidates(analysed)
    ensures var later := After(history, analysed, [], removals);
            && (Adds(later, analysed, id) <==> Adds(history, analysed, id) && Current(history, id).Some?)
            && !Modifies(later, analysed, id)
            && !(removals && Before(later, id).Some? && Proposed(later, analysed, id).None?)
  {
    hide Plan, Active, Adjusted, Approve, ChangedFields, Pending, After, PutFields, MergedUnit, Current, Published;
    var later := After(history, analysed, [], removals);
    AfterIs(history, analysed, [], removals, id);
    ProposedAgain(history, later, analysed, id);
    BeforeId(history, id);
    BeforeActive(history, id);
    if Modifies(history, analysed, id) {
      ModifiedRecord(history, analysed, removals, id);
      RecordMatches(Before(history, id).value, Proposed(history, analysed, id).value, Current(later, id).value, Proposed(later, analysed, id).value);
    } else if Adds(history, analysed, id) {
      AddedVersion(history, analysed, [], removals, id);
      AddedApproved(history, analysed, removals, id);
      if Current(history, id).None? { SameNoDrift(Current(later, id).value); }
    } else if Before(history, id).Some? && Proposed(history, analysed, id).Some? {
      StatusKept(history, analysed, later, id);
    }
  }

  lemma AddedApproved(history: seq<Unit>, analysed: seq<Unit>, removals: bool, id: string)
    requires AllCandidates(analysed) && Adds(history, analysed, id)
    ensures ApproveUnit(Plan(history, analysed, [], removals), Proposed(history, analysed, id).value) ==
            Proposed(history, analysed, id).value.(reviewStatus := Approved)
  {
    hide Plan, Current, Adjusted, Active;
    PlanIs(history, analysed, [], removals, id);
    ProposedAgain(history, history, analysed, id);
  }

  lemma StatusKept(history: seq<Unit>, analysed: seq<Unit>, later: seq<Unit>, id: string)
    requires AllCandidates(analysed) && Before(history, id).Some? && Proposed(history, analysed, id).Some?
    requires Before(later, id) == Before(history, id)
    ensures Proposed(later, analysed, id) == Proposed(history, analysed, id)
  {
    ProposedAgain(history, later, analysed, id);
  }

  /** With no overrides, the plan that follows on the same analysis is empty, in both modes, if and only if no unit had
      been added over an older record of its id. */
  lemma SecondPlanEmpty(history: seq<Unit>, analysed: seq<Unit>, removals: bool)
    requires Versioned(history, analysed) && AllCandidates(analysed)
    ensures NoChange(Plan(After(history, analysed, [], removals), analysed, [], removals)) <==> NothingReAdded(history, analysed)
  {
    hide Plan, After, Before, Proposed, Current, ChangedFields, IsAdded, IsModified;
    var later := After(history, analysed, [], removals);
    var s := Plan(later, analysed, [], removals);
    forall id
      ensures !IsModified(s, id) && (IsAdded(s, id) <==> Adds(history, analysed, id) && Current(history, id).Some?)
    {
      SecondPlan(history, analysed, removals, id);
      PlanIs(later, analysed, [], removals, id);
    }
    forall u ensures u !in s.removed {
      SecondPlan(history, analysed, removals, u.unitId);
      PlanIs(later, analysed, [], removals, u.unitId);
    }
    EmptyWhen(s);
  }

  /** The analysis brings a unit back whose id the history has, but not as an active one. */
  predicate ReAdds(history: seq<Unit>, analysed: seq<Unit>, id: string) {
    Adds(history, analysed, id) && Current(history, id).Some?
  }

  lemma AnalysedProposed(history: seq<Unit>, analysed: seq<Unit>, id: string)
    ensures Proposed(history, analysed, id).Some? <==> exists u | u in analysed :: u.unitId == id
  {
    hide Active, Adjusted;
    AdjustedIs(Active(history), analysed, id);
    if u :| u in analysed && u.unitId == id {
      var i :| 0 <= i < |analysed| && analysed[i] == u;
      CurrentIsLatest(analysed, id, i);
    }
    CurrentIn(analysed, id);
  }

  lemma SomeActive(history: seq<Unit>)
    ensures Active(history) != [] <==> exists id :: Before(history, id).Some?
  {
    hide Current, View, Keep, Before;
    ActiveIs(history);
    if Active(history) != [] {
      BaseIs(history, Active(history)[0].unitId);
      CurrentIsLatest(Active(history), Active(history)[0].unitId, 0);
    }
    if id :| Before(history, id).Some? {
      BaseIs(history, id);
      CurrentIn(Active(history), id);
    }
  }

  lemma ActiveThen(history: seq<Unit>, analysed: seq<Unit>, removals: bool, id: string)
    requires Versioned(history, analysed) && AllCandidates(analysed)
    ensures Before(After(history, analysed, [], removals), id).Some? <==>
              if Proposed(history, analysed, id).Some? then !ReAdds(history, analysed, id)
              else Before(history, id).Some? && !removals
  {
    hide Plan, Active, Adjusted, Approve, ChangedFields, Pending, After, PutFields, MergedUnit, Current, Published;
    AfterIs(history, analysed, [], removals, id);
    BeforeId(history, id);
    BeforeActive(history, id);
    if Modifies(history, analysed, id) {
      ModifiedRecord(history, analysed, removals, id);
    } else if Adds(history, analysed, id) {
      AddedVersion(history, analysed, [], removals, id);
      AddedApproved(history, analysed, removals, id);
      CurrentIn(history, id);
    }
  }

  /** Idempotence: with no overrides, folding the same analysis in again is either refused, because the first update
      replaced every source and all it brought came back behind tombstones, or finds nothing to do if and only
      if no unit had been added over an older record of its id. */
  lemma FoldInIdempotent(history: seq<Unit>, analysed: seq<Unit>, removals: bool)
    requires Versioned(history, analysed) && AllCandidates(analysed)
    requires PlanOrRefuse(history, Some(analysed), [], removals).Planned?
    ensures var again := PlanOrRefuse(After(history, analysed, [], removals), Some(analysed), [], removals);
            && (again.NoActiveUnits? <==> removals && forall u | u in analysed :: ReAdds(history, analysed, u.unitId))
            && (again.Planned? <==> !again.NoActiveUnits?)
            && (again.Planned? ==> (NoChange(again.s) <==> NothingReAdded(history, analysed)))
  {
    hide Plan, Active, Before, Proposed, Current, ReAdds, NoChange, NothingReAdded, Pending, Approve;
    var later := After(history, analysed, [], removals);
    SecondPlanEmpty(history, analysed, removals);
    SomeActive(history);
    SomeActive(later);
    forall id
      ensures Before(later, id).Some? <==>
                if exists u | u in analysed :: u.unitId == id then !ReAdds(history, analysed, id) else Before(history, id).Some? && !removals
    {
      AnalysedProposed(history, analysed, id);
      ActiveThen(history, analysed, removals, id);
    }
    var id :| Before(history, id).Some?;
    NotReAdded(history, analysed, id);
    if u :| u in analysed && !ReAdds(history, analysed, u.unitId) { assert Before(later, u.unitId).Some?; }
  }

  lemma NotReAdded(history: seq<Unit>, analysed: seq<Unit>, id: string)
    ensures Before(history, id).Some? ==> !ReAdds(history, analysed, id)
  {
  }

  /** Any unit that was deprecated and comes back shows all three failures: it is invisible behind its tombstone, it is
      proposed once more, and its key is taken. */
  lemma ReAdding(history: seq<Unit>, analysed: seq<Unit>, removals: bool, id: string)
    requires Versioned(history, analysed) && AllCandidates(analysed) && UniqueKeys(history)
    requires ReAdds(history, analysed, id) && HasKey(history, id, 1)
    ensures var later := After(history, analysed, [], removals);
            && !ActiveIsPublished(history, analysed, [], removals)
            && !NoChange(Plan(later, analysed, [], removals))
            && !UniqueKeys(later)
  {
    hide Plan, After, ActiveIsPublished, NoChange, ChangedStayActive, UniqueKeys, HasKey, Adds, Current;
    HistoryAgrees(history, analysed, [], removals);
    SecondPlanEmpty(history, analysed, removals);
    KeysStayUnique(history, analysed, [], removals);
  }

  /** The analysis of a unit as it is: version and status are those of a new candidate. */
  function Analysed(w: Unit): Unit { w.(recordVersion := 1, reviewStatus := Candidate) }

  /** A collection of two units, one of which is deprecated by replacing the sources. */
  function Deprecating(w: Unit, v: Unit): seq<Unit> { After([w, v], [Analysed(w)], [], true) }

  ghost predicate TwoUnits(w: Unit, v: Unit) {
    && w.unitId != v.unitId && w.recordVersion >= 1 && !Inactive(w.reviewStatus)
    && v.recordVersion == 1 && v.reviewStatus == Approved
  }

  lemma PairCurrent(w: Unit, v: Unit, id: string)
    requires w.unitId != v.unitId
    ensures Current([w, v], id) == if id == w.unitId then Some(w) else if id == v.unitId then Some(v) else None
    ensures Current([w], id) == if id == w.unitId then Some(w) else None
  {
    assert [w, v][..1] == [w] && [w][..0] == [];
  }

  lemma NoDriftFromAnalysis(w: Unit)
    ensures ChangedFields(w, Analysed(w).(reviewStatus := w.reviewStatus)) == []
  {
    var n := Analysed(w).(reviewStatus := w.reviewStatus);
    forall f ensures !Differs(w, n, f) {}
    NoDrift(w, n, |DIFFED_FIELDS|);
  }

  predicate OtherIds(units: seq<Unit>) { |units| > 1 && units[0].unitId != units[1].unitId }

  lemma OneRemoved(removed: seq<Unit>, v: Unit)
    requires OneEach(removed) && forall u :: u in removed <==> u == v
    ensures removed == [v]
  {
    assert v in removed;
    assert |removed| > 1 ==> OtherIds(removed);
    forall i | 0 <= i < |removed| ensures removed[i] == v { assert removed[i] in removed; }
  }

  lemma {:induction false} NothingChanged(s: Suggestion, publish: seq<Unit>)
    requires forall id :: !IsAdded(s, id) && ChangeOf(s.modified, id).None?
    ensures ChangedRecords(s, publish) == []
  {
    if publish != [] { NothingChanged(s, publish[..|publish| - 1]); }
  }

  lemma DeprecatingPlan(w: Unit, v: Unit, id: string)
    requires TwoUnits(w, v)
    ensures var s := Plan([w, v], [Analysed(w)], [], true);
            && !IsAdded(s, id) && ChangeOf(s.modified, id).None?
            && forall u: Unit | u.unitId == id :: u in s.removed <==> u == v
  {
    hide Plan, Active, Adjusted, ChangedFields, IsAdded, IsModified, ChangeOf, Current;
    var history, analysed := [w, v], [Analysed(w)];
    PairCurrent(w, v, id);
    PairCurrent(Analysed(w), v, id);
    AdjustedIs(Active(history), analysed, id);
    BaseIs(history, id);
    NoDriftFromAnalysis(w);
    PlanIs(history, analysed, [], true, id);
  }

  /** That replacement is accepted, and leaves the second unit behind its tombstone. */
  lemma Deprecated(w: Unit, v: Unit)
    requires TwoUnits(w, v)
    ensures PlanOrRefuse([w, v], Some([Analysed(w)]), [], true).Planned?
    ensures Deprecating(w, v) == [w, v, Tombstone(v)]
  {
    hide Plan, Active, Adjusted, Approve, ChangedFields, IsAdded, IsModified, ChangeOf, Current;
    var history, analysed := [w, v], [Analysed(w)];
    var s := Plan(history, analysed, [], true);
    PairCurrent(w, v, w.unitId);
    SomeActive(history);
    assert Before(history, w.unitId) == Some(w);
    forall id ensures !IsAdded(s, id) && ChangeOf(s.modified, id).None? { DeprecatingPlan(w, v, id); }
    forall u ensures u in s.removed <==> u == v { DeprecatingPlan(w, v, u.unitId); }
    RemovedOneEach(history, analysed, [], true);
    OneRemoved(s.removed, v);
    NothingChanged(s, Approve(s));
  }

  /** Such a unit does come back: the program itself leaves a history behind which the next accepted update, with or
      without replacement, shows the three failures. */
  lemma ReAddingArises(w: Unit, v: Unit, removals: bool)
    requires TwoUnits(w, v)
    ensures var history, analysed := Deprecating(w, v), if removals then [Analysed(w), Analysed(v)] else [Analysed(v)];
            var later := After(history, analysed, [], removals);
            && PlanOrRefuse(history, Some(analysed), [], removals).Planned? && Published(history, analysed, [], removals) != []
            && PlanOrRefuse(later, Some(analysed), [], removals).Planned?
            && Versioned(history, analysed) && AllCandidates(analysed) && UniqueKeys(history)
            && !ActiveIsPublished(history, analysed, [], removals)
            && !NoChange(Plan(later, analysed, [], removals))
            && !UniqueKeys(later)
  {
    hide Plan, Active, Adjusted, After, ActiveIsPublished, NoChange, Current, UniqueKeys, HasKey, Published;
    Deprecated(w, v);
    var history, analysed := Deprecating(w, v), if removals then [Analysed(w), Analysed(v)] else [Analysed(v)];
    BackBehindTombstone(w, v, analysed);
    ReAdding(history, analysed, removals, v.unitId);
    SomeActive(history);
    FoldInIdempotent(history, analysed, removals);
    assert removals ==> Analysed(w) in analysed;
    NotReAdded(history, analysed, w.unitId);
    InPublished(history, analysed, [], removals, v.unitId);
    CurrentIn(Published(history, analysed, [], removals), v.unitId);
  }

  lemma BackBehindTombstone(w: Unit, v: Unit, analysed: seq<Unit>)
    requires TwoUnits(w, v) && (analysed == [Analysed(v)] || analysed == [Analysed(w), Analysed(v)])
    ensures var history := [w, v, Tombstone(v)];
            && Versioned(history, analysed) && AllCandidates(analysed) && UniqueKeys(history)
            && ReAdds(history, analysed, v.unitId) && HasKey(history, v.unitId, 1)
            && Before(history, w.unitId) == Some(w) && Proposed(history, analysed, v.unitId).Some?
  {
    hide Active, Adjusted, Current;
    var history := [w, v, Tombstone(v)];
    TombstoneHides(w, v);
    AnalysedProposed(history, analysed, v.unitId);
    assert Analysed(v) in analysed;
    assert history[1] == v;
  }

  lemma TombstoneHides(w: Unit, v: Unit)
    requires TwoUnits(w, v)
    ensures var history := [w, v, Tombstone(v)];
            Current(history, w.unitId) == Some(w) && Current(history, v.unitId) == Some(Tombstone(v))
  {
    PairCurrent(w, v, w.unitId);
    PairCurrent(w, v, v.unitId);
    assert [w, v, Tombstone(v)][..2] == [w, v];
  }

  lemma FirstIn<T>(s: seq<T>)
    ensures s != [] ==> s[0] in s
  {
  }

  lemma EmptyWhen(s: Suggestion)
    requires (forall id :: !IsModified(s, id)) && forall u :: u !in s.removed
    ensures NoChange(s) <==> forall id :: !IsAdded(s, id)
  {
    if s.modified != [] { assert IsModified(s, s.modified[0].unitId); }
    FirstIn(s.removed);
    if s.added != [] { assert IsAdded(s, s.added[0].unitId); }
  }

  // ---- theorem: keys stay unique ----

  ghost predicate UniqueKeys(records: seq<Unit>) {
    forall i, j | 0 <= i < j < |records| :: (records[i].unitId, records[i].recordVersion) != (records[j].unitId, records[j].recordVersion)
  }

  ghost predicate HasKey(records: seq<Unit>, id: string, version: nat) {
    exists i | 0 <= i < |records| :: records[i].unitId == id && records[i].recordVersion == version
  }

  ghost predicate Collides(history: seq<Unit>, pending: seq<Unit>, id: string) {
    Current(pending, id).Some? && HasKey(history, id, Current(pending, id).value.recordVersion)
  }

  /** Keys of id and version stay unique exactly when no unit is added under a key that the history has. */
  lemma KeysStayUnique(history: seq<Unit>, analysed: seq<Unit>, active: seq<Override>, removals: bool)
    requires AllValid(active) && Versioned(history, analysed) && UniqueKeys(history)
    ensures UniqueKeys(After(history, analysed, active, removals)) <==>
              forall id | Adds(history, analysed, id) :: !HasKey(history, id, 1)
  {
    hide Plan, Approve, Pending, Before, Proposed, Current, Published, HasKey, Adds, UniqueKeys, Collides;
    var s := Plan(history, analysed, active, removals);
    var pending := Pending(s, Approve(s));
    PendingKey(history, analysed, active, removals, "");
    forall id ensures (HasKey(history, id, 1) && Adds(history, analysed, id) <==> Collides(history, pending, id)) {
      PendingKey(history, analysed, active, removals, id);
    }
    UniqueAppend(history, pending);
    assert After(history, analysed, active, removals) == history + pending;
  }

  lemma PendingKey(history: seq<Unit>, analysed: seq<Unit>, active: seq<Override>, removals: bool, id: string)
    requires AllValid(active) && Versioned(history, analysed)
    ensures var s := Plan(history, analysed, active, removals);
            var pending := Pending(s, Approve(s));
            && OneEach(pending)
            && (HasKey(history, id, 1) && Adds(history, analysed, id) <==> Collides(history, pending, id))
  {
    hide Plan, Approve, Pending, Published, Proposed, ChangedFields;
    PendingIs(history, analysed, active, removals, id);
    PublishedSame(history, analysed, active, removals);
    if Adds(history, analysed, id) {
      AddedVersion(history, analysed, active, removals, id);
    } else if Before(history, id).Some? {
      var a := Before(history, id).value;
      BeforeId(history, id);
      forall i | 0 <= i < |history| && history[i].unitId == id ensures history[i].recordVersion <= a.recordVersion {
        CurrentIsLatest(history, id, i);
      }
      assert !HasKey(history, id, a.recordVersion + 1);
    } else {
      InPublished(history, analysed, active, removals, id);
    }
  }

  lemma UniqueAppend(history: seq<Unit>, pending: seq<Unit>)
    requires UniqueKeys(history) && OneEach(pending)
    ensures UniqueKeys(history + pending) <==>
              forall id :: !Collides(history, pending, id)
  {
    hide Current;
    var all := history + pending;
    if UniqueKeys(all) {
      forall id | Current(pending, id).Some? ensures !Collides(history, pending, id) {
        CurrentIn(pending, id);
        var j :| 0 <= j < |pending| && pending[j] == Current(pending, id).value;
        forall i | 0 <= i < |history| ensures !(history[i].unitId == id && history[i].recordVersion == pending[j].recordVersion) {
          assert all[i] == history[i] && all[|history| + j] == pending[j];
        }
      }
    } else {
      var i, j :| 0 <= i < j < |all| && (all[i].unitId, all[i].recordVersion) == (all[j].unitId, all[j].recordVersion);
      assert forall k | 0 <= k < |history| :: history[k] == all[k];
      assert forall k | |history| <= k < |all| :: pending[k - |history|] == all[k];
      assert i < |history| <= j;
      var u := pending[j - |history|];
      assert u in pending;
      CurrentInView(pending, u);
      assert HasKey(history, u.unitId, u.recordVersion);
      assert Collides(history, pending, u.unitId);
    }
  }
}
