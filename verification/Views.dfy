/** The views over an append-only history of records (src/book2skill/domain/knowledge.py, lines 364-427). */
module Views {
  import opened Knowledge

  /** The latest record of an id: the first one of the highest version. */
  function Current(records: seq<Unit>, id: string): (r: Option<Unit>)
    ensures r.Some? ==> r.value in records && r.value.unitId == id
  {
    if records == [] then None
    else
      var last := records[|records| - 1];
      var before := Current(records[..|records| - 1], id);
      if last.unitId == id && (before.None? || last.recordVersion > before.value.recordVersion) then Some(last) else before
  }

  /** The ids in the order of their first appearance. */
  function Ids(records: seq<Unit>): (ids: seq<string>)
    ensures forall id :: id in ids <==> exists i | 0 <= i < |records| :: records[i].unitId == id
    ensures forall i, j | 0 <= i < j < |ids| :: ids[i] != ids[j]
  {
    if records == [] then []
    else
      var last := records[|records| - 1];
      assert forall i | 0 <= i < |records| - 1 :: records[..|records| - 1][i] == records[i];
      var before := Ids(records[..|records| - 1]);
      if last.unitId in before then before else before + [last.unitId]
  }

  lemma {:induction false} CurrentExists(records: seq<Unit>, id: string)
    ensures Current(records, id).Some? <==> id in Ids(records)
  {
    if records != [] { CurrentExists(records[..|records| - 1], id); }
  }

  /** Id a appears in the records before id b does. */
  ghost predicate AppearsBefore(records: seq<Unit>, a: string, b: string) {
    exists i | 0 <= i < |records| :: records[i].unitId == a && forall j | 0 <= j <= i :: records[j].unitId != b
  }

  lemma {:induction false} IdsInOrder(records: seq<Unit>, i: nat, j: nat)
    requires i < j < |Ids(records)|
    ensures AppearsBefore(records, Ids(records)[i], Ids(records)[j])
  {
    var init, n := records[..|records| - 1], |records| - 1;
    var was, a, b := Ids(init), Ids(records)[i], Ids(records)[j];
    if j < |was| {
      IdsInOrder(init, i, j);
      var k :| 0 <= k < |init| && init[k].unitId == a && forall l | 0 <= l <= k :: init[l].unitId != b;
      assert records[k].unitId == a && forall l | 0 <= l <= k :: records[l] == init[l];
    } else {
      assert b == records[n].unitId && b !in was && a in was;
      var k :| 0 <= k < |init| && init[k].unitId == a;
      forall l | 0 <= l <= k ensures records[l].unitId != b { assert records[l] == init[l]; }
      assert records[k].unitId == a;
    }
  }

  /** Every id once, in the order of first appearance, with its latest record. */
  function View(records: seq<Unit>): (view: seq<Unit>)
    ensures |view| == |Ids(records)|
    ensures forall i | 0 <= i < |view| :: view[i].unitId == Ids(records)[i] && Current(records, Ids(records)[i]) == Some(view[i])
  {
    var ids := Ids(records);
    assert forall i | 0 <= i < |ids| :: Current(records, ids[i]).Some? by {
      forall i | 0 <= i < |ids| ensures Current(records, ids[i]).Some? { CurrentExists(records, ids[i]); }
    }
    seq(|ids|, i requires 0 <= i < |ids| => Current(records, ids[i]).value)
  }

  predicate Inactive(s: Status) { s == Superseded || s == Rejected }

  function Keep(view: seq<Unit>): seq<Unit> {
    if view == [] then []
    else Keep(view[..|view| - 1]) + if Inactive(view[|view| - 1].reviewStatus) then [] else [view[|view| - 1]]
  }

  function Active(records: seq<Unit>): seq<Unit> { Keep(View(records)) }

  // ---- what the latest record is ----

  /** No earlier record of the id has a version as high as the one at k. */
  ghost predicate FirstToReach(records: seq<Unit>, id: string, k: nat)
    requires k < |records|
  {
    forall j | 0 <= j < k && records[j].unitId == id :: records[j].recordVersion < records[k].recordVersion
  }

  lemma {:induction false} CurrentIsHighest(records: seq<Unit>, id: string)
    ensures forall i | 0 <= i < |records| && records[i].unitId == id
              :: Current(records, id).Some? && records[i].recordVersion <= Current(records, id).value.recordVersion
  {
    if records != [] {
      var init := records[..|records| - 1];
      CurrentIsHighest(init, id);
      assert forall i | 0 <= i < |init| :: records[i] == init[i];
    }
  }

  /** The latest record has the highest version, and is the first to have it. */
  lemma {:induction false} CurrentIsLatest(records: seq<Unit>, id: string, i: nat)
    requires i < |records| && records[i].unitId == id
    ensures Current(records, id).Some? && records[i].recordVersion <= Current(records, id).value.recordVersion
    ensures exists k: nat | k < |records| :: FirstToReach(records, id, k) && records[k] == Current(records, id).value
  {
    CurrentIsHighest(records, id);
    CurrentIsFirst(records, id);
  }

  lemma {:induction false} CurrentIsFirst(records: seq<Unit>, id: string)
    requires Current(records, id).Some?
    ensures exists k: nat | k < |records| :: FirstToReach(records, id, k) && records[k] == Current(records, id).value
  {
    var init := records[..|records| - 1];
    var before := Current(init, id);
    if before == Current(records, id) {
      CurrentIsFirst(init, id);
      var k: nat :| k < |init| && FirstToReach(init, id, k) && init[k] == before.value;
      assert records[k] == init[k] && FirstToReach(records, id, k);
    } else {
      CurrentIsHighest(init, id);
      hide Current;
      forall j | 0 <= j < |init| && records[j].unitId == id ensures records[j].recordVersion < records[|init|].recordVersion {
        assert init[j] == records[j];
      }
      assert FirstToReach(records, id, |init|);
    }
  }

  /** latest_record: the matching records, then the maximum of their versions. */
  method LatestRecord(records: seq<Unit>, id: string) returns (r: Option<Unit>)
    ensures r == Current(records, id)
  {
    r := None;
    for i := 0 to |records|
      invariant r == Current(records[..i], id)
    {
      assert records[..i + 1][..i] == records[..i];
      if records[i].unitId == id && (r.None? || records[i].recordVersion > r.value.recordVersion) { r := Some(records[i]); }
    }
    assert records[..|records|] == records;
  }

  /** current_view: an insertion-ordered dictionary, whose keys keep the place of their first insertion. */
  method CurrentView(records: seq<Unit>) returns (view: seq<Unit>)
    ensures view == View(records)
  {
    var seen: map<string, Unit>, keys: seq<string> := map[], [];
    for i := 0 to |records|
      invariant keys == Ids(records[..i]) && seen.Keys == set id | id in keys
      invariant forall id | id in seen :: Current(records[..i], id) == Some(seen[id])
    {
      var u := records[i];
      assert records[..i + 1][..i] == records[..i];
      CurrentExists(records[..i], u.unitId);
      if u.unitId !in seen || u.recordVersion > seen[u.unitId].recordVersion {
        if u.unitId !in seen { keys := keys + [u.unitId]; }
        seen := seen[u.unitId := u];
      }
    }
    assert records[..|records|] == records;
    view := seq(|keys|, i requires 0 <= i < |keys| && keys[i] in seen => seen[keys[i]]);
  }

  method ActiveView(records: seq<Unit>) returns (active: seq<Unit>)
    ensures active == Active(records)
  {
    var view := CurrentView(records);
    active := [];
    for i := 0 to |view|
      invariant active == Keep(view[..i])
    {
      assert view[..i + 1][..i] == view[..i];
      if !Inactive(view[i].reviewStatus) { active := active + [view[i]]; }
    }
    assert view[..|view|] == view;
  }

  // ---- facts about views ----

  ghost predicate OneEach(units: seq<Unit>) { forall i, j | 0 <= i < j < |units| :: units[i].unitId != units[j].unitId }

  /** A list with one record per id is its own view. */
  lemma {:induction false} ViewOfView(units: seq<Unit>)
    requires OneEach(units)
    ensures View(units) == units
    ensures |Ids(units)| == |units| && forall i | 0 <= i < |units| :: Ids(units)[i] == units[i].unitId && Current(units, units[i].unitId) == Some(units[i])
  {
    if units != [] {
      var init := units[..|units| - 1];
      ViewOfView(init);
      var last := units[|units| - 1];
      assert forall i | 0 <= i < |init| :: units[i] == init[i];
      CurrentExists(init, last.unitId);
      assert Ids(units) == Ids(init) + [last.unitId];
      forall i | 0 <= i < |units| ensures Current(units, units[i].unitId) == Some(units[i]) {
        if i < |init| { assert init[i] == units[i]; }
      }
    }
  }

  lemma ViewOneEach(records: seq<Unit>)
    ensures OneEach(View(records))
  {
  }

  lemma {:induction false} KeepIs(view: seq<Unit>)
    requires OneEach(view)
    ensures OneEach(Keep(view))
    ensures forall u :: u in Keep(view) <==> u in view && !Inactive(u.reviewStatus)
  {
    if view != [] {
      var init, last := view[..|view| - 1], view[|view| - 1];
      KeepIs(init);
      assert view == init + [last];
      forall i | 0 <= i < |Keep(init)| ensures Keep(init)[i].unitId != last.unitId {
        assert Keep(init)[i] in Keep(init);
        var j :| 0 <= j < |init| && init[j] == Keep(init)[i];
        assert view[j] == init[j];
      }
    }
  }

  /** What is kept of a view stays in its order. */
  lemma {:induction false} KeepInOrder(view: seq<Unit>, i: nat, j: nat)
    requires i < j < |Keep(view)|
    ensures exists p: nat, q: nat | p < q < |view| :: view[p] == Keep(view)[i] && view[q] == Keep(view)[j]
  {
    var init, n := view[..|view| - 1], |view| - 1;
    var was, now := Keep(init), Keep(view);
    if j < |was| {
      KeepInOrder(init, i, j);
      var p: nat, q: nat :| p < q < |init| && init[p] == was[i] && init[q] == was[j];
      assert view[p] == now[i] && view[q] == now[j];
    } else {
      assert now[j] == view[n] && now[i] == was[i];
      KeptFrom(init, i);
      var p: nat :| p < |init| && init[p] == was[i];
      assert view[p] == now[i];
    }
  }

  lemma {:induction false} KeptFrom(view: seq<Unit>, i: nat)
    requires i < |Keep(view)|
    ensures exists p: nat | p < |view| :: view[p] == Keep(view)[i]
  {
    var init, n := view[..|view| - 1], |view| - 1;
    if i < |Keep(init)| {
      KeptFrom(init, i);
      var p: nat :| p < |init| && init[p] == Keep(init)[i];
      assert view[p] == Keep(view)[i];
    } else {
      assert view[n] == Keep(view)[i];
    }
  }

  /** The active units come in the order in which their ids first appear in the history. */
  lemma ActiveInOrder(records: seq<Unit>, i: nat, j: nat)
    requires i < j < |Active(records)|
    ensures AppearsBefore(records, Active(records)[i].unitId, Active(records)[j].unitId)
  {
    KeepInOrder(View(records), i, j);
    hide Keep, Ids, AppearsBefore;
    var view, active := View(records), Active(records);
    var p: nat, q: nat :| p < q < |view| && view[p] == active[i] && view[q] == active[j];
    IdsInOrder(records, p, q);
  }

  function ActiveCurrent(records: seq<Unit>, id: string): Option<Unit> {
    var c := Current(records, id);
    if c.Some? && !Inactive(c.value.reviewStatus) then c else None
  }

  /** The active view holds exactly the ids whose latest record is active, each once. */
  lemma ActiveIs(records: seq<Unit>)
    ensures OneEach(Active(records))
    ensures forall u :: u in Active(records) <==> ActiveCurrent(records, u.unitId) == Some(u)
  {
    var view := View(records);
    ViewOneEach(records);
    KeepIs(view);
    forall u ensures u in view <==> Current(records, u.unitId) == Some(u) {
      CurrentExists(records, u.unitId);
      if Current(records, u.unitId) == Some(u) {
        var i :| 0 <= i < |Ids(records)| && Ids(records)[i] == u.unitId;
        assert view[i] == u;
      }
    }
  }

  /** Looking an id up in a list with one record per id. */
  lemma CurrentInView(units: seq<Unit>, u: Unit)
    requires OneEach(units) && u in units
    ensures Current(units, u.unitId) == Some(u)
  {
    ViewOfView(units);
  }

  /** Appending a batch with one record per id: a record counts if its version is higher. */
  lemma {:induction false} CurrentAppend(records: seq<Unit>, batch: seq<Unit>, id: string)
    requires OneEach(batch)
    ensures var before, appended := Current(records, id), Current(batch, id);
            Current(records + batch, id) ==
              if appended.Some? && (before.None? || appended.value.recordVersion > before.value.recordVersion) then appended else before
  {
    if batch == [] {
      assert records + batch == records;
    } else {
      var init, last := batch[..|batch| - 1], batch[|batch| - 1];
      CurrentAppend(records, init, id);
      assert (records + batch)[..|records + batch| - 1] == records + init;
      assert forall i | 0 <= i < |init| :: init[i] == batch[i];
      assert last.unitId == id ==> Current(init, id).None?;
    }
  }

  /** The record that supersedes another keeps its id and takes the next version. */
  function Supersession(prior: Unit, update: Unit): Unit {
    update.(unitId := prior.unitId, recordVersion := prior.recordVersion + 1, supersedes := Some(prior.unitId))
  }

  lemma SupersessionIsCurrent(records: seq<Unit>, prior: Unit, update: Unit)
    requires Current(records, prior.unitId) == Some(prior)
    ensures Current(records + [Supersession(prior, update)], prior.unitId) == Some(Supersession(prior, update))
    ensures forall id | id != prior.unitId :: Current(records + [Supersession(prior, update)], id) == Current(records, id)
  {
    assert (records + [Supersession(prior, update)])[..|records|] == records;
  }
}
