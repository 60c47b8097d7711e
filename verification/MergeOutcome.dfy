/** What a merged collection says, unit by unit and field by field
    (src/book2skill/application/diff.py, lines 282-383 and 523-597). */
module MergeOutcome {
  import opened Knowledge
  import opened Views
  import opened Merge

  /** An active override of a field of a base record that departs from the record: a human's edit. */
  ghost predicate Edits(active: seq<Override>, b: Unit, f: Field, o: Override) {
    o in active && o.unitId == b.unitId && o.field == f && !ValuesEqual(Get(b, f), o.value)
  }

  /** Field f of u, merged from base record b and new record n: the human's value if the human edited the
      field, the new one otherwise; an unedited confidence stays where the new one is within the tolerance. */
  ghost predicate FieldMerged(b: Unit, n: Unit, active: seq<Override>, u: Unit, f: Field) {
    if exists o :: Edits(active, b, f, o) then forall o | Edits(active, b, f, o) :: Get(u, f) == Normal(o.value)
    else Get(u, f) == Get(n, f) || (f == ConfidenceField && Get(u, f) == Get(b, f) && ConfidenceEqual(Get(b, f), Get(n, f)))
  }

  /** Identity, version and evidence stay those of the base record. */
  ghost predicate SameRecord(b: Unit, u: Unit) {
    && u.unitId == b.unitId && u.recordVersion == b.recordVersion && u.supersedes == b.supersedes
    && u.evidenceLevel == b.evidenceLevel && u.evidenceNote == b.evidenceNote
  }

  /** The merged record of an id: a unit without a base passes through, one without a new record is merged
      with itself. */
  ghost predicate UnitMerged(base: seq<Unit>, theirs: seq<Unit>, active: seq<Override>, u: Unit) {
    var b, n := Current(base, u.unitId), Current(theirs, u.unitId);
    if b.None? then n == Some(u) else MergedWith(b.value, if n.Some? then n.value else b.value, active, u)
  }

  ghost predicate MergedWith(b: Unit, n: Unit, active: seq<Override>, u: Unit) {
    SameRecord(b, u) && forall f :: FieldMerged(b, n, active, u, f)
  }

  ghost predicate Listed(merged: seq<Unit>, id: string) { exists i | 0 <= i < |merged| :: merged[i].unitId == id }

  /** Removal mode has the ids of the new collection in their order; add-only mode has those of the base
      in their order, then the others. Each id is there once. */
  ghost predicate InOrder(base: seq<Unit>, theirs: seq<Unit>, removals: bool, merged: seq<Unit>) {
    && OneEach(merged)
    && (forall id :: Listed(merged, id) <==> Current(theirs, id).Some? || (!removals && Current(base, id).Some?))
    && (forall i, j | 0 <= i < j < |merged| :: Follows(base, theirs, removals, merged[i].unitId, merged[j].unitId))
  }

  ghost predicate Follows(base: seq<Unit>, theirs: seq<Unit>, removals: bool, x: string, y: string) {
    if removals then AppearsBefore(theirs, x, y)
    else if Current(base, y).Some? then AppearsBefore(base, x, y)
    else Current(base, x).Some? || AppearsBefore(theirs, x, y)
  }

  ghost predicate IsMerge(base: seq<Unit>, theirs: seq<Unit>, active: seq<Override>, removals: bool, merged: seq<Unit>) {
    InOrder(base, theirs, removals, merged) && forall u | u in merged :: UnitMerged(base, theirs, active, u)
  }

  /** An applied override that departs from the base shows in the merged record of its id. */
  ghost predicate Shows(base: seq<Unit>, merged: seq<Unit>, o: Override) {
    && Current(base, o.unitId).Some?
    && (!ValuesEqual(Get(Current(base, o.unitId).value, o.field), o.value) ==>
          exists u | u in merged :: u.unitId == o.unitId && Get(u, o.field) == Normal(o.value))
  }

  /** The active override disagrees with the base and with the new record, which disagree with each other. */
  ghost predicate Disputes(base: seq<Unit>, theirs: seq<Unit>, active: seq<Override>, o: Override) {
    var b, n := Current(base, o.unitId), Current(theirs, o.unitId);
    && o in active && b.Some? && n.Some?
    && !ValuesEqual(Get(b.value, o.field), o.value) && !ValuesEqual(o.value, Get(n.value, o.field))
    && !ValuesEqual(Get(b.value, o.field), Get(n.value, o.field))
  }

  /** The conflict on what an override says: the human's value and the generator's. */
  ghost predicate Reports(theirs: seq<Unit>, o: Override, c: MergeConflict) {
    && c.unitId == o.unitId && c.field == o.field && c.human == o.value
    && Current(theirs, o.unitId).Some? && c.generator == Get(Current(theirs, o.unitId).value, o.field)
  }

  /** The conflict is one on a disputed override. */
  ghost predicate Disputed(base: seq<Unit>, theirs: seq<Unit>, active: seq<Override>, c: MergeConflict) {
    exists o :: Disputes(base, theirs, active, o) && Reports(theirs, o, c)
  }

  ghost predicate Reported(theirs: seq<Unit>, o: Override, cs: seq<MergeConflict>) {
    exists k | 0 <= k < |cs| :: Reports(theirs, o, cs[k])
  }

  /** One conflict for every disputed override and no other; the numbers are 0 to n - 1. */
  ghost predicate ConflictsAre(base: seq<Unit>, theirs: seq<Unit>, active: seq<Override>, cs: seq<MergeConflict>) {
    && (forall k | 0 <= k < |cs| :: cs[k].number == k && Disputed(base, theirs, active, cs[k]))
    && (forall o | Disputes(base, theirs, active, o) :: Reported(theirs, o, cs))
    && (forall j, k | 0 <= j < k < |cs| :: cs[j].unitId != cs[k].unitId || cs[j].field != cs[k].field)
  }

  /** Every active override of a unit of either side lands exactly once: applied where the unit is merged with
      its base, preserved where it has no base or is dropped. Applied ones that depart from the base show. */
  ghost predicate Landed(base: seq<Unit>, theirs: seq<Unit>, active: seq<Override>, removals: bool,
                         merged: seq<Unit>, applied: seq<Override>, preserved: seq<Override>) {
    && (forall o :: multiset(applied)[o] == if Meets(base, theirs, removals, o) && o in active then 1 else 0)
    && (forall o :: multiset(preserved)[o] == if Misses(base, theirs, removals, o) && o in active then 1 else 0)
    && (forall o | o in applied :: Shows(base, merged, o))
  }

  ghost predicate Meets(base: seq<Unit>, theirs: seq<Unit>, removals: bool, o: Override) {
    Current(base, o.unitId).Some? && (Current(theirs, o.unitId).Some? || !removals)
  }

  ghost predicate Misses(base: seq<Unit>, theirs: seq<Unit>, removals: bool, o: Override) {
    if Current(base, o.unitId).None? then Current(theirs, o.unitId).Some? else removals && Current(theirs, o.unitId).None?
  }
}
