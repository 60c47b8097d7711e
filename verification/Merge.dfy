/** Three-way merge of two collections with human overrides
    (src/book2skill/application/diff.py, lines 282-383 and 476-618). */
module Merge {
  import opened Knowledge
  import opened Views

  datatype Field = KindField | ContentField | ConditionsField | ExceptionsField | ConfidenceField | StatusField | RefsField

  const DIFFED_FIELDS: seq<Field> :=
    [KindField, ContentField, ConditionsField, ExceptionsField, ConfidenceField, StatusField, RefsField]

  /** Field values as the merge compares them. A confidence override may be an integer. */
  datatype Value = KindV(k: Kind) | TextV(t: string) | ListV(l: seq<string>) | FloatV(x: real) | IntV(n: int) | NoneV
                 | StatusV(s: Status) | RefsV(r: seq<Ref>)

  function Get(u: Unit, f: Field): Value {
    match f
    case KindField => KindV(u.kind)
    case ContentField => TextV(u.content)
    case ConditionsField => ListV(u.conditions)
    case ExceptionsField => ListV(u.exceptions)
    case ConfidenceField => if u.confidence.Some? then FloatV(u.confidence.value) else NoneV
    case StatusField => StatusV(u.reviewStatus)
    case RefsField => RefsV(u.sourceRefs)
  }

  /** Whether a value has the type of its field. */
  predicate Fits(f: Field, v: Value) {
    match f
    case KindField => v.KindV?
    case ContentField => v.TextV?
    case ConditionsField => v.ListV?
    case ExceptionsField => v.ListV?
    case ConfidenceField => v.FloatV? || v.IntV? || v.NoneV?
    case StatusField => v.StatusV?
    case RefsField => v.RefsV?
  }

  /** Validation turns an integer confidence into a float. */
  function Normal(v: Value): Value { if v.IntV? then FloatV(v.n as real) else v }

  function Put(u: Unit, f: Field, v: Value): Unit
    requires Fits(f, v)
  {
    match f
    case KindField => u.(kind := v.k)
    case ContentField => u.(content := v.t)
    case ConditionsField => u.(conditions := v.l)
    case ExceptionsField => u.(exceptions := v.l)
    case ConfidenceField => u.(confidence := if v.NoneV? then None else Some(Normal(v).x))
    case StatusField => u.(reviewStatus := v.s)
    case RefsField => u.(sourceRefs := v.r)
  }

  // ---- equality ----

  function Abs(x: real): real { if x < 0.0 then -x else x }

  predicate Close(a: real, b: real) { Abs(a - b) < 0.000000001 }

  predicate ConfidenceEqual(a: Value, b: Value) {
    (a.NoneV? && b.NoneV?) || (a.FloatV? && b.FloatV? && Close(a.x, b.x))
  }

  function Elements(l: seq<string>): set<string> { set x | x in l }

  /** Floats within a tolerance, lists of strings as sets, anything else by ==, which relates 1 and 1.0. */
  predicate ValuesEqual(a: Value, b: Value) {
    if a.FloatV? && b.FloatV? then Close(a.x, b.x)
    else if a.ListV? && b.ListV? && a.l != [] then Elements(a.l) == Elements(b.l)
    else Normal(a) == Normal(b)
  }

  /** What the comparison answers. Floats may be apart by less than the tolerance, an integer and a float
      may not; lists need the same elements, in any order and number. */
  lemma ValuesEqualIs(a: Value, b: Value)
    ensures a.FloatV? && b.FloatV? ==> (ValuesEqual(a, b) <==> -0.000000001 < a.x - b.x < 0.000000001)
    ensures a.IntV? && b.FloatV? ==> (ValuesEqual(a, b) <==> a.n as real == b.x)
    ensures a.ListV? && b.ListV? ==> (ValuesEqual(a, b) <==> forall x :: x in a.l <==> x in b.l)
    ensures !a.IntV? && !b.IntV? && !(a.ListV? && b.ListV?) && !(a.FloatV? && b.FloatV?) ==> (ValuesEqual(a, b) <==> a == b)
    ensures a.IntV? && b.IntV? ==> (ValuesEqual(a, b) <==> a == b)
    ensures ValuesEqual(a, b) <==> ValuesEqual(b, a)
  {
    if a.ListV? && b.ListV? {
      assert Elements(a.l) == Elements(b.l) <==> forall x :: x in a.l <==> x in b.l by {
        if forall x :: x in a.l <==> x in b.l { assert Elements(a.l) == Elements(b.l); }
        if Elements(a.l) == Elements(b.l) { forall x ensures x in a.l <==> x in b.l { assert x in Elements(a.l) <==> x in Elements(b.l); } }
      }
      if a.l == [] && b.l != [] { assert b.l[0] in b.l; }
      if b.l == [] && a.l != [] { assert a.l[0] in a.l; }
    }
  }

  // ---- overrides ----

  datatype Override = Override(overrideId: string, unitId: string, field: Field, value: Value, createdAt: int, superseded: bool)

  /** What storage has checked of every override: its field may be edited and its value has the right type. */
  predicate Valid(o: Override) {
    match o.field
    case ContentField => o.value.TextV? && o.value.t != []
    case ConditionsField => o.value.ListV?
    case ExceptionsField => o.value.ListV?
    case ConfidenceField => (o.value.FloatV? && 0.0 <= o.value.x <= 1.0) || (o.value.IntV? && 0 <= o.value.n <= 1)
    case StatusField => o.value.StatusV?
    case _ => false
  }

  predicate SameKey(o: Override, p: Override) { o.unitId == p.unitId && o.field == p.field }

  ghost predicate OnePerKey(os: seq<Override>) { forall i, j | 0 <= i < j < |os| :: !SameKey(os[i], os[j]) }

  /** The latest override of a key that is not superseded; of several equally late ones, the first. */
  function Latest(os: seq<Override>, id: string, f: Field): (r: Option<Override>)
    ensures r.Some? ==> r.value in os && r.value.unitId == id && r.value.field == f && !r.value.superseded
  {
    if os == [] then None
    else
      var o := os[|os| - 1];
      var before := Latest(os[..|os| - 1], id, f);
      if o.unitId == id && o.field == f && !o.superseded && (before.None? || o.createdAt > before.value.createdAt) then Some(o) else before
  }

  /** An override of that field of that unit that still counts. */
  predicate Live(o: Override, id: string, f: Field) { o.unitId == id && o.field == f && !o.superseded }

  /** Every override of the key before position k is strictly older. */
  ghost predicate EarlierOnly(os: seq<Override>, id: string, f: Field, k: nat)
    requires k < |os|
  {
    forall j | 0 <= j < k && Live(os[j], id, f) :: os[j].createdAt < os[k].createdAt
  }

  /** The latest override has the highest time, and of several with that time it is the first. */
  lemma {:induction false} LatestIs(os: seq<Override>, id: string, f: Field)
    ensures var l := Latest(os, id, f);
            && (forall i | 0 <= i < |os| && Live(os[i], id, f) :: l.Some? && os[i].createdAt <= l.value.createdAt)
            && (l.Some? ==> exists k: nat | k < |os| :: os[k] == l.value && EarlierOnly(os, id, f, k))
  {
    if os != [] {
      var init, n := os[..|os| - 1], |os| - 1;
      LatestIs(init, id, f);
      var l, was := Latest(os, id, f), Latest(init, id, f);
      hide Latest;
      assert forall i | 0 <= i < n :: os[i] == init[i];
      if l.Some? && l == was {
        var k: nat :| k < |init| && init[k] == was.value && EarlierOnly(init, id, f, k);
        assert os[k] == l.value && EarlierOnly(os, id, f, k);
      } else if l.Some? {
        assert os[n] == l.value && EarlierOnly(os, id, f, n);
      }
    }
  }

  /** Exactly the latest override of every key. */
  method ActiveOverrides(overrides: seq<Override>) returns (active: seq<Override>)
    ensures OnePerKey(active)
    ensures forall o :: o in active <==> Latest(overrides, o.unitId, o.field) == Some(o)
  {
    active := [];
    for n := 0 to |overrides|
      invariant OnePerKey(active)
      invariant forall o :: o in active <==> Latest(overrides[..n], o.unitId, o.field) == Some(o)
    {
      var o := overrides[n];
      assert overrides[..n + 1][..n] == overrides[..n];
      if !o.superseded {
        var at := FindKey(active, o);
        if at.None? {
          assert Latest(overrides[..n], o.unitId, o.field) == None by {
            var l := Latest(overrides[..n], o.unitId, o.field);
            if l.Some? { assert l.value in active && SameKey(l.value, o); }
          }
          active := active + [o];
        } else {
          assert active[at.value] in active;
          if o.createdAt > active[at.value].createdAt {
            ghost var before := active;
            active := active[at.value := o];
            forall p ensures p in active <==> Latest(overrides[..n + 1], p.unitId, p.field) == Some(p) {
              ReplacedIn(before, at.value, o, p);
            }
          }
        }
      }
    }
    assert overrides[..|overrides|] == overrides;
  }

  lemma ReplacedIn(before: seq<Override>, k: nat, o: Override, p: Override)
    requires OnePerKey(before) && k < |before| && SameKey(before[k], o)
    ensures p in before[k := o] <==> if SameKey(p, o) then p == o else p in before
  {
    var active := before[k := o];
    assert active[k] == o;
    if p in before && !SameKey(p, o) {
      var i :| 0 <= i < |before| && before[i] == p;
      assert active[i] == p;
    }
    if p in active && SameKey(p, o) {
      var i :| 0 <= i < |active| && active[i] == p;
      assert i == k;
    }
  }

  method FindKey(active: seq<Override>, o: Override) returns (at: Option<nat>)
    ensures at.Some? ==> at.value < |active| && SameKey(active[at.value], o)
    ensures at.None? ==> forall p | p in active :: !SameKey(p, o)
  {
    for i := 0 to |active|
      invariant forall j | 0 <= j < i :: !SameKey(active[j], o)
    {
      if SameKey(active[i], o) { return Some(i); }
    }
    return None;
  }

  // ---- one unit ----

  /** The override of a field among those of one unit; a later one in the list would replace it. */
  function OverrideFor(os: seq<Override>, f: Field): (r: Option<Override>)
    ensures r.Some? ==> r.value in os && r.value.field == f
  {
    if os == [] then None
    else if os[|os| - 1].field == f then Some(os[|os| - 1])
    else OverrideFor(os[..|os| - 1], f)
  }

  /** Both sides changed the field, and differently. */
  predicate Clashes(base: Value, theirs: Value, o: Option<Override>) {
    o.Some? && !ValuesEqual(base, o.value.value) && !ValuesEqual(o.value.value, theirs) && !ValuesEqual(base, theirs)
  }

  /** The reconciled value: the human's if it departs from the base, the generator's otherwise. */
  function MergedValue(base: Value, theirs: Value, f: Field, o: Option<Override>): Value {
    if o.None? then if f == ConfidenceField && ConfidenceEqual(base, theirs) then base else theirs
    else if ValuesEqual(base, o.value.value) then theirs
    else o.value.value
  }

  lemma FitsGet(u: Unit, f: Field)
    ensures Fits(f, Get(u, f))
  {
  }

  ghost predicate AllValid(os: seq<Override>) { forall o | o in os :: Valid(o) }

  function PutFields(base: Unit, theirs: Unit, os: seq<Override>, i: nat): (u: Unit)
    requires i <= |DIFFED_FIELDS| && AllValid(os)
    ensures u == base.(kind := u.kind, content := u.content, conditions := u.conditions, exceptions := u.exceptions,
                       confidence := u.confidence, reviewStatus := u.reviewStatus, sourceRefs := u.sourceRefs)
  {
    if i == 0 then base
    else
      var f := DIFFED_FIELDS[i - 1];
      FitsGet(base, f);
      FitsGet(theirs, f);
      Put(PutFields(base, theirs, os, i - 1), f, MergedValue(Get(base, f), Get(theirs, f), f, OverrideFor(os, f)))
  }

  function MergedUnit(base: Unit, theirs: Unit, os: seq<Override>): Unit
    requires AllValid(os)
  {
    PutFields(base, theirs, os, |DIFFED_FIELDS|)
  }

  datatype MergeConflict = MergeConflict(number: nat, unitId: string, field: Field, human: Value, generator: Value)

  /** The conflicts of the first i fields, numbered from offset on. */
  function ConflictsOf(base: Unit, theirs: Unit, os: seq<Override>, id: string, offset: nat, i: nat): seq<MergeConflict>
    requires i <= |DIFFED_FIELDS|
  {
    if i == 0 then []
    else
      var before, f := ConflictsOf(base, theirs, os, id, offset, i - 1), DIFFED_FIELDS[i - 1];
      var o := OverrideFor(os, f);
      if Clashes(Get(base, f), Get(theirs, f), o)
      then before + [MergeConflict(offset + |before|, id, f, o.value.value, Get(theirs, f))]
      else before
  }

  function AppliedOf(os: seq<Override>, i: nat): seq<Override>
    requires i <= |DIFFED_FIELDS|
  {
    if i == 0 then []
    else
      var o := OverrideFor(os, DIFFED_FIELDS[i - 1]);
      AppliedOf(os, i - 1) + if o.Some? then [o.value] else []
  }

  /** The fields in which two records differ, the confidence up to the tolerance. */
  predicate Differs(a: Unit, b: Unit, f: Field) {
    !(f == ConfidenceField && ConfidenceEqual(Get(a, f), Get(b, f))) && Get(a, f) != Get(b, f)
  }

  function ChangedFrom(a: Unit, b: Unit, i: nat): seq<Field>
    requires i <= |DIFFED_FIELDS|
  {
    if i == 0 then [] else ChangedFrom(a, b, i - 1) + if Differs(a, b, DIFFED_FIELDS[i - 1]) then [DIFFED_FIELDS[i - 1]] else []
  }

  function ChangedFields(a: Unit, b: Unit): seq<Field> { ChangedFrom(a, b, |DIFFED_FIELDS|) }

  method FieldsChanged(a: Unit, b: Unit) returns (changed: seq<Field>)
    ensures changed == ChangedFields(a, b)
  {
    changed := [];
    for i := 0 to |DIFFED_FIELDS|
      invariant changed == ChangedFrom(a, b, i)
    {
      var f := DIFFED_FIELDS[i];
      if f == ConfidenceField && ConfidenceEqual(Get(a, f), Get(b, f)) { continue; }
      if Get(a, f) != Get(b, f) { changed := changed + [f]; }
    }
  }

  /** A field that has not had its turn still has the value of the base. */
  lemma {:induction false} NotYet(base: Unit, theirs: Unit, os: seq<Override>, i: nat, k: nat)
    requires i <= k < |DIFFED_FIELDS| && AllValid(os)
    ensures Get(PutFields(base, theirs, os, i), DIFFED_FIELDS[k]) == Get(base, DIFFED_FIELDS[k])
  {
    if i > 0 {
      NotYet(base, theirs, os, i - 1, k);
      FitsGet(base, DIFFED_FIELDS[i - 1]);
      FitsGet(theirs, DIFFED_FIELDS[i - 1]);
      PutOther(PutFields(base, theirs, os, i - 1), DIFFED_FIELDS[i - 1], DIFFED_FIELDS[k],
        MergedValue(Get(base, DIFFED_FIELDS[i - 1]), Get(theirs, DIFFED_FIELDS[i - 1]), DIFFED_FIELDS[i - 1], OverrideFor(os, DIFFED_FIELDS[i - 1])));
    }
  }

  lemma PutOther(u: Unit, f: Field, g: Field, v: Value)
    requires Fits(f, v)
    ensures f != g ==> Get(Put(u, f, v), g) == Get(u, g)
    ensures Get(Put(u, f, v), f) == Normal(v)
    ensures v == Get(u, f) ==> Put(u, f, v) == u
  {
  }

  lemma PutSame(base: Unit, theirs: Unit, os: seq<Override>, i: nat)
    requires i < |DIFFED_FIELDS| && AllValid(os)
    ensures Fits(DIFFED_FIELDS[i], Get(base, DIFFED_FIELDS[i]))
    ensures Put(PutFields(base, theirs, os, i), DIFFED_FIELDS[i], Get(base, DIFFED_FIELDS[i])) == PutFields(base, theirs, os, i)
    ensures Put(PutFields(base, theirs, os, i), DIFFED_FIELDS[i],
              MergedValue(Get(base, DIFFED_FIELDS[i]), Get(theirs, DIFFED_FIELDS[i]), DIFFED_FIELDS[i], OverrideFor(os, DIFFED_FIELDS[i])))
            == PutFields(base, theirs, os, i + 1)
  {
    FitsGet(base, DIFFED_FIELDS[i]);
    NotYet(base, theirs, os, i, i);
    PutOther(PutFields(base, theirs, os, i), DIFFED_FIELDS[i], DIFFED_FIELDS[i], Get(base, DIFFED_FIELDS[i]));
  }

  /** A clash shows in the list of changed fields, so its unit is always reported for review. */
  lemma {:induction false} ConflictIsChange(base: Unit, theirs: Unit, os: seq<Override>, id: string, offset: nat, i: nat)
    requires i <= |DIFFED_FIELDS| && ConflictsOf(base, theirs, os, id, offset, i) != []
    ensures exists k | 0 <= k < |os| :: os[k].field in ChangedFrom(base, theirs, i)
  {
    var f := DIFFED_FIELDS[i - 1];
    var o := OverrideFor(os, f);
    if Clashes(Get(base, f), Get(theirs, f), o) {
      var k :| 0 <= k < |os| && os[k] == o.value;
      assert Differs(base, theirs, f);
      assert os[k].field in ChangedFrom(base, theirs, i);
    } else {
      ConflictIsChange(base, theirs, os, id, offset, i - 1);
      var k :| 0 <= k < |os| && os[k].field in ChangedFrom(base, theirs, i - 1);
      assert os[k].field in ChangedFrom(base, theirs, i);
    }
  }

  /** Merge one unit field by field, by the branches of the program. */
  method MergeUnit(base: Unit, theirs: Unit, os: seq<Override>, id: string, offset: nat)
    returns (merged: Unit, applied: seq<Override>, conflicts: seq<MergeConflict>, unresolvable: bool)
    requires AllValid(os)
    ensures merged == MergedUnit(base, theirs, os)
    ensures applied == AppliedOf(os, |DIFFED_FIELDS|)
    ensures conflicts == ConflictsOf(base, theirs, os, id, offset, |DIFFED_FIELDS|)
    ensures unresolvable <==> conflicts != []
  {
    merged, applied, conflicts := base, [], [];
    for i := 0 to |DIFFED_FIELDS|
      invariant merged == PutFields(base, theirs, os, i) && applied == AppliedOf(os, i)
      invariant conflicts == ConflictsOf(base, theirs, os, id, offset, i)
    {
      var f := DIFFED_FIELDS[i];
      var baseVal, newVal, override := Get(base, f), Get(theirs, f), OverrideFor(os, f);
      FitsGet(base, f);
      FitsGet(theirs, f);
      PutSame(base, theirs, os, i);
      hide PutFields, Get, OverrideFor, Put, ValuesEqual, Fits;
      if override.None? {
        if !(f == ConfidenceField && ConfidenceEqual(baseVal, newVal)) {
          if baseVal != newVal { merged := Put(merged, f, newVal); }
        }
      } else {
        var ours := override.value.value;
        assert Fits(f, ours) by { ValidFits(override.value); }
        applied := applied + [override.value];
        if ValuesEqual(baseVal, ours) {
          if baseVal != newVal { merged := Put(merged, f, newVal); }
        } else {
          merged := Put(merged, f, ours);
          if !ValuesEqual(ours, newVal) && !ValuesEqual(baseVal, newVal) {
            conflicts := conflicts + [MergeConflict(offset + |conflicts|, id, f, ours, newVal)];
          }
        }
      }
    }
    var changed := FieldsChanged(base, theirs);
    var onChanged := exists k | 0 <= k < |os| :: os[k].field in changed;
    unresolvable := changed != [] && onChanged && conflicts != [];
    if conflicts != [] { ConflictIsChange(base, theirs, os, id, offset, |DIFFED_FIELDS|); }
  }

  lemma ValidFits(o: Override)
    requires Valid(o)
    ensures Fits(o.field, o.value)
  {
  }

  // ---- the laws for one unit ----

  function Place(f: Field): (k: nat)
    ensures k < |DIFFED_FIELDS| && DIFFED_FIELDS[k] == f
  {
    match f
    case KindField => 0
    case ContentField => 1
    case ConditionsField => 2
    case ExceptionsField => 3
    case ConfidenceField => 4
    case StatusField => 5
    case RefsField => 6
  }

  lemma {:induction false} FieldDone(base: Unit, theirs: Unit, os: seq<Override>, i: nat, k: nat)
    requires k < i <= |DIFFED_FIELDS| && AllValid(os)
    ensures var f := DIFFED_FIELDS[k];
            Get(PutFields(base, theirs, os, i), f) == Normal(MergedValue(Get(base, f), Get(theirs, f), f, OverrideFor(os, f)))
  {
    var g := DIFFED_FIELDS[i - 1];
    FitsGet(base, g);
    FitsGet(theirs, g);
    var u, v := PutFields(base, theirs, os, i - 1), MergedValue(Get(base, g), Get(theirs, g), g, OverrideFor(os, g));
    PutOther(u, g, DIFFED_FIELDS[k], v);
    if k < i - 1 {
      FieldDone(base, theirs, os, i - 1, k);
      assert DIFFED_FIELDS[k] != g by { Distinct7(k, i - 1); }
    }
  }

  lemma Distinct7(j: nat, k: nat)
    requires j < k < |DIFFED_FIELDS|
    ensures DIFFED_FIELDS[j] != DIFFED_FIELDS[k]
  {
  }

  /** Field by field: without an override the generator's value is taken (a confidence within the tolerance
      stays), with one the human's wins wherever it departs from the base. Identity, version and
      evidence stay those of the base. */
  lemma FieldLaw(base: Unit, theirs: Unit, os: seq<Override>, f: Field)
    requires AllValid(os)
    ensures var o := OverrideFor(os, f);
            var v := Get(MergedUnit(base, theirs, os), f);
            && (o.None? ==> v == Get(theirs, f) || (f == ConfidenceField && v == Get(base, f) && ConfidenceEqual(v, Get(theirs, f))))
            && (o.Some? && ValuesEqual(Get(base, f), o.value.value) ==> v == Get(theirs, f))
            && (o.Some? && !ValuesEqual(Get(base, f), o.value.value) ==> v == Normal(o.value.value))
            && (Clashes(Get(base, f), Get(theirs, f), o) ==> v == Normal(o.value.value))
    ensures var m := MergedUnit(base, theirs, os);
            m.unitId == base.unitId && m.recordVersion == base.recordVersion && m.supersedes == base.supersedes
            && m.evidenceLevel == base.evidenceLevel && m.evidenceNote == base.evidenceNote
  {
    FieldDone(base, theirs, os, |DIFFED_FIELDS|, Place(f));
    assert Normal(Get(theirs, f)) == Get(theirs, f) && Normal(Get(base, f)) == Get(base, f);
  }

  ghost predicate Names(cs: seq<MergeConflict>, f: Field) { exists k | 0 <= k < |cs| :: cs[k].field == f }

  lemma NamesSnoc(cs: seq<MergeConflict>, c: MergeConflict)
    ensures forall f :: Names(cs + [c], f) <==> Names(cs, f) || c.field == f
    ensures forall k | 0 <= k < |cs| :: Names(cs, cs[k].field)
  {
    var all := cs + [c];
    assert all[|cs|] == c && forall k | 0 <= k < |cs| :: all[k] == cs[k];
    forall f ensures Names(all, f) <==> Names(cs, f) || c.field == f {
      if Names(cs, f) {
        var k :| 0 <= k < |cs| && cs[k].field == f;
        assert all[k].field == f;
      }
    }
  }

  /** The conflict tells the value of the override and the generator's. */
  ghost predicate Tells(c: MergeConflict, theirs: Unit, os: seq<Override>) {
    && c.generator == Get(theirs, c.field)
    && exists o | o in os :: o.field == c.field && c.human == o.value
  }

  /** A conflict is recorded exactly for the fields that clash, each once, with the two values. */
  lemma {:induction false} ConflictLaw(base: Unit, theirs: Unit, os: seq<Override>, id: string, offset: nat, i: nat)
    requires i <= |DIFFED_FIELDS|
    ensures var cs := ConflictsOf(base, theirs, os, id, offset, i);
            && (forall k | 0 <= k < |cs| :: cs[k].number == offset + k && cs[k].unitId == id)
            && (forall f :: Place(f) < i && Clashes(Get(base, f), Get(theirs, f), OverrideFor(os, f)) <==> Names(cs, f))
            && (forall j, k | 0 <= j < k < |cs| :: cs[j].field != cs[k].field)
            && (forall k | 0 <= k < |cs| :: Tells(cs[k], theirs, os))
  {
    if i > 0 {
      ConflictLaw(base, theirs, os, id, offset, i - 1);
      var f, before, cs := DIFFED_FIELDS[i - 1], ConflictsOf(base, theirs, os, id, offset, i - 1), ConflictsOf(base, theirs, os, id, offset, i);
      hide Clashes, Get, OverrideFor;
      assert Place(f) == i - 1 && forall g :: Place(g) < i <==> Place(g) < i - 1 || g == f;
      if Clashes(Get(base, f), Get(theirs, f), OverrideFor(os, f)) {
        var c := cs[|before|];
        assert cs == before + [c] && c.field == f;
        var o := OverrideFor(os, f);
        assert o.value in os && o.value.field == f && c.human == o.value.value by { assert Clashes(Get(base, f), Get(theirs, f), o); }
        assert Tells(c, theirs, os);
        NamesSnoc(before, c);
      }
    }
  }

  /** The fields listed as changed are those that differ, a confidence by at least the tolerance. */
  lemma {:induction false} ChangedIs(a: Unit, b: Unit, f: Field)
    ensures f in ChangedFields(a, b) <==>
              if f != ConfidenceField then Get(a, f) != Get(b, f)
              else a.confidence.Some? != b.confidence.Some? || (a.confidence.Some? && !(-0.000000001 < a.confidence.value - b.confidence.value < 0.000000001))
  {
    ChangedTo(a, b, |DIFFED_FIELDS|, f);
  }

  lemma {:induction false} ChangedTo(a: Unit, b: Unit, i: nat, f: Field)
    requires i <= |DIFFED_FIELDS|
    ensures f in ChangedFrom(a, b, i) <==> Place(f) < i && Differs(a, b, f)
  {
    if i > 0 {
      ChangedTo(a, b, i - 1, f);
      hide Differs;
      assert Place(DIFFED_FIELDS[i - 1]) == i - 1;
    }
  }

  ghost predicate OfOneUnit(os: seq<Override>) { forall i, j | 0 <= i < j < |os| :: os[i].field != os[j].field }

  lemma {:induction false} OverrideFound(os: seq<Override>, o: Override)
    requires OfOneUnit(os) && o in os
    ensures OverrideFor(os, o.field) == Some(o)
  {
    var init, last := os[..|os| - 1], os[|os| - 1];
    if last.field != o.field { OverrideFound(init, o); }
  }

  lemma {:induction false} CountOnce<T>(s: seq<T>, x: T)
    requires forall i, j | 0 <= i < j < |s| :: s[i] != s[j]
    ensures multiset(s)[x] == if x in s then 1 else 0
  {
    if s != [] {
      assert s == s[..|s| - 1] + [s[|s| - 1]];
      CountOnce(s[..|s| - 1], x);
    }
  }

  lemma {:induction false} AppliedIs(os: seq<Override>, i: nat)
    requires i <= |DIFFED_FIELDS|
    ensures forall o :: o in AppliedOf(os, i) <==> Place(o.field) < i && OverrideFor(os, o.field) == Some(o)
    ensures forall j, k | 0 <= j < k < |AppliedOf(os, i)| :: AppliedOf(os, i)[j].field != AppliedOf(os, i)[k].field
  {
    if i > 0 {
      AppliedIs(os, i - 1);
      var before, f := AppliedOf(os, i - 1), DIFFED_FIELDS[i - 1];
      assert Place(f) == i - 1;
      forall j | 0 <= j < |before| ensures Place(before[j].field) < i - 1 {
        assert before[j] in before;
      }
    }
  }

  /** Every override of the unit is applied, exactly once. */
  lemma AppliedOnce(os: seq<Override>)
    requires OfOneUnit(os)
    ensures multiset(AppliedOf(os, |DIFFED_FIELDS|)) == multiset(os)
  {
    var applied := AppliedOf(os, |DIFFED_FIELDS|);
    AppliedIs(os, |DIFFED_FIELDS|);
    forall o ensures multiset(applied)[o] == multiset(os)[o] {
      CountOnce(applied, o);
      CountOnce(os, o);
      if o in os { OverrideFound(os, o); }
    }
  }
}
