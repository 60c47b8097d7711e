/** Version precedence and range constraints of extensions (src/book2skill/extensions/version.py). */
module Versions {
  import opened Knowledge

  datatype Part = Num(n: nat) | Word(w: string)

  /** Build metadata plays no part in any comparison. A release has no pre-release parts. */
  datatype Version = Version(major: nat, minor: nat, patch: nat, pre: Option<seq<Part>>)

  datatype Op = Eq | Gt | Ge | Lt | Le | Compatible

  /** One parsed constraint; of a wildcard only its leading numbers are left. */
  datatype Constraint = Compare(op: Op, target: Version) | Wild(numbers: seq<nat>)

  // ---- compare, as the program does it ----

  function CompareNat(a: nat, b: nat): int { if a < b then -1 else if a == b then 0 else 1 }

  function CompareString(a: string, b: string): int {
    if a == [] then if b == [] then 0 else -1
    else if b == [] then 1
    else if a[0] != b[0] then if a[0] < b[0] then -1 else 1
    else CompareString(a[1..], b[1..])
  }

  /** Python's tuple order. None is the TypeError of comparing a number with a word. */
  function CompareParts(a: seq<Part>, b: seq<Part>): Option<int> {
    if a == [] then Some(if b == [] then 0 else -1)
    else if b == [] then Some(1)
    else if a[0] == b[0] then CompareParts(a[1..], b[1..])
    else
      match (a[0], b[0])
      case (Num(m), Num(n)) => Some(CompareNat(m, n))
      case (Word(v), Word(w)) => Some(CompareString(v, w))
      case _ => None
  }

  function CompareVersions(a: Version, b: Version): Option<int> {
    if a.major != b.major then Some(CompareNat(a.major, b.major))
    else if a.minor != b.minor then Some(CompareNat(a.minor, b.minor))
    else if a.patch != b.patch then Some(CompareNat(a.patch, b.patch))
    else if a.pre.None? || b.pre.None? then Some(if a.pre == b.pre then 0 else if a.pre.None? then 1 else -1)
    else CompareParts(a.pre.value, b.pre.value)
  }

  /** The comment in the source lets a number precede a word; the comparison raises instead. */
  lemma NumberAgainstWord()
    ensures CompareVersions(Version(1, 0, 0, Some([Num(1)])), Version(1, 0, 0, Some([Word("rc")]))) == None
  {
  }

  // ---- precedence, section 11 of Semantic Versioning 2.0.0 ----

  /** Numbers numerically, words in ASCII order, and a number always below a word. */
  ghost predicate PartBelow(a: Part, b: Part) {
    match (a, b)
    case (Num(m), Num(n)) => m < n
    case (Word(v), Word(w)) => StringBelow(v, w)
    case (Num(_), Word(_)) => true
    case (Word(_), Num(_)) => false
  }

  ghost predicate StringBelow(a: string, b: string) {
    exists k: nat ::
      && k <= |a| && k < |b| && a[..k] == b[..k] && (k == |a| || a[k] < b[k])
  }

  /** Decided by the first part that differs; a longer list beats its own prefix. */
  ghost predicate PartsBelow(a: seq<Part>, b: seq<Part>) {
    exists k: nat ::
      && k <= |a| && k < |b| && a[..k] == b[..k] && (k == |a| || PartBelow(a[k], b[k]))
  }

  ghost predicate Below(a: Version, b: Version) {
    || a.major < b.major
    || (a.major == b.major && a.minor < b.minor)
    || (a.major == b.major && a.minor == b.minor && a.patch < b.patch)
    || (&& a.major == b.major && a.minor == b.minor && a.patch == b.patch && a.pre.Some?
        && (b.pre.Some? ==> PartsBelow(a.pre.value, b.pre.value)))
  }

  // ---- where compare answers, it answers by precedence ----

  lemma {:induction false} StringsMatch(a: string, b: string)
    ensures CompareString(a, b) == 0 <==> a == b
    ensures CompareString(a, b) == -1 <==> StringBelow(a, b)
    ensures CompareString(b, a) == -CompareString(a, b)
    ensures CompareString(a, b) in {-1, 0, 1}
  {
    if a == [] || b == [] {
      if b != [] { assert a[..0] == b[..0]; }
    } else {
      StringsMatch(a[1..], b[1..]);
      if a[0] != b[0] {
        if a[0] < b[0] { assert a[..0] == b[..0]; }
      } else {
        assert a == [a[0]] + a[1..] && b == [b[0]] + b[1..];
        if k: nat :| k <= |a[1..]| && k < |b[1..]| && a[1..][..k] == b[1..][..k] && (k == |a[1..]| || a[1..][k] < b[1..][k]) {
          assert a[..k + 1] == [a[0]] + a[1..][..k] && b[..k + 1] == [b[0]] + b[1..][..k];
          assert StringBelow(a, b);
        }
        if k: nat :| k <= |a| && k < |b| && a[..k] == b[..k] && (k == |a| || a[k] < b[k]) {
          assert k > 0;
          assert a[1..][..k - 1] == a[..k][1..] && b[1..][..k - 1] == b[..k][1..];
          assert StringBelow(a[1..], b[1..]);
        }
      }
    }
  }

  /** Whether a comparison of these lists would set a number against a word. */
  ghost predicate Clash(a: seq<Part>, b: seq<Part>) {
    exists k: nat :: k < |a| && k < |b| && a[..k] == b[..k] && a[k].Num? != b[k].Num?
  }

  lemma PartsTail(a: seq<Part>, b: seq<Part>)
    requires a != [] && b != [] && a[0] == b[0]
    ensures PartsBelow(a, b) <==> PartsBelow(a[1..], b[1..])
    ensures Clash(a, b) <==> Clash(a[1..], b[1..])
  {
    BelowTail(a, b);
    ClashTail(a, b);
    hide PartsBelow, Clash;
  }

  lemma PrefixTail(a: seq<Part>, b: seq<Part>)
    requires a != [] && b != [] && a[0] == b[0]
    ensures forall k: nat | k <= |a[1..]| && k <= |b[1..]| :: a[..k + 1] == b[..k + 1] <==> a[1..][..k] == b[1..][..k]
  {
    assert a == [a[0]] + a[1..] && b == [b[0]] + b[1..];
    forall k: nat | k <= |a[1..]| && k <= |b[1..]|
      ensures a[..k + 1] == b[..k + 1] <==> a[1..][..k] == b[1..][..k]
    {
      assert a[..k + 1] == [a[0]] + a[1..][..k] && b[..k + 1] == [b[0]] + b[1..][..k];
      assert a[1..][..k] == a[..k + 1][1..] && b[1..][..k] == b[..k + 1][1..];
    }
  }

  lemma BelowTail(a: seq<Part>, b: seq<Part>)
    requires a != [] && b != [] && a[0] == b[0]
    ensures PartsBelow(a, b) <==> PartsBelow(a[1..], b[1..])
  {
    PrefixTail(a, b);
    if k: nat :| k <= |a[1..]| && k < |b[1..]| && a[1..][..k] == b[1..][..k] && (k == |a[1..]| || PartBelow(a[1..][k], b[1..][k])) {
      assert a[..k + 1] == b[..k + 1];
    }
    if k: nat :| k <= |a| && k < |b| && a[..k] == b[..k] && (k == |a| || PartBelow(a[k], b[k])) {
      assert k > 0 && a[1..][..k - 1] == b[1..][..k - 1];
    }
  }

  lemma ClashTail(a: seq<Part>, b: seq<Part>)
    requires a != [] && b != [] && a[0] == b[0]
    ensures Clash(a, b) <==> Clash(a[1..], b[1..])
  {
    PrefixTail(a, b);
    if k: nat :| k < |a[1..]| && k < |b[1..]| && a[1..][..k] == b[1..][..k] && a[1..][k].Num? != b[1..][k].Num? {
      assert a[..k + 1] == b[..k + 1];
    }
    if k: nat :| k < |a| && k < |b| && a[..k] == b[..k] && a[k].Num? != b[k].Num? {
      assert k > 0 && a[1..][..k - 1] == b[1..][..k - 1];
    }
  }

  lemma {:induction false} PartsMatch(a: seq<Part>, b: seq<Part>)
    ensures CompareParts(a, b).None? <==> Clash(a, b)
    ensures CompareParts(a, b).Some? ==>
              && (CompareParts(a, b).value == 0 <==> a == b)
              && (CompareParts(a, b).value == -1 <==> PartsBelow(a, b))
              && (CompareParts(a, b).value == 1 <==> PartsBelow(b, a))
  {
    if a == [] || b == [] {
      if a != b { assert a[..0] == b[..0]; }
    } else if a[0] == b[0] {
      PartsMatch(a[1..], b[1..]);
      PartsTail(a, b);
      PartsTail(b, a);
      assert a == [a[0]] + a[1..] && b == [b[0]] + b[1..];
    } else {
      assert a[..0] == b[..0];
      FirstDiffers(a, b);
      FirstDiffers(b, a);
      if a[0].Word? && b[0].Word? { StringsMatch(a[0].w, b[0].w); StringsMatch(b[0].w, a[0].w); }
    }
  }

  lemma FirstDiffers(a: seq<Part>, b: seq<Part>)
    requires a != [] && b != [] && a[0] != b[0]
    ensures PartsBelow(a, b) <==> PartBelow(a[0], b[0])
    ensures Clash(a, b) <==> a[0].Num? != b[0].Num?
  {
    assert a[..0] == b[..0];
    forall k: nat | 0 < k <= |a| && k <= |b| ensures a[..k] != b[..k] {
      assert a[..k][0] != b[..k][0];
    }
  }

  predicate SameCore(a: Version, b: Version) { a.major == b.major && a.minor == b.minor && a.patch == b.patch }

  /** compare agrees with precedence wherever it answers, and it fails to answer exactly when two
      pre-releases of one version first differ in a number against a word. The comment beside it
      promises that a number ranks below a word there. */
  lemma CompareIsPrecedence(a: Version, b: Version)
    ensures CompareVersions(a, b).None? <==> SameCore(a, b) && a.pre.Some? && b.pre.Some? && Clash(a.pre.value, b.pre.value)
    ensures CompareVersions(a, b).Some? ==>
              && (CompareVersions(a, b).value == -1 <==> Below(a, b))
              && (CompareVersions(a, b).value == 0 <==> a == b)
              && (CompareVersions(a, b).value == 1 <==> Below(b, a))
              && CompareVersions(a, b).value in {-1, 0, 1}
  {
    if SameCore(a, b) && a.pre.Some? && b.pre.Some? {
      PartsMatch(a.pre.value, b.pre.value);
      PartsBounded(a.pre.value, b.pre.value);
    }
  }

  lemma {:induction false} PartsBounded(a: seq<Part>, b: seq<Part>)
    ensures CompareParts(a, b).Some? ==> CompareParts(a, b).value in {-1, 0, 1}
  {
    if a != [] && b != [] {
      if a[0] == b[0] { PartsBounded(a[1..], b[1..]); }
      else if a[0].Word? && b[0].Word? { StringsMatch(a[0].w, b[0].w); }
    }
  }

  // ---- precedence is a strict total order ----

  lemma StringTransitive(a: string, b: string, c: string)
    requires StringBelow(a, b) && StringBelow(b, c)
    ensures StringBelow(a, c)
  {
    var i: nat :| i <= |a| && i < |b| && a[..i] == b[..i] && (i == |a| || a[i] < b[i]);
    var j: nat :| j <= |b| && j < |c| && b[..j] == c[..j] && (j == |b| || b[j] < c[j]);
    var k := if i < j then i else j;
    assert a[..k] == a[..i][..k] == b[..i][..k] == b[..k] == b[..j][..k] == c[..j][..k] == c[..k];
    if k < j { assert b[k] == b[..j][k] == c[..j][k]; }
    if k < i { assert a[k] == a[..i][k] == b[..i][k]; }
  }

  lemma StringTotal(a: string, b: string)
    ensures a == b || StringBelow(a, b) || StringBelow(b, a)
    ensures !StringBelow(a, a) && !(StringBelow(a, b) && StringBelow(b, a))
  {
    StringsMatch(a, b);
    StringsMatch(b, a);
    StringsMatch(a, a);
  }

  lemma PartTransitive(a: Part, b: Part, c: Part)
    requires PartBelow(a, b) && PartBelow(b, c)
    ensures PartBelow(a, c)
  {
    if a.Word? && b.Word? && c.Word? { StringTransitive(a.w, b.w, c.w); }
  }

  lemma PartsTransitive(a: seq<Part>, b: seq<Part>, c: seq<Part>)
    requires PartsBelow(a, b) && PartsBelow(b, c)
    ensures PartsBelow(a, c)
  {
    var i: nat :| i <= |a| && i < |b| && a[..i] == b[..i] && (i == |a| || PartBelow(a[i], b[i]));
    var j: nat :| j <= |b| && j < |c| && b[..j] == c[..j] && (j == |b| || PartBelow(b[j], c[j]));
    var k := if i < j then i else j;
    assert a[..k] == a[..i][..k] == b[..i][..k] == b[..k] == b[..j][..k] == c[..j][..k] == c[..k];
    if k < j { assert b[k] == b[..j][k] == c[..j][k]; }
    if k < i { assert a[k] == a[..i][k] == b[..i][k]; }
    if i == j && i < |a| && j < |b| { PartTransitive(a[i], b[i], c[i]); }
  }

  lemma PartTotal(a: Part, b: Part)
    ensures a == b || PartBelow(a, b) || PartBelow(b, a)
    ensures !PartBelow(a, a)
  {
    if a.Word? && b.Word? { StringTotal(a.w, b.w); }
    if a.Word? { StringTotal(a.w, a.w); }
  }

  lemma {:induction false} PartsTotal(a: seq<Part>, b: seq<Part>)
    ensures a == b || PartsBelow(a, b) || PartsBelow(b, a)
  {
    if a == [] || b == [] {
      if a != b { assert a[..0] == b[..0]; }
    } else if a[0] == b[0] {
      PartsTotal(a[1..], b[1..]);
      PartsTail(a, b);
      PartsTail(b, a);
      assert a == [a[0]] + a[1..] && b == [b[0]] + b[1..];
    } else {
      PartTotal(a[0], b[0]);
      FirstDiffers(a, b);
      FirstDiffers(b, a);
    }
  }

  lemma PartsIrreflexive(a: seq<Part>)
    ensures !PartsBelow(a, a)
  {
    forall k: nat | k < |a| ensures !PartBelow(a[k], a[k]) { PartTotal(a[k], a[k]); }
  }

  /** Precedence orders all versions totally; it never holds both ways. */
  lemma PrecedenceIsTotalOrder(a: Version, b: Version, c: Version)
    ensures a == b || Below(a, b) || Below(b, a)
    ensures !Below(a, a) && !(Below(a, b) && Below(b, a))
    ensures Below(a, b) && Below(b, c) ==> Below(a, c)
  {
    if a.pre.Some? { PartsIrreflexive(a.pre.value); }
    if a.pre.Some? && b.pre.Some? {
      PartsTotal(a.pre.value, b.pre.value);
      if PartsBelow(a.pre.value, b.pre.value) && PartsBelow(b.pre.value, a.pre.value) {
        PartsTransitive(a.pre.value, b.pre.value, a.pre.value);
      }
      if c.pre.Some? && PartsBelow(a.pre.value, b.pre.value) && PartsBelow(b.pre.value, c.pre.value) {
        PartsTransitive(a.pre.value, b.pre.value, c.pre.value);
      }
    }
  }

  // ---- ranges ----

  function Satisfies(v: Version, c: Constraint): Option<bool> {
    match c
    case Wild(numbers) =>
      if |numbers| >= 1 && v.major != numbers[0] then Some(false)
      else Some(|numbers| < 2 || v.minor == numbers[1])
    case Compare(op, target) =>
      var order := CompareVersions(v, target);
      if order.None? then None
      else
        match op
        case Eq => Some(order.value == 0)
        case Gt => Some(order.value == 1)
        case Ge => Some(order.value >= 0)
        case Lt => Some(order.value == -1)
        case Le => Some(order.value <= 0)
        case Compatible =>
          Some(order.value >= 0 && (v.major < target.major || (v.major == target.major && v.minor < target.minor + 1)))
  }

  /** Every part of a comma-separated range in turn; the first that fails decides. */
  function SatisfiesRange(v: Version, range: seq<Constraint>): Option<bool> {
    if range == [] then Some(true)
    else
      var first := Satisfies(v, range[0]);
      if first == Some(true) then SatisfiesRange(v, range[1..]) else first
  }

  /** What each operator means: PEP 440's compatible release is bounded above by the next minor version. */
  lemma ConstraintMeaning(v: Version, c: Constraint)
    requires Satisfies(v, c).Some?
    ensures Satisfies(v, c).value <==>
              match c
              case Wild(numbers) => (|numbers| >= 1 ==> v.major == numbers[0]) && (|numbers| >= 2 ==> v.minor == numbers[1])
              case Compare(Eq, t) => v == t
              case Compare(Gt, t) => Below(t, v)
              case Compare(Ge, t) => v == t || Below(t, v)
              case Compare(Lt, t) => Below(v, t)
              case Compare(Le, t) => v == t || Below(v, t)
              case Compare(Compatible, t) => (v == t || Below(t, v)) && v.major == t.major && v.minor == t.minor
  {
    if c.Compare? { CompareIsPrecedence(v, c.target); }
  }

  lemma ConstraintIsInterval(a: Version, b: Version, c: Version, k: Constraint)
    requires Satisfies(a, k) == Some(true) && Satisfies(c, k) == Some(true)
    requires (a == b || Below(a, b)) && (b == c || Below(b, c))
    ensures Satisfies(b, k) != Some(false)
  {
    hide Satisfies, Below;
    if Satisfies(b, k).Some? {
      ConstraintMeaning(a, k);
      ConstraintMeaning(b, k);
      ConstraintMeaning(c, k);
      if a.major == c.major { CoreBetween(a, b, c); }
      if k.Compare? {
        PrecedenceIsTotalOrder(k.target, a, b);
        PrecedenceIsTotalOrder(b, c, k.target);
        PrecedenceIsTotalOrder(b, k.target, b);
      }
    }
  }

  lemma CoreBetween(a: Version, b: Version, c: Version)
    requires (a == b || Below(a, b)) && (b == c || Below(b, c)) && a.major == c.major
    ensures b.major == a.major && (a.minor == c.minor ==> b.minor == a.minor)
  {
  }

  /** Ranges are intervals: a range that accepts a and c accepts every version between them, unless
      comparing that version with one of its bounds raises. */
  lemma {:induction false} RangeIsInterval(a: Version, b: Version, c: Version, range: seq<Constraint>)
    requires SatisfiesRange(a, range) == Some(true) && SatisfiesRange(c, range) == Some(true)
    requires (a == b || Below(a, b)) && (b == c || Below(b, c))
    ensures SatisfiesRange(b, range) != Some(false)
    ensures (forall i | 0 <= i < |range| :: Satisfies(b, range[i]).Some?) ==> SatisfiesRange(b, range) == Some(true)
  {
    if range != [] {
      ConstraintIsInterval(a, b, c, range[0]);
      RangeIsInterval(a, b, c, range[1..]);
    }
  }
}
