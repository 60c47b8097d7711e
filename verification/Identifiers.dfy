/** Identifiers that the Core derives (src/book2skill/domain/identifiers.py), and why no two of them collide. */
module Identifiers {

  datatype LocatorKind = Page | Chapter | Paragraph | Table | Sheet | Unknown

  function Prefix(k: LocatorKind): string {
    match k
    case Page => "pg"
    case Chapter => "c"
    case Paragraph => "p"
    case Table => "t"
    case Sheet => "s"
    case Unknown => "b"
  }

  function Digit(n: nat): char
    requires n < 10
  {
    "0123456789"[n]
  }

  function Decimal(n: nat): string { if n < 10 then [Digit(n)] else Decimal(n / 10) + [Digit(n % 10)] }

  predicate IsDigit(c: char) { '0' <= c <= '9' }

  /** Ordinals start at 1; the program refuses anything below. */
  function BlockId(source: string, k: LocatorKind, ordinal: nat): string { source + "-" + Prefix(k) + Decimal(ordinal) }

  function UnitId(block: string, ordinal: nat): string { "cu-" + block + "-" + Decimal(ordinal) }

  lemma {:induction false} DecimalDigits(n: nat)
    ensures Decimal(n) != [] && forall i | 0 <= i < |Decimal(n)| :: IsDigit(Decimal(n)[i])
  {
    if n >= 10 { DecimalDigits(n / 10); }
  }

  lemma OneDigit(n: nat)
    ensures |Decimal(n)| == 1 <==> n < 10
  {
    if n >= 10 { DecimalDigits(n / 10); }
  }

  lemma {:induction false} DecimalInjective(m: nat, n: nat)
    requires Decimal(m) == Decimal(n)
    ensures m == n
  {
    var a, b := Decimal(m), Decimal(n);
    if m < 10 || n < 10 {
      OneDigit(m);
      OneDigit(n);
      assert a[0] == b[0];
    } else {
      assert a[..|a| - 1] == Decimal(m / 10) && b[..|b| - 1] == Decimal(n / 10);
      assert a[|a| - 1] == b[|b| - 1];
      DecimalInjective(m / 10, n / 10);
    }
  }

  /** A separator that the last parts do not contain splits a string in one way only. */
  lemma SplitUnique(a: string, b: string, x: string, y: string)
    requires a + "-" + x == b + "-" + y && '-' !in x && '-' !in y
    ensures a == b && x == y
  {
    var s := a + "-" + x;
    assert s[|a|] == '-' && s[|b|] == '-';
    assert forall k | |b| < k < |s| :: s[k] == y[k - |b| - 1];
    assert forall k | |a| < k < |s| :: s[k] == x[k - |a| - 1];
    assert s[..|a|] == a && s[..|b|] == b && s[|a| + 1..] == x && s[|b| + 1..] == y;
  }

  lemma NoDash(n: nat)
    ensures '-' !in Decimal(n)
  {
    DecimalDigits(n);
  }

  /** A candidate's id determines its block and its number. */
  lemma UnitIdInjective(a: string, b: string, m: nat, n: nat)
    requires UnitId(a, m) == UnitId(b, n)
    ensures a == b && m == n
  {
    NoDash(m);
    NoDash(n);
    assert UnitId(a, m) == ("cu-" + a) + "-" + Decimal(m) && UnitId(b, n) == ("cu-" + b) + "-" + Decimal(n);
    SplitUnique("cu-" + a, "cu-" + b, Decimal(m), Decimal(n));
    assert ("cu-" + a)[3..] == a && ("cu-" + b)[3..] == b;
    DecimalInjective(m, n);
  }

  lemma {:induction false} DigitsUnique(p: string, q: string, x: string, y: string)
    requires p + x == q + y
    requires (forall i | 0 <= i < |p| :: !IsDigit(p[i])) && (forall i | 0 <= i < |q| :: !IsDigit(q[i]))
    requires x != [] && y != [] && (forall i | 0 <= i < |x| :: IsDigit(x[i])) && (forall i | 0 <= i < |y| :: IsDigit(y[i]))
    ensures p == q && x == y
  {
    var s := p + x;
    assert s[|p|] == x[0] && s[|q|] == y[0];
    assert forall k | 0 <= k < |p| :: s[k] == p[k];
    assert forall k | 0 <= k < |q| :: s[k] == q[k];
    assert s[..|p|] == p && s[..|q|] == q && s[|p|..] == x && s[|q|..] == y;
  }

  lemma PrefixInjective(j: LocatorKind, k: LocatorKind)
    requires Prefix(j) == Prefix(k)
    ensures j == k
  {
    assert Prefix(Page)[0] == 'p' && Prefix(Chapter)[0] == 'c' && Prefix(Table)[0] == 't' && Prefix(Sheet)[0] == 's';
    assert Prefix(Paragraph)[0] == 'p' && |Prefix(Page)| != |Prefix(Paragraph)| && Prefix(Unknown)[0] == 'b';
  }

  /** A block's id determines its source, the kind of its locator and its place. */
  lemma BlockIdInjective(s: string, t: string, j: LocatorKind, k: LocatorKind, m: nat, n: nat)
    requires BlockId(s, j, m) == BlockId(t, k, n)
    ensures s == t && j == k && m == n
  {
    var x, y := Prefix(j) + Decimal(m), Prefix(k) + Decimal(n);
    NoDash(m);
    NoDash(n);
    assert BlockId(s, j, m) == s + "-" + x && BlockId(t, k, n) == t + "-" + y;
    SplitUnique(s, t, x, y);
    DecimalDigits(m);
    DecimalDigits(n);
    DigitsUnique(Prefix(j), Prefix(k), Decimal(m), Decimal(n));
    PrefixInjective(j, k);
    DecimalInjective(m, n);
  }
}
