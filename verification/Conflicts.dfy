/** Conflict detection through a token inverted index, against the double loop it replaces
    (src/book2skill/domain/knowledge.py, lines 172-330). */
module Conflicts {
  import opened Knowledge

  // ---- text ----

  predicate IsAlnum(c: char) { 'a' <= c <= 'z' || '0' <= c <= '9' }

  function LowerChar(c: char): char { if 'A' <= c <= 'Z' then c - 'A' + 'a' else c }

  function Lower(s: string): string { seq(|s|, i requires 0 <= i < |s| => LowerChar(s[i])) }

  /** The maximal alphanumeric runs; the word is the run read so far. */
  function TokensFrom(s: string, word: string): set<string> {
    if s == [] then if word == [] then {} else {word}
    else if IsAlnum(s[0]) then TokensFrom(s[1..], word + [s[0]])
    else (if word == [] then {} else {word}) + TokensFrom(s[1..], [])
  }

  function Tokenize(text: string): set<string> { TokensFrom(Lower(text), []) }

  predicate StandsAt(text: string, i: nat, marker: string) { i + |marker| <= |text| && text[i..i + |marker|] == marker }

  predicate Contains(text: string, marker: string) {
    exists i | 0 <= i <= |text| :: StandsAt(text, i, marker)
  }

  const NEGATION_MARKERS: seq<string> := ["not", "never", "avoid", "do not", "don't", "must not"]

  predicate Negated(content: string) {
    exists k | 0 <= k < |NEGATION_MARKERS| :: Contains(content, NEGATION_MARKERS[k])
  }

  // ---- the pair test ----

  function Jaccard(a: set<string>, b: set<string>): real {
    if a == {} && b == {} then 0.0
    else
      assert a + b != {};
      |a * b| as real / |a + b| as real
  }

  predicate IsConflictPair(a: Unit, b: Unit) {
    var ta, tb := Tokenize(a.content), Tokenize(b.content);
    if {a.kind, b.kind} == {Principle, AntiPattern} then Jaccard(ta, tb) >= 0.34
    else if a.kind != Principle || b.kind != Principle then false
    else if ta == tb || ta * tb == {} then false
    else Negated(Lower(a.content)) || Negated(Lower(b.content))
  }

  // ---- what the test says ----

  /** A maximal run of letters and digits. */
  predicate IsRun(s: string, i: int, j: int) {
    && 0 <= i < j <= |s| && (forall k | i <= k < j :: IsAlnum(s[k]))
    && (i == 0 || !IsAlnum(s[i - 1])) && (j == |s| || !IsAlnum(s[j]))
  }

  ghost predicate RunFrom(s: string, w: nat, t: string) { exists i, j | w <= i :: IsRun(s, i, j) && s[i..j] == t }

  /** The tokens of a text are its maximal alphanumeric runs, in lower case. */
  lemma TokenIs(text: string, t: string)
    ensures t in Tokenize(text) <==> RunFrom(Lower(text), 0, t)
  {
    var s := Lower(text);
    TokenFrom(s, 0, 0, t);
    assert s[0..] == s && s[0..0] == [];
  }

  lemma {:induction false} TokenFrom(s: string, w: nat, k: nat, t: string)
    requires w <= k <= |s| && (forall m | w <= m < k :: IsAlnum(s[m])) && (w == 0 || !IsAlnum(s[w - 1]))
    ensures t in TokensFrom(s[k..], s[w..k]) <==> RunFrom(s, w, t)
    decreases |s| - k
  {
    hide IsAlnum;
    if k == |s| {
      LastRun(s, w, t);
    } else if IsAlnum(s[k]) {
      TokenFrom(s, w, k + 1, t);
      assert s[w..k] + [s[k]] == s[w..k + 1] && s[k..][1..] == s[k + 1..];
    } else {
      TokenFrom(s, k + 1, k + 1, t);
      assert s[k..][1..] == s[k + 1..] && s[k + 1..k + 1] == [];
      RunEnds(s, w, k, t);
    }
  }

  lemma LastRun(s: string, w: nat, t: string)
    requires w <= |s| && (forall m | w <= m < |s| :: IsAlnum(s[m])) && (w == 0 || !IsAlnum(s[w - 1]))
    ensures RunFrom(s, w, t) <==> w < |s| && t == s[w..]
  {
    hide IsAlnum;
    if i, j :| w <= i && IsRun(s, i, j) && s[i..j] == t { assert i == w && j == |s|; }
    if w < |s| && t == s[w..] { assert IsRun(s, w, |s|) && s[w..|s|] == t; }
  }

  /** At a character that is neither letter nor digit, the runs from w on are the word before it and the later ones. */
  lemma RunEnds(s: string, w: nat, k: nat, t: string)
    requires w <= k < |s| && (forall m | w <= m < k :: IsAlnum(s[m])) && (w == 0 || !IsAlnum(s[w - 1])) && !IsAlnum(s[k])
    ensures RunFrom(s, w, t) <==> (w < k && t == s[w..k]) || RunFrom(s, k + 1, t)
  {
    hide IsAlnum;
    if i, j :| w <= i && IsRun(s, i, j) && s[i..j] == t {
      if i <= k { assert i == w && j == k by { RunPlace(s, w, k, i, j); } }
    }
    if w < k && t == s[w..k] { assert IsRun(s, w, k); }
  }

  lemma RunPlace(s: string, w: nat, k: nat, i: int, j: int)
    requires w <= i <= k < |s| && (forall m | w <= m < k :: IsAlnum(s[m])) && !IsAlnum(s[k]) && IsRun(s, i, j)
    ensures i == w && j == k
  {
    hide IsAlnum;
  }

  /** A principle and an anti-pattern conflict when at least 34 percent of all their tokens are shared. Two
      principles conflict when they share a token but not all, and one of them has a negation in it. Nothing
      else conflicts, and the order of the two does not matter. */
  lemma ConflictPairIs(a: Unit, b: Unit)
    ensures var shared, all := Tokenize(a.content) * Tokenize(b.content), Tokenize(a.content) + Tokenize(b.content);
            && ((a.kind == Principle && b.kind == AntiPattern) || (a.kind == AntiPattern && b.kind == Principle) ==>
                  (IsConflictPair(a, b) <==> shared != {} && 100 * |shared| >= 34 * |all|))
            && (a.kind == Principle && b.kind == Principle ==>
                  (IsConflictPair(a, b) <==> shared != {} && shared != all && (HasNegation(a.content) || HasNegation(b.content))))
            && (a.kind !in {Principle, AntiPattern} || b.kind !in {Principle, AntiPattern} ==> !IsConflictPair(a, b))
            && (a.kind == AntiPattern && b.kind == AntiPattern ==> !IsConflictPair(a, b))
    ensures IsConflictPair(a, b) == IsConflictPair(b, a)
  {
    hide Tokenize, Lower, Contains, Jaccard, Negated;
    var ta, tb := Tokenize(a.content), Tokenize(b.content);
    JaccardIs(ta, tb);
    NegatedIs(a.content);
    NegatedIs(b.content);
    KindPairs(a.kind, b.kind);
    assert ta * tb == ta + tb <==> ta == tb by { SameWhenAllShared(ta, tb); }
    assert Jaccard(ta, tb) == Jaccard(tb, ta) by { JaccardSymmetric(ta, tb); }
    assert ta * tb == tb * ta;
  }

  lemma SameWhenAllShared(a: set<string>, b: set<string>)
    ensures a * b == a + b <==> a == b
  {
    if a * b == a + b {
      forall x ensures x in a <==> x in b { assert x in a * b <==> x in a + b; }
    }
  }

  lemma JaccardSymmetric(a: set<string>, b: set<string>)
    ensures Jaccard(a, b) == Jaccard(b, a)
  {
    assert a * b == b * a && a + b == b + a;
  }

  predicate HasNegation(content: string) {
    var s := Lower(content);
    || Contains(s, "not") || Contains(s, "never") || Contains(s, "avoid")
    || Contains(s, "do not") || Contains(s, "don't") || Contains(s, "must not")
  }

  lemma NegatedIs(content: string)
    ensures Negated(Lower(content)) <==> HasNegation(content)
  {
    hide Lower, Contains;
    var s, m := Lower(content), NEGATION_MARKERS;
    assert Contains(s, m[0]) || Contains(s, m[1]) || Contains(s, m[2]) || Contains(s, m[3]) || Contains(s, m[4]) || Contains(s, m[5]) <==> Negated(s);
  }

  lemma KindPairs(k: Kind, l: Kind)
    ensures {k, l} == {Principle, AntiPattern} <==> (k == Principle && l == AntiPattern) || (k == AntiPattern && l == Principle)
  {
    if {k, l} == {Principle, AntiPattern} {
      assert k in {Principle, AntiPattern} && l in {Principle, AntiPattern};
      assert Principle in {k, l} && AntiPattern in {k, l};
    }
  }

  lemma JaccardIs(a: set<string>, b: set<string>)
    ensures Jaccard(a, b) >= 0.34 <==> a * b != {} && 100 * |a * b| >= 34 * |a + b|
  {
    if a + b == {} {
      assert a == {} && b == {};
    } else {
      var n, d := |a * b|, |a + b|;
      assert d > 0;
      Quotient(n, d);
      assert a * b == {} <==> n == 0;
    }
  }

  lemma Quotient(n: nat, d: nat)
    requires d > 0
    ensures n as real / d as real >= 0.34 <==> 100 * n >= 34 * d
  {
    Scaled(n as real / d as real, d as real);
    assert n as real >= 0.34 * d as real <==> 100 * n >= 34 * d by { Hundredfold(n, d); }
  }

  lemma Scaled(q: real, d: real)
    requires d > 0.0
    ensures q >= 0.34 <==> q * d >= 0.34 * d
  {
    assert q * d - 0.34 * d == (q - 0.34) * d;
  }

  lemma Hundredfold(n: nat, d: nat)
    ensures n as real >= 0.34 * d as real <==> 100 * n >= 34 * d
  {
    assert 100.0 * n as real >= 34.0 * d as real <==> 100 * n >= 34 * d;
  }

  // ---- the double loop ----

  type Pair = (nat, nat)

  /** The conflicting pairs (i, j), (i, j + 1), ... of one row. */
  function Row(units: seq<Unit>, i: nat, j: nat): seq<Pair>
    requires i < |units| && j <= |units|
    decreases |units| - j
  {
    if j == |units| then [] else (if IsConflictPair(units[i], units[j]) then [(i, j)] else []) + Row(units, i, j + 1)
  }

  function Rows(units: seq<Unit>, i: nat): seq<Pair>
    requires i <= |units|
    decreases |units| - i
  {
    if i == |units| then [] else Row(units, i, i + 1) + Rows(units, i + 1)
  }

  datatype Conflict = Conflict(number: nat, first: string, second: string)

  function Numbered(units: seq<Unit>, pairs: seq<Pair>): seq<Conflict>
    requires forall k | 0 <= k < |pairs| :: pairs[k].0 < |units| && pairs[k].1 < |units|
  {
    seq(|pairs|, k requires 0 <= k < |pairs| => Conflict(k, units[pairs[k].0].unitId, units[pairs[k].1].unitId))
  }

  predicate Before(p: Pair, q: Pair) { p.0 < q.0 || (p.0 == q.0 && p.1 < q.1) }

  ghost predicate Ascending(ps: seq<Pair>) { forall k, l | 0 <= k < l < |ps| :: Before(ps[k], ps[l]) }

  ghost predicate Hit(units: seq<Unit>, p: Pair) { p.0 < p.1 < |units| && IsConflictPair(units[p.0], units[p.1]) }

  lemma {:induction false} RowIs(units: seq<Unit>, i: nat, j: nat)
    requires i < j <= |units|
    ensures Ascending(Row(units, i, j))
    ensures forall p :: p in Row(units, i, j) <==> p.0 == i && j <= p.1 && Hit(units, p)
    decreases |units| - j
  {
    hide IsConflictPair;
    if j < |units| {
      RowIs(units, i, j + 1);
      var rest := Row(units, i, j + 1);
      var head := if IsConflictPair(units[i], units[j]) then [(i, j)] else [];
      assert Row(units, i, j) == head + rest;
      forall k | 0 <= k < |rest| ensures Before((i, j), rest[k]) {
        assert rest[k] in rest;
      }
    }
  }

  /** The double loop lists exactly the conflicting pairs, in ascending order. */
  lemma {:induction false} RowsIs(units: seq<Unit>, i: nat)
    requires i <= |units|
    ensures Ascending(Rows(units, i))
    ensures forall p :: p in Rows(units, i) <==> i <= p.0 && Hit(units, p)
    decreases |units| - i
  {
    hide Rows, Row, IsConflictPair, Ascending;
    if i < |units| {
      RowsUnfold(units, i);
      RowIs(units, i, i + 1);
      RowsIs(units, i + 1);
      var a, b := Row(units, i, i + 1), Rows(units, i + 1);
      AscendingConcat(a, b);
      forall p: Pair ensures p in a + b <==> i <= p.0 && Hit(units, p) {
        assert p in a + b <==> p in a || p in b;
      }
    } else {
      RowsEnd(units);
    }
  }

  lemma RowsEnd(units: seq<Unit>)
    ensures Rows(units, |units|) == [] && Ascending([])
  {
  }

  lemma RowsUnfold(units: seq<Unit>, i: nat)
    requires i < |units|
    ensures Rows(units, i) == Row(units, i, i + 1) + Rows(units, i + 1)
  {
  }

  lemma AscendingConcat(a: seq<Pair>, b: seq<Pair>)
    requires Ascending(a) && Ascending(b) && forall p, q | p in a && q in b :: Before(p, q)
    ensures Ascending(a + b)
  {
  }

  lemma RowsInRange(units: seq<Unit>)
    ensures forall k | 0 <= k < |Rows(units, 0)| :: Rows(units, 0)[k].0 < |units| && Rows(units, 0)[k].1 < |units|
  {
    RowsIs(units, 0);
    forall k | 0 <= k < |Rows(units, 0)| ensures Hit(units, Rows(units, 0)[k]) { assert Rows(units, 0)[k] in Rows(units, 0); }
  }

  /** The conflicts as a double loop over all pairs i < j would list and number them. */
  function DoubleLoop(units: seq<Unit>): seq<Conflict> {
    RowsInRange(units);
    Numbered(units, Rows(units, 0))
  }

  lemma FirstIn<T>(s: seq<T>)
    ensures s != [] ==> s[0] in s
  {
  }

  lemma {:induction false} AscendingUnique(a: seq<Pair>, b: seq<Pair>)
    requires Ascending(a) && Ascending(b) && forall p :: p in a <==> p in b
    ensures a == b
    decreases |a|
  {
    if a == [] {
      FirstIn(b);
    } else {
      assert a[0] in b && b[0] in a;
      var k :| 0 <= k < |b| && b[k] == a[0];
      var l :| 0 <= l < |a| && a[l] == b[0];
      assert a[0] == b[0];
      forall p ensures p in a[1..] <==> p in b[1..] {
        assert a == [a[0]] + a[1..] && b == [b[0]] + b[1..];
        if p in a[1..] { assert p != a[0] && p in b; }
        if p in b[1..] { assert p != b[0] && p in a; }
      }
      AscendingUnique(a[1..], b[1..]);
    }
  }

  // ---- the inverted index ----

  /** For one token, the units that contain it. */
  datatype Buckets = Buckets(principle: seq<nat>, negated: seq<nat>, anti: seq<nat>)

  datatype Bucket = Plain | Negative | Anti | Outside

  function BucketOf(u: Unit): Bucket {
    if u.kind == AntiPattern then Anti
    else if u.kind == Principle then if Negated(Lower(u.content)) then Negative else Plain
    else Outside
  }

  function Add(b: Buckets, bucket: Bucket, i: nat): Buckets {
    match bucket
    case Plain => b.(principle := b.principle + [i])
    case Negative => b.(negated := b.negated + [i])
    case Anti => b.(anti := b.anti + [i])
    case Outside => b
  }

  function At(index: map<string, Buckets>, token: string): Buckets {
    if token in index then index[token] else Buckets([], [], [])
  }

  /** The buckets of a token hold exactly the units before n, of each class, that contain it. */
  ghost predicate Files(units: seq<Unit>, n: nat, token: string, b: Buckets)
    requires n <= |units|
  {
    && (forall i: nat :: i in b.principle <==> i < n && BucketOf(units[i]) == Plain && token in Tokenize(units[i].content))
    && (forall i: nat :: i in b.negated <==> i < n && BucketOf(units[i]) == Negative && token in Tokenize(units[i].content))
    && (forall i: nat :: i in b.anti <==> i < n && BucketOf(units[i]) == Anti && token in Tokenize(units[i].content))
  }

  lemma FilesNext(units: seq<Unit>, n: nat, token: string, b: Buckets)
    requires n < |units| && Files(units, n, token, b)
    ensures Files(units, n + 1, token, if token in Tokenize(units[n].content) then Add(b, BucketOf(units[n]), n) else b)
  {
  }

  method BuildIndex(units: seq<Unit>) returns (index: map<string, Buckets>)
    ensures forall token :: Files(units, |units|, token, At(index, token))
  {
    index := map[];
    for n := 0 to |units|
      invariant forall token :: Files(units, n, token, At(index, token))
    {
      hide Files, BucketOf, Tokenize, Add;
      ghost var before := index;
      var bucket := BucketOf(units[n]);
      var tokens := Tokenize(units[n].content);
      var rest := if bucket == Outside then {} else tokens;
      while rest != {}
        invariant rest <= tokens
        invariant forall token :: At(index, token) == if token in tokens && token !in rest && bucket != Outside then Add(At(before, token), bucket, n) else At(before, token)
        decreases rest
      {
        var token :| token in rest;
        index := index[token := Add(At(index, token), bucket, n)];
        rest := rest - {token};
      }
      forall token ensures Files(units, n + 1, token, At(index, token)) {
        FilesNext(units, n, token, At(before, token));
        AddOutside(At(before, token), n);
      }
    }
  }

  lemma AddOutside(b: Buckets, n: nat)
    ensures Add(b, Outside, n) == b
  {
  }

  // ---- candidate pairs ----

  /** The pairs the index proposes: units of opposing classes that share a token. */
  ghost predicate Candidate(units: seq<Unit>, p: Pair) {
    && p.0 < p.1 < |units|
    && Tokenize(units[p.0].content) * Tokenize(units[p.1].content) != {}
    && Opposed(BucketOf(units[p.0]), BucketOf(units[p.1]))
  }

  predicate Opposed(a: Bucket, b: Bucket) {
    || (a == Anti && b in {Plain, Negative}) || (b == Anti && a in {Plain, Negative})
    || (a == Negative && b in {Plain, Negative}) || (b == Negative && a in {Plain, Negative})
  }

  function Ordered(first: nat, second: nat): Pair { if first < second then (first, second) else (second, first) }

  /** The pairs that one token contributes. */
  ghost predicate Contributes(b: Buckets, p: Pair) {
    || (exists i, j | i in b.principle + b.negated && j in b.anti :: p == Ordered(i, j))
    || (exists i, j | i in b.negated && j in b.principle + b.negated && i != j :: p == Ordered(i, j))
  }

  method PairsOf(b: Buckets) returns (pairs: set<Pair>)
    ensures forall p :: p in pairs <==> Contributes(b, p)
  {
    var principles := b.principle + b.negated;
    pairs := {};
    for i := 0 to |principles|
      invariant forall p :: p in pairs <==> exists k, l | 0 <= k < i && 0 <= l < |b.anti| :: p == Ordered(principles[k], b.anti[l])
    {
      for j := 0 to |b.anti|
        invariant forall p :: p in pairs <==>
                    || (exists k, l | 0 <= k < i && 0 <= l < |b.anti| :: p == Ordered(principles[k], b.anti[l]))
                    || (exists l | 0 <= l < j :: p == Ordered(principles[i], b.anti[l]))
      {
        pairs := pairs + {Ordered(principles[i], b.anti[j])};
      }
    }
    ghost var tensions := pairs;
    for i := 0 to |b.negated|
      invariant forall p :: p in pairs <==>
                  || p in tensions
                  || (exists k, l | 0 <= k < i && 0 <= l < |principles| && b.negated[k] != principles[l] :: p == Ordered(b.negated[k], principles[l]))
    {
      for j := 0 to |principles|
        invariant forall p :: p in pairs <==>
                    || p in tensions
                    || (exists k, l | 0 <= k < i && 0 <= l < |principles| && b.negated[k] != principles[l] :: p == Ordered(b.negated[k], principles[l]))
                    || (exists l | 0 <= l < j && b.negated[i] != principles[l] :: p == Ordered(b.negated[i], principles[l]))
      {
        if b.negated[i] != principles[j] { pairs := pairs + {Ordered(b.negated[i], principles[j])}; }
      }
    }
  }

  /** A token contributes the opposed pairs of units that contain it. */
  lemma ContributesIs(units: seq<Unit>, token: string, b: Buckets, p: Pair)
    requires Files(units, |units|, token, b)
    ensures Contributes(b, p) <==>
              && p.0 < p.1 < |units| && Opposed(BucketOf(units[p.0]), BucketOf(units[p.1]))
              && token in Tokenize(units[p.0].content) && token in Tokenize(units[p.1].content)
  {
    hide Tokenize, BucketOf;
    if p.0 < p.1 < |units| && Opposed(BucketOf(units[p.0]), BucketOf(units[p.1]))
       && token in Tokenize(units[p.0].content) && token in Tokenize(units[p.1].content)
    {
      var i, j := p.0, p.1;
      var x, y := BucketOf(units[i]), BucketOf(units[j]);
      assert p == Ordered(i, j) && p == Ordered(j, i);
      if x == Anti { assert j in b.principle + b.negated && i in b.anti; }
      else if y == Anti { assert i in b.principle + b.negated && j in b.anti; }
      else if x == Negative { assert i in b.negated && j in b.principle + b.negated; }
      else { assert j in b.negated && i in b.principle + b.negated; }
    }
  }

  /** Every pair the index proposes, once. */
  method CandidatePairs(units: seq<Unit>) returns (pairs: set<Pair>)
    ensures forall p :: p in pairs <==> Candidate(units, p)
  {
    hide Files, Contributes, Tokenize, BucketOf, Opposed;
    var index := BuildIndex(units);
    pairs := {};
    var rest := index.Keys;
    while rest != {}
      invariant rest <= index.Keys
      invariant forall p :: p in pairs <==> exists token | token in index && token !in rest :: Contributes(At(index, token), p)
      decreases rest
    {
      var token :| token in rest;
      var more := PairsOf(index[token]);
      pairs := pairs + more;
      rest := rest - {token};
    }
    forall p ensures p in pairs <==> Candidate(units, p) {
      ProposedIs(units, index, p);
    }
  }

  lemma ProposedIs(units: seq<Unit>, index: map<string, Buckets>, p: Pair)
    requires forall token :: Files(units, |units|, token, At(index, token))
    ensures (exists token | token in index :: Contributes(At(index, token), p)) <==> Candidate(units, p)
  {
    hide Files, Tokenize, BucketOf, Opposed;
    if token :| token in index && Contributes(At(index, token), p) {
      ContributesIs(units, token, At(index, token), p);
      assert token in Tokenize(units[p.0].content) * Tokenize(units[p.1].content);
    }
    if Candidate(units, p) {
      var token :| token in Tokenize(units[p.0].content) * Tokenize(units[p.1].content);
      ContributesIs(units, token, At(index, token), p);
      assert token in index;
    }
  }

  /** The index misses no conflict: each needs a shared token and opposing classes. */
  lemma HitsAreCandidates(units: seq<Unit>, p: Pair)
    requires Hit(units, p)
    ensures Candidate(units, p)
  {
    var a, b := units[p.0], units[p.1];
    hide Tokenize, Negated, Lower;
    if {a.kind, b.kind} == {Principle, AntiPattern} {
      assert a.kind in {Principle, AntiPattern} && b.kind in {Principle, AntiPattern};
      assert Principle in {a.kind, b.kind} && AntiPattern in {a.kind, b.kind};
      SharedToken(Tokenize(a.content), Tokenize(b.content));
    }
  }

  lemma SharedToken(a: set<string>, b: set<string>)
    requires Jaccard(a, b) >= 0.34
    ensures a * b != {}
  {
    if a * b == {} {
      NothingShared(a, b);
    }
  }

  lemma NothingShared(a: set<string>, b: set<string>)
    requires a * b == {}
    ensures Jaccard(a, b) < 0.34
  {
    assert |a * b| == 0;
    if a + b != {} { assert (0 as real) / (|a + b| as real) == 0.0; }
  }

  // ---- sorting and filtering ----

  method Smallest(pairs: set<Pair>) returns (m: Pair)
    requires pairs != {}
    ensures m in pairs && forall p | p in pairs && p != m :: Before(m, p)
  {
    m :| m in pairs;
    var rest := pairs - {m};
    while rest != {}
      invariant rest <= pairs && m in pairs && m !in rest
      invariant forall p | p in pairs && p !in rest && p != m :: Before(m, p)
      decreases rest
    {
      var p :| p in rest;
      rest := rest - {p};
      if Before(p, m) { m := p; }
    }
  }

  method SortPairs(pairs: set<Pair>) returns (sorted: seq<Pair>)
    ensures Ascending(sorted) && forall p :: p in sorted <==> p in pairs
  {
    sorted := [];
    var rest := pairs;
    while rest != {}
      invariant rest <= pairs && Ascending(sorted)
      invariant forall p :: p in sorted <==> p in pairs && p !in rest
      invariant forall p, q | p in sorted && q in rest :: Before(p, q)
      decreases rest
    {
      var p := Smallest(rest);
      sorted := sorted + [p];
      rest := rest - {p};
    }
  }

  /** The fast detection returns exactly what the double loop returns, with the same numbering. */
  method DetectConflicts(units: seq<Unit>) returns (conflicts: seq<Conflict>)
    ensures conflicts == DoubleLoop(units)
  {
    hide IsConflictPair, Candidate, Ascending;
    var candidates := CandidatePairs(units);
    var sorted := SortPairs(candidates);
    conflicts := [];
    ghost var hits := [];
    CandidatesInRange(units, candidates);
    assert Ascending([]) by { NoneAscending(); }
    for k := 0 to |sorted|
      invariant Ascending(hits) && forall p :: p in hits <==> p in sorted[..k] && Hit(units, p)
      invariant forall l | 0 <= l < |hits| :: hits[l].0 < |units| && hits[l].1 < |units|
      invariant conflicts == Numbered(units, hits)
    {
      var p := sorted[k];
      assert p in candidates;
      assert sorted[..k + 1] == sorted[..k] + [p];
      if IsConflictPair(units[p.0], units[p.1]) {
        AscendingSnoc(sorted, k, hits);
        conflicts := conflicts + [Conflict(|conflicts|, units[p.0].unitId, units[p.1].unitId)];
        hits := hits + [p];
      }
    }
    assert sorted[..|sorted|] == sorted;
    RowsIs(units, 0);
    forall p ensures p in hits <==> p in Rows(units, 0) {
      if Hit(units, p) { HitsAreCandidates(units, p); }
    }
    AscendingUnique(hits, Rows(units, 0));
  }

  lemma NoneAscending()
    ensures Ascending([])
  {
  }

  lemma CandidatesInRange(units: seq<Unit>, candidates: set<Pair>)
    requires forall p :: p in candidates <==> Candidate(units, p)
    ensures forall p | p in candidates :: p.0 < p.1 < |units|
  {
  }

  lemma AscendingSnoc(sorted: seq<Pair>, k: nat, hits: seq<Pair>)
    requires Ascending(sorted) && k < |sorted| && Ascending(hits) && forall p | p in hits :: p in sorted[..k]
    ensures Ascending(hits + [sorted[k]])
  {
    forall l | 0 <= l < |hits| ensures Before(hits[l], sorted[k]) {
      assert hits[l] in hits;
      var m :| 0 <= m < k && sorted[m] == hits[l];
    }
  }
}
