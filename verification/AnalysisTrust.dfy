/** Whatever the model answers, candidate ids are pairwise distinct and every source reference names an
    extracted block of a declared source. */
module AnalysisTrust {
  import opened Knowledge
  import opened Identifiers
  import opened SourceTrace
  import opened Analysis

  // ---- bags of ids ----

  function IdsOf(units: seq<Card>): seq<string> { seq(|units|, i requires 0 <= i < |units| => units[i].unitId) }

  function Bag(units: seq<Card>): multiset<string> { multiset(IdsOf(units)) }

  lemma BagConcat(a: seq<Card>, b: seq<Card>)
    ensures Bag(a + b) == Bag(a) + Bag(b)
  {
    assert IdsOf(a + b) == IdsOf(a) + IdsOf(b);
  }

  /** The id was given out before: its number is within the counters. */
  ghost predicate Within(c: Counters, id: string) {
    exists b, n: nat :: 1 <= n <= Count(c, b) && id == UnitId(b, n)
  }

  /** The id was given out between two states of the counters. */
  ghost predicate Between(c: Counters, d: Counters, id: string) {
    exists b, n: nat :: Count(c, b) < n <= Count(d, b) && id == UnitId(b, n)
  }

  ghost predicate Grows(c: Counters, d: Counters) { forall b :: Count(c, b) <= Count(d, b) }

  /** No id twice, and all of them given out by the counters. */
  ghost predicate Sound(c: Counters, bag: multiset<string>) {
    forall id | id in bag :: bag[id] == 1 && Within(c, id)
  }

  ghost predicate Fresh(c: Counters, d: Counters, bag: multiset<string>) {
    Grows(c, d) && forall id | id in bag :: bag[id] == 1 && Between(c, d, id)
  }

  /** An id that is given out later is not among the earlier ones. */
  lemma LaterDiffers(c: Counters, d: Counters, id: string)
    requires Between(c, d, id)
    ensures !Within(c, id)
  {
    var b, n: nat :| Count(c, b) < n <= Count(d, b) && id == UnitId(b, n);
    if Within(c, id) {
      var x, m: nat :| 1 <= m <= Count(c, x) && id == UnitId(x, m);
      UnitIdInjective(b, x, n, m);
    }
  }

  lemma WithinGrows(c: Counters, d: Counters, id: string)
    requires Grows(c, d) && (Within(c, id) || Between(c, d, id))
    ensures Within(d, id)
  {
    if Within(c, id) {
      var b, n: nat :| 1 <= n <= Count(c, b) && id == UnitId(b, n);
      assert Count(c, b) <= Count(d, b);
    } else {
      var b, n: nat :| Count(c, b) < n <= Count(d, b) && id == UnitId(b, n);
    }
  }

  lemma SoundJoin(c: Counters, d: Counters, old_: multiset<string>, more: multiset<string>)
    requires Sound(c, old_) && Fresh(c, d, more)
    ensures Sound(d, old_ + more)
  {
    forall id | id in old_ + more ensures (old_ + more)[id] == 1 && Within(d, id) {
      if id in more {
        LaterDiffers(c, d, id);
        WithinGrows(c, d, id);
      } else {
        WithinGrows(c, d, id);
      }
    }
  }

  lemma SoundPart(c: Counters, part: multiset<string>, rest: multiset<string>)
    requires Sound(c, part + rest)
    ensures Sound(c, part)
  {
    forall id | id in part ensures part[id] == 1 && Within(c, id) { assert id in part + rest; }
  }

  // ---- giving out one id ----

  lemma IssueFresh(c: Counters, s: State, block: string, refs: seq<(string, string)>, body: Option<Body>)
    requires Fresh(c, s.counters, Bag(s.units))
    ensures Fresh(c, Emit(s, block, refs, body).counters, Bag(Emit(s, block, refs, body).units))
  {
    hide UnitId;
    var t := Emit(s, block, refs, body);
    var n, id := Count(s.counters, block) + 1, UnitId(block, Count(s.counters, block) + 1);
    assert Count(t.counters, block) == n;
    forall b ensures Count(s.counters, b) <= Count(t.counters, b) {}
    FreshLater(c, s.counters, t.counters, Bag(s.units));
    if body.Some? {
      BagConcat(s.units, [Card(id, refs, body.value)]);
      assert IdsOf([Card(id, refs, body.value)]) == [id];
      assert Between(c, t.counters, id);
      if id in Bag(s.units) {
        var b, m: nat :| Count(c, b) < m <= Count(s.counters, b) && id == UnitId(b, m);
        UnitIdInjective(b, block, m, n);
      }
      FreshPlus(c, t.counters, Bag(s.units), id);
    } else {
      assert s.units + [] == s.units;
    }
  }

  lemma FreshLater(c: Counters, d: Counters, e: Counters, bag: multiset<string>)
    requires Fresh(c, d, bag) && Grows(d, e)
    ensures Fresh(c, e, bag)
  {
    forall x | x in bag ensures Between(c, e, x) {
      var b, m: nat :| Count(c, b) < m <= Count(d, b) && x == UnitId(b, m);
      assert Count(d, b) <= Count(e, b);
    }
    forall b ensures Count(c, b) <= Count(e, b) { assert Count(c, b) <= Count(d, b) <= Count(e, b); }
  }

  lemma FreshPlus(c: Counters, d: Counters, bag: multiset<string>, id: string)
    requires Fresh(c, d, bag) && Between(c, d, id) && id !in bag
    ensures Fresh(c, d, bag + multiset{id})
  {
    hide Between, Grows;
    forall x | x in bag + multiset{id} ensures (bag + multiset{id})[x] == 1 && Between(c, d, x) {
      if x != id { assert x in bag; }
    }
  }

  /** Sums of three bags, regrouped. */
  lemma Regroup(a: multiset<string>, b: multiset<string>, r: multiset<string>)
    ensures a + (b + r) == (a + r) + b == (a + b) + r
  {
  }

  lemma EmptyFresh(c: Counters)
    ensures Fresh(c, c, Bag([]))
  {
    assert IdsOf([]) == [];
  }

  lemma {:induction false} MapFresh(c: Counters, chunk: Chunk, raws: seq<RawEntry>)
    ensures var s := MapEntries(State(c, []), chunk, raws); Fresh(c, s.counters, Bag(s.units))
  {
    if raws == [] {
      EmptyFresh(c);
    } else {
      var init, raw := raws[..|raws| - 1], raws[|raws| - 1];
      MapFresh(c, chunk, init);
      hide Fresh, UnitId, Emit;
      if raw.RawEntry? && raw.inputId.Some? && ItemOf(chunk.items, raw.inputId.value).Some? {
        var block := ItemOf(chunk.items, raw.inputId.value).value.blockId;
        IssueFresh(c, MapEntries(State(c, []), chunk, init), block, [(chunk.sourceId, block)], raw.body);
      }
    }
  }

  lemma {:induction false} TrustFresh(c: Counters, raws: seq<RawEntry>, units: seq<Card>)
    ensures var s := Trust(State(c, []), raws, units); Fresh(c, s.counters, Bag(s.units))
  {
    if raws == [] {
      EmptyFresh(c);
    } else {
      var init, raw := raws[..|raws| - 1], raws[|raws| - 1];
      TrustFresh(c, init, units);
      hide Fresh, UnitId, Emit;
      if raw.RawEntry? && raw.support.Some? && SupportRefs(units, raw.support.value) != [] {
        var refs := SupportRefs(units, raw.support.value);
        IssueFresh(c, Trust(State(c, []), init, units), refs[0].1, refs, raw.body);
      }
    }
  }

  // ---- references ----

  type Known = set<(string, string)>   // the extracted blocks, each with its source

  ghost predicate RefsKnown(known: Known, units: seq<Card>) {
    forall u | u in units :: u.refs != [] && forall r | r in u.refs :: r in known
  }

  ghost predicate ChunkKnown(known: Known, chunk: Chunk) { forall i | i in chunk.items :: (chunk.sourceId, i.blockId) in known }

  lemma {:induction false} MapKnown(known: Known, c: Counters, chunk: Chunk, raws: seq<RawEntry>)
    requires ChunkKnown(known, chunk)
    ensures RefsKnown(known, MapEntries(State(c, []), chunk, raws).units)
  {
    if raws != [] { MapKnown(known, c, chunk, raws[..|raws| - 1]); }
  }

  lemma {:induction false} AddNewIs(refs: seq<(string, string)>, more: seq<(string, string)>)
    ensures forall r :: r in AddNew(refs, more) <==> r in refs || r in more
  {
    if more != [] {
      AddNewIs(refs, more[..|more| - 1]);
      assert more == more[..|more| - 1] + [more[|more| - 1]];
    }
  }

  lemma {:induction false} SupportKnown(known: Known, units: seq<Card>, support: seq<Option<string>>)
    requires RefsKnown(known, units)
    ensures forall r | r in SupportRefs(units, support) :: r in known
  {
    if support != [] {
      var init, id := support[..|support| - 1], support[|support| - 1];
      SupportKnown(known, units, init);
      if id.Some? && ById(units, id.value).Some? { AddNewIs(SupportRefs(units, init), ById(units, id.value).value.refs); }
    }
  }

  lemma {:induction false} TrustKnown(known: Known, c: Counters, raws: seq<RawEntry>, units: seq<Card>)
    requires RefsKnown(known, units)
    ensures RefsKnown(known, Trust(State(c, []), raws, units).units)
  {
    if raws != [] {
      var raw := raws[|raws| - 1];
      TrustKnown(known, c, raws[..|raws| - 1], units);
      if raw.RawEntry? && raw.support.Some? { SupportKnown(known, units, raw.support.value); }
    }
  }

  // ---- sections ----

  function SectionBag(sections: Sections): multiset<string> {
    if sections == [] then multiset{} else SectionBag(sections[..|sections| - 1]) + Bag(sections[|sections| - 1].1)
  }

  lemma {:induction false} SectionBagConcat(a: Sections, b: Sections)
    ensures SectionBag(a + b) == SectionBag(a) + SectionBag(b)
  {
    hide Bag;
    if b == [] {
      assert a + b == a;
    } else {
      var init, last := b[..|b| - 1], Bag(b[|b| - 1].1);
      SectionBagConcat(a, init);
      assert (a + b)[..|a + b| - 1] == a + init && (a + b)[|a + b| - 1] == b[|b| - 1];
      Regroup(SectionBag(a), SectionBag(init), last);
    }
  }

  lemma OneSection(key: Key, units: seq<Card>)
    ensures SectionBag([(key, units)]) == Bag(units)
  {
    assert [(key, units)][..0] == [];
  }

  lemma NoSections()
    ensures SectionBag([]) == multiset{}
  {
  }

  ghost predicate SectionsKnown(known: Known, sections: Sections) { forall i | 0 <= i < |sections| :: RefsKnown(known, sections[i].1) }

  lemma AddToBag(known: Known, sections: Sections, key: Key, units: seq<Card>)
    ensures SectionBag(AddTo(sections, key, units)) == SectionBag(sections) + Bag(units)
    ensures SectionsKnown(known, sections) && RefsKnown(known, units) ==> SectionsKnown(known, AddTo(sections, key, units))
  {
    hide Bag;
    assert units == [] ==> Bag(units) == multiset{} by { EmptyBag(); }
    var at := FindKey(sections, key);
    if units != [] && at.Some? {
      var k := at.value;
      var before, rest := sections[..k], sections[k + 1..];
      assert sections == before + ([sections[k]] + rest);
      var grown := [(key, sections[k].1 + units)];
      assert AddTo(sections, key, units) == before + (grown + rest);
      SectionBagConcat(before, [sections[k]] + rest);
      SectionBagConcat([sections[k]], rest);
      SectionBagConcat(before, grown + rest);
      SectionBagConcat(grown, rest);
      OneSection(key, sections[k].1);
      OneSection(key, sections[k].1 + units);
      BagConcat(sections[k].1, units);
    } else if units != [] {
      SectionBagConcat(sections, [(key, units)]);
      OneSection(key, units);
    }
  }

  lemma EmptyBag()
    ensures Bag([]) == multiset{}
  {
    assert IdsOf([]) == [];
  }

  /** What the map step has given out: distinct ids, known blocks, and the same cards in the sections. */
  lemma {:induction false} MapSound(known: Known, chunks: seq<Chunk>, replies: seq<Reply>, i: nat)
    requires i <= |chunks| == |replies| && forall c | c in chunks :: ChunkKnown(known, c)
    ensures var m := MapChunks(chunks, replies, i);
            && Sound(m.counters, Bag(m.candidates)) && SectionBag(m.sections) == Bag(m.candidates)
            && RefsKnown(known, m.candidates) && SectionsKnown(known, m.sections)
  {
    hide MapEntries, SectionKey, AddTo, Fresh, Bag, ChunkKnown;
    if i == 0 {
      EmptyBag();
    } else {
      MapSound(known, chunks, replies, i - 1);
      var m, chunk := MapChunks(chunks, replies, i - 1), chunks[i - 1];
      var s := MapEntries(State(m.counters, []), chunk, Raws(replies[i - 1]));
      MapFresh(m.counters, chunk, Raws(replies[i - 1]));
      MapKnown(known, m.counters, chunk, Raws(replies[i - 1]));
      SoundJoin(m.counters, s.counters, Bag(m.candidates), Bag(s.units));
      BagConcat(m.candidates, s.units);
      AddToBag(known, m.sections, SectionKey(chunks, i - 1), s.units);
    }
  }

  /** Reducing sections: what was reduced so far and what still waits share no id. */
  lemma {:induction false} SectionsSound(known: Known, c: Counters, sections: Sections, replies: Key -> Reply, i: nat)
    requires i <= |sections| && Sound(c, SectionBag(sections)) && SectionsKnown(known, sections)
    ensures var r := ReduceSections(c, sections, replies, i);
            Sound(r.counters, SectionBag(r.results) + SectionBag(sections[i..])) && SectionsKnown(known, r.results)
  {
    hide Trust, Fresh, Bag, Sound, RefsKnown, SectionBag;
    if i == 0 {
      assert sections[0..] == sections;
      NoSections();
      assert multiset{} + SectionBag(sections) == SectionBag(sections);
    } else {
      SectionsSound(known, c, sections, replies, i - 1);
      var r, key, units := ReduceSections(c, sections, replies, i - 1), sections[i - 1].0, sections[i - 1].1;
      var done, rest := SectionBag(r.results), SectionBag(sections[i..]);
      assert sections[i - 1..] == [sections[i - 1]] + sections[i..];
      SectionBagConcat([sections[i - 1]], sections[i..]);
      OneSection(key, units);
      Regroup(done, Bag(units), rest);
      if replies(key).Failure? {
        SectionBagConcat(r.results, [(key, units)]);
      } else {
        var s := Trust(State(r.counters, []), Raws(replies(key)), units);
        TrustFresh(r.counters, Raws(replies(key)), units);
        TrustKnown(known, r.counters, Raws(replies(key)), units);
        SoundPart(r.counters, done + rest, Bag(units));
        SoundJoin(r.counters, s.counters, done + rest, Bag(s.units));
        SectionBagConcat(r.results, [(key, s.units)]);
        OneSection(key, s.units);
        Regroup(done, Bag(s.units), rest);
      }
    }
  }

  // ---- books ----

  /** The ids of the sections whose source has not been reduced yet. */
  function Waiting(results: Sections, done: seq<string>): multiset<string> {
    if results == [] then multiset{}
    else Waiting(results[..|results| - 1], done) + if results[|results| - 1].0.sourceId in done then multiset{} else Bag(results[|results| - 1].1)
  }

  lemma {:induction false} WaitingAll(results: Sections)
    ensures Waiting(results, []) == SectionBag(results)
  {
    if results != [] { WaitingAll(results[..|results| - 1]); }
  }

  lemma {:induction false} WaitingNext(results: Sections, done: seq<string>, source: string)
    requires source !in done
    ensures Waiting(results, done) == Waiting(results, done + [source]) + Bag(OfSource(results, source))
  {
    hide Bag;
    EmptyBag();
    if results != [] {
      WaitingNext(results[..|results| - 1], done, source);
      var before, more := OfSource(results[..|results| - 1], source), results[|results| - 1].1;
      BagConcat(before, more);
      assert before + [] == before;
      assert results[|results| - 1].0.sourceId in done + [source] <==> results[|results| - 1].0.sourceId in done || results[|results| - 1].0.sourceId == source;
      Regroup(Waiting(results[..|results| - 1], done + [source]), Bag(before), Bag(more));
    }
  }

  lemma {:induction false} OfSourceKnown(known: Known, results: Sections, source: string)
    requires SectionsKnown(known, results)
    ensures RefsKnown(known, OfSource(results, source))
  {
    if results != [] {
      OfSourceKnown(known, results[..|results| - 1], source);
      assert RefsKnown(known, results[|results| - 1].1);
    }
  }

  lemma BookSound(known: Known, s: State, results: Sections, done: seq<string>, source: string, reply: Reply)
    requires source !in done && Sound(s.counters, Bag(s.units) + Waiting(results, done))
    requires SectionsKnown(known, results) && RefsKnown(known, s.units)
    ensures var t := ReduceBook(s, results, source, reply);
            Sound(t.counters, Bag(t.units) + Waiting(results, done + [source])) && RefsKnown(known, t.units)
  {
    hide Trust, Fresh, Bag, Sound, Waiting, OfSource;
    var units, rest := OfSource(results, source), Waiting(results, done + [source]);
    WaitingNext(results, done, source);
    OfSourceKnown(known, results, source);
    BagConcat(s.units, units);
    EmptyBag();
    Regroup(Bag(s.units), Bag(units), rest);
    assert Waiting(results, done) == Bag(units) + rest;
    if units == [] {
      assert Bag(s.units) + (Bag(units) + rest) == Bag(s.units) + rest;
    } else if !reply.Failure? {
      var t := Trust(State(s.counters, []), Raws(reply), units);
      TrustFresh(s.counters, Raws(reply), units);
      TrustKnown(known, s.counters, Raws(reply), units);
      if t.units == [] {
        SoundJoin(s.counters, t.counters, (Bag(s.units) + Bag(units)) + rest, Bag(t.units));
        assert (Bag(s.units) + Bag(units)) + rest + multiset{} == (Bag(s.units) + Bag(units)) + rest;
      } else {
        SoundPart(s.counters, Bag(s.units) + rest, Bag(units));
        SoundJoin(s.counters, t.counters, Bag(s.units) + rest, Bag(t.units));
        BagConcat(s.units, t.units);
        Regroup(Bag(s.units), Bag(t.units), rest);
      }
    }
  }

  lemma {:induction false} BooksSound(known: Known, c: Counters, results: Sections, sources: seq<string>, replies: string -> Reply)
    requires Sound(c, SectionBag(results)) && SectionsKnown(known, results)
    requires forall i, j | 0 <= i < j < |sources| :: sources[i] != sources[j]
    ensures var s := ReduceBooks(c, results, sources, replies);
            Sound(s.counters, Bag(s.units) + Waiting(results, sources)) && RefsKnown(known, s.units)
  {
    hide Sound, Waiting, ReduceBook, Bag;
    if sources == [] {
      WaitingAll(results);
      EmptyBag();
      assert multiset{} + SectionBag(results) == SectionBag(results);
    } else {
      var init, source := sources[..|sources| - 1], sources[|sources| - 1];
      BooksSound(known, c, results, init, replies);
      assert init + [source] == sources;
      BookSound(known, ReduceBooks(c, results, init, replies), results, init, source, replies(source));
    }
  }

  // ---- theorems ----

  ghost predicate DistinctUnits(units: seq<Card>) { forall i, j | 0 <= i < j < |units| :: units[i].unitId != units[j].unitId }

  lemma {:induction false} SoundIsDistinct(c: Counters, units: seq<Card>)
    requires Sound(c, Bag(units))
    ensures DistinctUnits(units)
  {
    forall i, j | 0 <= i < j < |units| ensures units[i].unitId != units[j].unitId {
      var ids := IdsOf(units);
      assert ids[i] in Bag(units);
      Single(ids, i, j);
    }
  }

  lemma Single(ids: seq<string>, i: nat, j: nat)
    requires i < j < |ids| && multiset(ids)[ids[i]] == 1
    ensures ids[i] != ids[j]
  {
    assert ids == ids[..i] + [ids[i]] + ids[i + 1..j] + [ids[j]] + ids[j + 1..];
  }

  /** For every reply at every level: distinct ids, and references to known blocks only. */
  lemma AnyReplyIsTrusted(known: Known, sources: seq<string>, chunks: seq<Chunk>, map_: seq<Reply>, synthesis: Synthesis)
    requires |chunks| == |map_| && forall c | c in chunks :: ChunkKnown(known, c)
    requires forall i, j | 0 <= i < j < |sources| :: sources[i] != sources[j]
    ensures DistinctUnits(Candidates(sources, chunks, map_, synthesis))
    ensures RefsKnown(known, Candidates(sources, chunks, map_, synthesis))
  {
    hide MapChunks, ReduceSections, ReduceBooks, Sound, Bag, SectionsKnown, ChunkKnown, RefsKnown;
    MapSound(known, chunks, map_, |chunks|);
    var m := MapChunks(chunks, map_, |chunks|);
    if synthesis.Answers? {
      SectionsSound(known, m.counters, m.sections, synthesis.section, |m.sections|);
      var r := ReduceSections(m.counters, m.sections, synthesis.section, |m.sections|);
      assert m.sections[|m.sections|..] == [];
      assert SectionBag(r.results) + multiset{} == SectionBag(r.results);
      BooksSound(known, r.counters, r.results, sources, synthesis.book);
      var final := ReduceBooks(r.counters, r.results, sources, synthesis.book);
      SoundPart(final.counters, Bag(final.units), Waiting(r.results, sources));
      SoundIsDistinct(final.counters, final.units);
    }
    SoundIsDistinct(m.counters, m.candidates);
  }

  /** The extractions passed their gate and were persisted as they are. */
  ghost predicate Persisted(sources: seq<string>, xs: seq<Extraction>, raw: RawStorage, version: nat) {
    && |xs| == |sources|
    && (forall i, j | 0 <= i < j < |sources| :: sources[i] != sources[j])
    && forall i | 0 <= i < |sources| ::
         && sources[i] != [] && xs[i].manifest.version == version
         && Contract(xs[i], sources[i], xs[i].manifest.format, None)
         && (sources[i], version) in raw && raw[(sources[i], version)] == RawRecord(xs[i].manifest, xs[i].entries)
  }

  ghost function Extracted(sources: seq<string>, xs: seq<Extraction>): Known
    requires |xs| == |sources|
  {
    set i, k | 0 <= i < |xs| && 0 <= k < |xs[i].entries| :: (sources[i], xs[i].entries[k].blockId)
  }

  lemma KnownIsTraceable(sources: seq<string>, xs: seq<Extraction>, raw: RawStorage, version: nat, units: seq<Card>)
    requires Persisted(sources, xs, raw, version) && RefsKnown(Extracted(sources, xs), units)
    ensures Traceable(Bundle(sources, units), raw, version)
  {
    var b := Bundle(sources, units);
    hide Contract;
    forall i | 0 <= i < |sources| ensures RawInOrder(raw, sources[i], version) {
      SourceInOrder(sources, xs, raw, version, i);
    }
    forall i, k | 0 <= i < |b.candidates| && 0 <= k < |b.candidates[i].refs| ensures RefInOrder(b, raw, version, b.candidates[i].refs[k]) {
      assert units[i] in units && units[i].refs[k] in Extracted(sources, xs);
      var s, e :| 0 <= s < |xs| && 0 <= e < |xs[s].entries| && units[i].refs[k] == (sources[s], xs[s].entries[e].blockId);
      ContractIds(xs[s], sources[s], xs[s].manifest.format, None);
      assert raw[(sources[s], version)].map_[e].blockId == xs[s].entries[e].blockId;
    }
  }

  lemma SourceInOrder(sources: seq<string>, xs: seq<Extraction>, raw: RawStorage, version: nat, i: nat)
    requires Persisted(sources, xs, raw, version) && i < |sources|
    ensures RawInOrder(raw, sources[i], version)
  {
    ContractIds(xs[i], sources[i], xs[i].manifest.format, None);
    forall k | 0 <= k < |xs[i].entries| ensures xs[i].entries[k].sourceId == sources[i] { assert EntryFits(xs[i], sources[i], k); }
  }

  /** Untrusted model, trusted bundle: for every possible reply, verification accepts the bundle. */
  lemma BundleVerifies(sources: seq<string>, xs: seq<Extraction>, raw: RawStorage, version: nat,
                       chunks: seq<Chunk>, map_: seq<Reply>, synthesis: Synthesis)
    requires Persisted(sources, xs, raw, version)
    requires |chunks| == |map_| && forall c | c in chunks :: ChunkKnown(Extracted(sources, xs), c)
    ensures var units := Candidates(sources, chunks, map_, synthesis);
            DistinctUnits(units) && Traceable(Bundle(sources, units), raw, version)
  {
    hide Candidates, Traceable, Contract;
    AnyReplyIsTrusted(Extracted(sources, xs), sources, chunks, map_, synthesis);
    KnownIsTraceable(sources, xs, raw, version, Candidates(sources, chunks, map_, synthesis));
  }

  // ---- block by block ----

  /** No two extracted blocks share an id, not even across sources. */
  lemma ExtractedDistinct(sources: seq<string>, xs: seq<Extraction>, raw: RawStorage, version: nat, i: nat, j: nat, k: nat, l: nat)
    requires Persisted(sources, xs, raw, version) && i < |xs| && j < |xs| && k < |xs[i].entries| && l < |xs[j].entries|
    requires xs[i].entries[k].blockId == xs[j].entries[l].blockId
    ensures i == j && k == l
  {
    assert EntryFits(xs[i], sources[i], k) && EntryFits(xs[j], sources[j], l);
    BlockIdInjective(sources[i], sources[j], xs[i].blocks[k].locator.kind, xs[j].blocks[l].locator.kind, k + 1, l + 1);
  }

  lemma {:induction false} PlainIds(source: string, block: string, bodies: seq<Option<Body>>)
    ensures DistinctUnits(PlainEntries(source, block, bodies))
    ensures forall u | u in PlainEntries(source, block, bodies) :: u.refs == [(source, block)] && exists n: nat :: n <= |bodies| && u.unitId == UnitId(block, n)
  {
    if bodies != [] {
      hide UnitId;
      var init := PlainEntries(source, block, bodies[..|bodies| - 1]);
      PlainIds(source, block, bodies[..|bodies| - 1]);
      forall i | 0 <= i < |init| ensures init[i].unitId != UnitId(block, |bodies|) {
        assert init[i] in init;
        var n: nat :| n <= |bodies| - 1 && init[i].unitId == UnitId(block, n);
        if UnitId(block, n) == UnitId(block, |bodies|) { UnitIdInjective(block, block, n, |bodies|); }
      }
    }
  }

  /** The analysis that asks block by block needs distinct block ids, which extraction guarantees. */
  lemma {:induction false} PlainTrusted(known: Known, blocks: seq<(string, string)>, replies: seq<seq<Option<Body>>>)
    requires |blocks| == |replies| && (forall b | b in blocks :: b in known)
    requires forall i, j | 0 <= i < j < |blocks| :: blocks[i].1 != blocks[j].1
    ensures var units := PlainCandidates(blocks, replies);
            && DistinctUnits(units) && RefsKnown(known, units)
            && forall u | u in units :: exists i, n: nat :: 0 <= i < |blocks| && u.unitId == UnitId(blocks[i].1, n)
  {
    if blocks != [] {
      hide UnitId, PlainEntries;
      var k := |blocks| - 1;
      var before, more := PlainCandidates(blocks[..k], replies[..k]), PlainEntries(blocks[k].0, blocks[k].1, replies[k]);
      PlainTrusted(known, blocks[..k], replies[..k]);
      PlainIds(blocks[k].0, blocks[k].1, replies[k]);
      forall i, j | 0 <= i < |before| && 0 <= j < |more| ensures before[i].unitId != more[j].unitId {
        assert before[i] in before && more[j] in more;
        var x, n: nat :| 0 <= x < k && before[i].unitId == UnitId(blocks[..k][x].1, n);
        var m: nat :| more[j].unitId == UnitId(blocks[k].1, m);
        if before[i].unitId == more[j].unitId { UnitIdInjective(blocks[x].1, blocks[k].1, n, m); }
      }
      forall u | u in before + more ensures exists i, n: nat :: 0 <= i < |blocks| && u.unitId == UnitId(blocks[i].1, n) {
        if u in before {
          var x, n: nat :| 0 <= x < k && u.unitId == UnitId(blocks[..k][x].1, n);
          assert u.unitId == UnitId(blocks[x].1, n);
        } else {
          var n: nat :| u.unitId == UnitId(blocks[k].1, n);
        }
      }
    }
  }
}
