/** The object that runs an analysis: one dictionary of counters, shared by the map step and both reductions
    (src/book2skill/application/analyze.py). */
module AnalysisService {
  import opened Knowledge
  import opened Identifiers
  import opened SourceTrace
  import opened Analysis
  import opened AnalysisOutcome

  class Analyzer {
    var counters: Counters

    constructor ()
      ensures counters == map[]
    {
      counters := map[];
    }

    /** Give a block its next number. */
    method NextId(block: string) returns (id: string)
      modifies this
      ensures counters == old(counters)[block := Count(old(counters), block) + 1]
      ensures id == UnitId(block, Count(old(counters), block) + 1)
    {
      counters := counters[block := Count(counters, block) + 1];
      id := UnitId(block, counters[block]);
    }

    /** The candidates of one map reply. */
    method MapReply(chunk: Chunk, reply: Reply) returns (units: seq<Card>)
      modifies this
      ensures State(counters, units) == MapEntries(State(old(counters), []), chunk, Raws(reply))
    {
      hide UnitId, ItemOf;
      units := [];
      var raws := if reply.Entries? then reply.raws else [];
      for i := 0 to |raws|
        invariant State(counters, units) == MapEntries(State(old(counters), []), chunk, raws[..i])
      {
        assert raws[..i + 1][..i] == raws[..i];
        var raw := raws[i];
        if raw.Junk? || raw.inputId.None? { continue; }
        var item := ItemOf(chunk.items, raw.inputId.value);
        if item.None? { continue; }
        var id := NextId(item.value.blockId);
        if raw.body.Some? { units := units + [Card(id, [(chunk.sourceId, item.value.blockId)], raw.body.value)]; }
      }
      assert raws[..|raws|] == raws;
    }

    method CollectRefs(units: seq<Card>, support: seq<Option<string>>) returns (refs: seq<(string, string)>)
      ensures refs == SupportRefs(units, support)
    {
      refs := [];
      for i := 0 to |support|
        invariant refs == SupportRefs(units, support[..i])
      {
        assert support[..i + 1][..i] == support[..i];
        var unit := if support[i].Some? then ById(units, support[i].value) else None;
        if unit.None? { continue; }
        ghost var before := refs;
        for k := 0 to |unit.value.refs|
          invariant refs == AddNew(before, unit.value.refs[..k])
        {
          assert unit.value.refs[..k + 1][..k] == unit.value.refs[..k];
          if unit.value.refs[k] !in refs { refs := refs + [unit.value.refs[k]]; }
        }
        assert unit.value.refs[..|unit.value.refs|] == unit.value.refs;
      }
      assert support[..|support|] == support;
    }

    /** Rebuild a reduction with Core-owned ids and source pointers. */
    method TrustReply(reply: Reply, units: seq<Card>) returns (result: seq<Card>)
      modifies this
      ensures State(counters, result) == Trust(State(old(counters), []), Raws(reply), units)
    {
      hide UnitId, SupportRefs;
      result := [];
      var raws := if reply.Entries? then reply.raws else [];
      for i := 0 to |raws|
        invariant State(counters, result) == Trust(State(old(counters), []), raws[..i], units)
      {
        assert raws[..i + 1][..i] == raws[..i];
        var raw := raws[i];
        if raw.Junk? || raw.support.None? { continue; }
        var refs := CollectRefs(units, raw.support.value);
        if refs == [] { continue; }
        var id := NextId(refs[0].1);
        if raw.body.Some? { result := result + [Card(id, refs, raw.body.value)]; }
      }
      assert raws[..|raws|] == raws;
    }

    /** Reduce every section. The replies arrive in any order; ids are given out in request order. */
    method ReduceAll(sections: Sections, replies: Key -> Reply, completions: seq<nat>) returns (results: Sections)
      requires forall i | 0 <= i < |completions| :: completions[i] < |sections|
      requires forall i | 0 <= i < |sections| :: i in completions
      modifies this
      ensures Reduced(counters, results) == ReduceSections(old(counters), sections, replies, |sections|)
    {
      var raw: map<Key, Reply> := map[];
      for c := 0 to |completions|
        invariant counters == old(counters)
        invariant forall i | 0 <= i < c :: sections[completions[i]].0 in raw
        invariant forall key | key in raw :: raw[key] == replies(key)
      {
        var key := sections[completions[c]].0;
        raw := raw[key := replies(key)];
      }
      hide Trust;
      results := [];
      for i := 0 to |sections|
        invariant Reduced(counters, results) == ReduceSections(old(counters), sections, replies, i)
      {
        assert i in completions;
        var key, units := sections[i].0, sections[i].1;
        var kept := units;
        if !raw[key].Failure? { kept := TrustReply(raw[key], units); }
        results := results + [(key, kept)];
      }
    }

    /** Reduce every source once more. */
    method Books(results: Sections, sources: seq<string>, replies: string -> Reply) returns (final: seq<Card>)
      modifies this
      ensures State(counters, final) == ReduceBooks(old(counters), results, sources, replies)
    {
      hide Trust, OfSource;
      final := [];
      for i := 0 to |sources|
        invariant State(counters, final) == ReduceBooks(old(counters), results, sources[..i], replies)
      {
        assert sources[..i + 1][..i] == sources[..i];
        var units := SectionUnits(results, sources[i]);
        if units == [] { continue; }
        var book := [];
        if !replies(sources[i]).Failure? { book := TrustReply(replies(sources[i]), units); }
        final := final + if book == [] then units else book;
      }
      assert sources[..|sources|] == sources;
    }

    method SectionUnits(results: Sections, source: string) returns (units: seq<Card>)
      ensures units == OfSource(results, source)
    {
      units := [];
      for i := 0 to |results|
        invariant units == OfSource(results[..i], source)
      {
        assert results[..i + 1][..i] == results[..i];
        if results[i].0.sourceId == source { units := units + results[i].1; }
      }
      assert results[..|results|] == results;
    }

    /** The chunked analysis: the bundle depends on the replies, and not on the order in which they arrive. */
    method Analyze(sources: seq<string>, chunks: seq<Chunk>, replies: seq<Reply>, synthesis: Synthesis, completions: seq<nat>)
      returns (bundle: Bundle)
      requires |chunks| == |replies| && counters == map[]
      requires synthesis.Unsupported? || var n := |MapChunks(chunks, replies, |chunks|).sections|;
               (forall i | 0 <= i < |completions| :: completions[i] < n) && forall i | 0 <= i < n :: i in completions
      modifies this
      ensures bundle == Bundle(sources, Candidates(sources, chunks, replies, synthesis))
      ensures exists t :: Explains(t, sources, chunks, replies, synthesis, bundle.candidates)
    {
      hide Explains, MapEntries, ReduceSections, ReduceBooks, SectionKey, AddTo;
      var candidates, sections: Sections := [], [];
      for i := 0 to |chunks|
        invariant MapState(counters, candidates, sections) == MapChunks(chunks, replies, i)
      {
        var units := MapReply(chunks[i], replies[i]);
        candidates := candidates + units;
        sections := AddTo(sections, SectionKey(chunks, i), units);
      }
      var final := [];
      if synthesis.Answers? {
        var results := ReduceAll(sections, synthesis.section, completions);
        final := Books(results, sources, synthesis.book);
      }
      bundle := Bundle(sources, if final != [] then final else candidates);
      Explained(sources, chunks, replies, synthesis);
    }
  }
}
