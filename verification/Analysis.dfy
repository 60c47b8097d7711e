/** Rebuilding an untrusted model's replies into candidates with ids and source references owned by the Core
    (src/book2skill/application/analyze.py). */
module Analysis {
  import opened Knowledge
  import opened Identifiers
  import opened SourceTrace

  // ---- what the model may answer ----

  /** One entry of a reply. The body is None when validation of the rebuilt candidate would fail. */
  datatype RawEntry =
    | Junk
    | RawEntry(inputId: Option<string>, support: Option<seq<Option<string>>>, body: Option<Body>)

  /** NotAList stands for every reply of the wrong shape. Failure is an exception that the program absorbs: at book
      level always, at section level where the runtime adapter makes the calls. Anywhere else an exception ends the
      analysis without a bundle. */
  datatype Reply = NotAList | Entries(raws: seq<RawEntry>) | Failure

  datatype Item = Item(inputId: string, blockId: string)

  datatype Chunk = Chunk(sourceId: string, items: seq<Item>)

  /** How many candidates each block has had. */
  type Counters = map<string, nat>

  function Count(counters: Counters, block: string): nat { if block in counters then counters[block] else 0 }

  // ---- the map step ----

  /** The item of an input id; a later one would replace an earlier one. */
  function ItemOf(items: seq<Item>, inputId: string): (i: Option<Item>)
    ensures i.Some? ==> i.value in items && i.value.inputId == inputId
  {
    if items == [] then None
    else if items[|items| - 1].inputId == inputId then Some(items[|items| - 1])
    else ItemOf(items[..|items| - 1], inputId)
  }

  datatype State = State(counters: Counters, units: seq<Card>)

  /** A number is used up even when the rebuilt candidate is invalid. */
  function Emit(s: State, block: string, refs: seq<(string, string)>, body: Option<Body>): State {
    var n := Count(s.counters, block) + 1;
    State(s.counters[block := n], s.units + if body.Some? then [Card(UnitId(block, n), refs, body.value)] else [])
  }

  function MapEntry(s: State, chunk: Chunk, raw: RawEntry): State {
    if raw.Junk? || raw.inputId.None? || ItemOf(chunk.items, raw.inputId.value).None? then s
    else
      var block := ItemOf(chunk.items, raw.inputId.value).value.blockId;
      Emit(s, block, [(chunk.sourceId, block)], raw.body)
  }

  function MapEntries(s: State, chunk: Chunk, raws: seq<RawEntry>): State {
    if raws == [] then s else MapEntry(MapEntries(s, chunk, raws[..|raws| - 1]), chunk, raws[|raws| - 1])
  }

  function Raws(r: Reply): seq<RawEntry> { if r.Entries? then r.raws else [] }

  /** Chunks of one source, four at a time, share a section. */
  datatype Key = Key(sourceId: string, section: nat)

  function ChunksBefore(chunks: seq<Chunk>, i: nat, source: string): nat
    requires i <= |chunks|
  {
    if i == 0 then 0 else ChunksBefore(chunks, i - 1, source) + if chunks[i - 1].sourceId == source then 1 else 0
  }

  function SectionKey(chunks: seq<Chunk>, i: nat): Key
    requires i < |chunks|
  {
    Key(chunks[i].sourceId, ChunksBefore(chunks, i, chunks[i].sourceId) / 4 + 1)
  }

  /** An insertion-ordered dictionary of candidate lists. */
  type Sections = seq<(Key, seq<Card>)>

  function FindKey(sections: Sections, key: Key): (at: Option<nat>)
    ensures at.Some? ==> at.value < |sections| && sections[at.value].0 == key
    ensures at.None? ==> forall i | 0 <= i < |sections| :: sections[i].0 != key
  {
    if sections == [] then None
    else if sections[|sections| - 1].0 == key then Some(|sections| - 1)
    else FindKey(sections[..|sections| - 1], key)
  }

  function AddTo(sections: Sections, key: Key, units: seq<Card>): Sections {
    if units == [] then sections
    else
      var at := FindKey(sections, key);
      if at.Some? then sections[at.value := (key, sections[at.value].1 + units)] else sections + [(key, units)]
  }

  datatype MapState = MapState(counters: Counters, candidates: seq<Card>, sections: Sections)

  function MapChunk(m: MapState, chunk: Chunk, key: Key, reply: Reply): MapState {
    var s := MapEntries(State(m.counters, []), chunk, Raws(reply));
    MapState(s.counters, m.candidates + s.units, AddTo(m.sections, key, s.units))
  }

  function MapChunks(chunks: seq<Chunk>, replies: seq<Reply>, i: nat): MapState
    requires i <= |chunks| == |replies|
  {
    if i == 0 then MapState(map[], [], [])
    else MapChunk(MapChunks(chunks, replies, i - 1), chunks[i - 1], SectionKey(chunks, i - 1), replies[i - 1])
  }

  // ---- reduction ----

  /** The unit of an id among those that were sent. */
  function ById(units: seq<Card>, id: string): (u: Option<Card>)
    ensures u.Some? ==> u.value in units && u.value.unitId == id
  {
    if units == [] then None
    else if units[|units| - 1].unitId == id then Some(units[|units| - 1])
    else ById(units[..|units| - 1], id)
  }

  function AddNew(refs: seq<(string, string)>, more: seq<(string, string)>): seq<(string, string)> {
    if more == [] then refs
    else
      var first := AddNew(refs, more[..|more| - 1]);
      if more[|more| - 1] in first then first else first + [more[|more| - 1]]
  }

  /** The references of the supporting units that exist, each once. */
  function SupportRefs(units: seq<Card>, support: seq<Option<string>>): seq<(string, string)> {
    if support == [] then []
    else
      var before, id := SupportRefs(units, support[..|support| - 1]), support[|support| - 1];
      if id.Some? && ById(units, id.value).Some? then AddNew(before, ById(units, id.value).value.refs) else before
  }

  function TrustEntry(s: State, raw: RawEntry, units: seq<Card>): State {
    if raw.Junk? || raw.support.None? then s
    else
      var refs := SupportRefs(units, raw.support.value);
      if refs == [] then s else Emit(s, refs[0].1, refs, raw.body)
  }

  function Trust(s: State, raws: seq<RawEntry>, units: seq<Card>): State {
    if raws == [] then s else TrustEntry(Trust(s, raws[..|raws| - 1], units), raws[|raws| - 1], units)
  }

  datatype Reduced = Reduced(counters: Counters, results: Sections)

  /** Sections in request order; a failed reduction keeps the cards it was given. */
  function ReduceSections(counters: Counters, sections: Sections, replies: Key -> Reply, i: nat): Reduced
    requires i <= |sections|
  {
    if i == 0 then Reduced(counters, [])
    else
      var r, (key, units) := ReduceSections(counters, sections, replies, i - 1), sections[i - 1];
      if replies(key).Failure? then Reduced(r.counters, r.results + [(key, units)])
      else
        var s := Trust(State(r.counters, []), Raws(replies(key)), units);
        Reduced(s.counters, r.results + [(key, s.units)])
  }

  function OfSource(results: Sections, source: string): seq<Card> {
    if results == [] then []
    else OfSource(results[..|results| - 1], source) + if results[|results| - 1].0.sourceId == source then results[|results| - 1].1 else []
  }

  /** One source at book level; nothing usable keeps the section results. */
  function ReduceBook(s: State, results: Sections, source: string, reply: Reply): State {
    var units := OfSource(results, source);
    if units == [] then s
    else if reply.Failure? then State(s.counters, s.units + units)
    else
      var t := Trust(State(s.counters, []), Raws(reply), units);
      State(t.counters, s.units + if t.units == [] then units else t.units)
  }

  function ReduceBooks(counters: Counters, results: Sections, sources: seq<string>, replies: string -> Reply): State {
    if sources == [] then State(counters, [])
    else ReduceBook(ReduceBooks(counters, results, sources[..|sources| - 1], replies), results, sources[|sources| - 1], replies(sources[|sources| - 1]))
  }

  /** An adapter may have no synthesizer; otherwise it answers for every section and every book. */
  datatype Synthesis = Unsupported | Answers(section: Key -> Reply, book: string -> Reply)

  /** The candidates of a chunked analysis: the book-level result, or the map result if there is none. */
  function Candidates(sources: seq<string>, chunks: seq<Chunk>, map_: seq<Reply>, synthesis: Synthesis): seq<Card>
    requires |chunks| == |map_|
  {
    var m := MapChunks(chunks, map_, |chunks|);
    if synthesis.Unsupported? then m.candidates
    else
      var r := ReduceSections(m.counters, m.sections, synthesis.section, |m.sections|);
      var final := ReduceBooks(r.counters, r.results, sources, synthesis.book);
      if final.units != [] then final.units else m.candidates
  }

  // ---- the analysis that asks block by block ----

  function PlainEntries(source: string, block: string, bodies: seq<Option<Body>>): seq<Card> {
    if bodies == [] then []
    else
      PlainEntries(source, block, bodies[..|bodies| - 1]) +
      if bodies[|bodies| - 1].Some? then [Card(UnitId(block, |bodies|), [(source, block)], bodies[|bodies| - 1].value)] else []
  }

  /** Blocks as (source, block id), with one list of entries each. */
  function PlainCandidates(blocks: seq<(string, string)>, replies: seq<seq<Option<Body>>>): seq<Card>
    requires |blocks| == |replies|
  {
    if blocks == [] then []
    else
      var n := |blocks| - 1;
      PlainCandidates(blocks[..n], replies[..n]) + PlainEntries(blocks[n].0, blocks[n].1, replies[n])
  }
}
