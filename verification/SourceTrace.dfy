/** The two gates around the analysis: what an extractor must return
    (src/book2skill/extractors/base.py, lines 192-248) and what a bundle must refer to
    (src/book2skill/application/bundle_trace.py). */
module SourceTrace {
  import opened Knowledge
  import opened Identifiers
  import Text

  // ---- extraction ----

  datatype Locator = Locator(kind: LocatorKind, value: string)

  datatype Block = Block(text: string, locator: Locator)

  /** A text hash is modelled by the text it was taken of. */
  datatype Entry = Entry(blockId: string, sourceId: string, textHashed: string, locator: Locator)

  datatype Manifest = Manifest(sourceId: string, format: string, contentHash: string, version: nat)

  datatype Extraction = Extraction(manifest: Manifest, blocks: seq<Block>, entries: seq<Entry>)

  /** What every extraction must satisfy. */
  ghost predicate Contract(x: Extraction, source: string, format: string, hash: Option<string>) {
    && x.manifest.sourceId == source && x.manifest.format == format && (hash.Some? ==> x.manifest.contentHash == hash.value)
    && x.blocks != [] && |x.blocks| == |x.entries|
    && forall i | 0 <= i < |x.blocks| :: EntryFits(x, source, i)
  }

  datatype Issue = WrongSource | WrongFormat | WrongHash | NoBlocks | CountsDiffer
                 | Blank(at: nat) | EntrySource(at: nat) | EntryLocator(at: nat) | EntryHash(at: nat) | EntryId(at: nat) | Duplicate(at: nat)

  /** Collect every issue. Lists of different length make the program raise before it reports them; it is
      refused either way. */
  method ValidateExtraction(x: Extraction, source: string, format: string, hash: Option<string>) returns (issues: seq<Issue>)
    ensures issues == [] <==> Contract(x, source, format, hash)
  {
    hide EntryFits;
    issues := [];
    if x.manifest.sourceId != source { issues := issues + [WrongSource]; }
    if x.manifest.format != format { issues := issues + [WrongFormat]; }
    if hash.Some? && x.manifest.contentHash != hash.value { issues := issues + [WrongHash]; }
    if x.blocks == [] { issues := issues + [NoBlocks]; }
    if |x.blocks| != |x.entries| { return issues + [CountsDiffer]; }
    ghost var before := issues;
    var seen := {};
    for i := 0 to |x.blocks|
      invariant |before| <= |issues| && (issues == [] ==> before == [])
      invariant issues == [] ==> forall id | id in seen :: exists j | 0 <= j < i :: x.entries[j].blockId == id
      invariant before == [] ==> (issues == [] <==> forall j | 0 <= j < i :: EntryFits(x, source, j))
    {
      var more := CheckEntry(x, source, i);
      ghost var sofar := issues;
      issues := issues + more;
      assert issues == [] <==> sofar == [] && EntryFits(x, source, i);
      assert issues == [] ==> forall j | 0 <= j <= i :: EntryFits(x, source, j);
      if x.entries[i].blockId in seen {
        if issues == [] { NoRepeat(x, source, i); }
        issues := issues + [Duplicate(i + 1)];
      }
      seen := seen + {x.entries[i].blockId};
    }
  }

  method CheckEntry(x: Extraction, source: string, i: nat) returns (issues: seq<Issue>)
    requires i < |x.blocks| == |x.entries|
    ensures issues == [] <==> EntryFits(x, source, i)
  {
    hide Text.Strip, BlockId;
    var block, entry := x.blocks[i], x.entries[i];
    issues := [];
    if Text.Strip(block.text) == [] { issues := issues + [Blank(i + 1)]; }
    if entry.sourceId != source { issues := issues + [EntrySource(i + 1)]; }
    if entry.locator != block.locator { issues := issues + [EntryLocator(i + 1)]; }
    if entry.textHashed != block.text { issues := issues + [EntryHash(i + 1)]; }
    if entry.blockId != BlockId(source, block.locator.kind, i + 1) { issues := issues + [EntryId(i + 1)]; }
  }

  ghost predicate EntryFits(x: Extraction, source: string, i: nat)
    requires i < |x.blocks| == |x.entries|
  {
    && Text.Strip(x.blocks[i].text) != []
    && x.entries[i].sourceId == source && x.entries[i].locator == x.blocks[i].locator
    && x.entries[i].textHashed == x.blocks[i].text
    && x.entries[i].blockId == BlockId(source, x.blocks[i].locator.kind, i + 1)
  }

  /** The check for repeated ids never fires on its own: derived ids differ. */
  lemma NoRepeat(x: Extraction, source: string, i: nat)
    requires i < |x.blocks| == |x.entries| && forall j | 0 <= j <= i :: EntryFits(x, source, j)
    ensures forall j | 0 <= j < i :: x.entries[j].blockId != x.entries[i].blockId
  {
    assert EntryFits(x, source, i);
    forall j | 0 <= j < i ensures x.entries[j].blockId != x.entries[i].blockId {
      assert EntryFits(x, source, j);
      if x.entries[j].blockId == x.entries[i].blockId {
        BlockIdInjective(source, source, x.blocks[j].locator.kind, x.blocks[i].locator.kind, j + 1, i + 1);
      }
    }
  }

  lemma ContractIds(x: Extraction, source: string, format: string, hash: Option<string>)
    requires Contract(x, source, format, hash)
    ensures forall i, j | 0 <= i < j < |x.entries| :: x.entries[i].blockId != x.entries[j].blockId
    ensures forall i | 0 <= i < |x.entries| :: x.entries[i].blockId != []
  {
    forall i | 0 <= i < |x.blocks| ensures x.entries[i].blockId != [] && forall j | 0 <= j < i :: x.entries[j].blockId != x.entries[i].blockId {
      assert EntryFits(x, source, i);
      NoRepeat(x, source, i);
    }
  }

  // ---- raw storage and bundles ----

  datatype RawRecord = RawRecord(manifest: Manifest, map_: seq<Entry>)

  /** What the Raw layer holds under a source and version. */
  type RawStorage = map<(string, nat), RawRecord>

  datatype Card = Card(unitId: string, refs: seq<(string, string)>, body: Body)

  datatype Body = Body(kind: string, content: string)

  datatype Bundle = Bundle(sourceIds: seq<string>, candidates: seq<Card>)

  datatype Verdict = Accepted | Refused

  /** Everything that verification demands of the Raw record of one source. */
  ghost predicate RawInOrder(raw: RawStorage, source: string, version: nat) {
    && (source, version) in raw
    && var record := raw[(source, version)];
       && record.manifest.sourceId == source && record.manifest.version == version
       && (forall i | 0 <= i < |record.map_| :: record.map_[i].sourceId == source)
       && (forall i, j | 0 <= i < j < |record.map_| :: record.map_[i].blockId != record.map_[j].blockId)
  }

  ghost predicate RawHas(raw: RawStorage, source: string, version: nat, block: string) {
    (source, version) in raw && exists i | 0 <= i < |raw[(source, version)].map_| :: raw[(source, version)].map_[i].blockId == block
  }

  ghost predicate Traceable(b: Bundle, raw: RawStorage, version: nat) {
    && (forall i, j | 0 <= i < j < |b.sourceIds| :: b.sourceIds[i] != b.sourceIds[j])
    && (forall i | 0 <= i < |b.sourceIds| :: RawInOrder(raw, b.sourceIds[i], version))
    && (forall i, k | 0 <= i < |b.candidates| && 0 <= k < |b.candidates[i].refs| :: RefInOrder(b, raw, version, b.candidates[i].refs[k]))
  }

  ghost predicate RefInOrder(b: Bundle, raw: RawStorage, version: nat, ref: (string, string)) {
    ref.0 != [] && ref.1 != [] && ref.0 in b.sourceIds && RawHas(raw, ref.0, version, ref.1)
  }

  /** Verification accepts exactly the traceable bundles; it raises on the first violation. */
  method VerifyBundle(b: Bundle, raw: RawStorage, version: nat) returns (v: Verdict)
    ensures v == Accepted <==> Traceable(b, raw, version)
  {
    hide RawInOrder, RawHas;
    var declared := {};
    for i := 0 to |b.sourceIds|
      invariant forall x :: x in declared <==> x in b.sourceIds[..i]
      invariant forall j, k | 0 <= j < k < i :: b.sourceIds[j] != b.sourceIds[k]
    {
      if b.sourceIds[i] in declared {
        var j :| 0 <= j < i && b.sourceIds[j] == b.sourceIds[i];
        return Refused;
      }
      declared := declared + {b.sourceIds[i]};
    }
    assert b.sourceIds[..|b.sourceIds|] == b.sourceIds;
    var references := [];
    for i := 0 to |b.candidates|
      invariant forall r :: r in references <==> exists j, k | 0 <= j < i && 0 <= k < |b.candidates[j].refs| :: b.candidates[j].refs[k] == r
      invariant forall r | r in references :: r.0 != [] && r.1 != [] && r.0 in declared
    {
      for k := 0 to |b.candidates[i].refs|
        invariant forall r :: r in references <==>
                    || (exists j, l | 0 <= j < i && 0 <= l < |b.candidates[j].refs| :: b.candidates[j].refs[l] == r)
                    || (exists l | 0 <= l < k :: b.candidates[i].refs[l] == r)
        invariant forall r | r in references :: r.0 != [] && r.1 != [] && r.0 in declared
      {
        var ref := b.candidates[i].refs[k];
        if ref.0 == [] || ref.1 == [] || ref.0 !in declared {
          assert !RefInOrder(b, raw, version, b.candidates[i].refs[k]);
          return Refused;
        }
        references := references + [ref];
      }
    }
    v := VerifyReferences(b.sourceIds, references, raw, version);
    References(b, references, raw, version);
  }

  ghost predicate ReferencesHold(sources: seq<string>, references: seq<(string, string)>, raw: RawStorage, version: nat) {
    && (forall i | 0 <= i < |sources| :: RawInOrder(raw, sources[i], version))
    && (forall r | r in references :: RawHas(raw, r.0, version, r.1))
  }

  lemma References(b: Bundle, references: seq<(string, string)>, raw: RawStorage, version: nat)
    requires forall i, j | 0 <= i < j < |b.sourceIds| :: b.sourceIds[i] != b.sourceIds[j]
    requires forall r :: r in references <==> exists j, k | 0 <= j < |b.candidates| && 0 <= k < |b.candidates[j].refs| :: b.candidates[j].refs[k] == r
    requires forall r | r in references :: r.0 != [] && r.1 != [] && r.0 in b.sourceIds
    ensures ReferencesHold(b.sourceIds, references, raw, version) <==> Traceable(b, raw, version)
  {
    hide RawInOrder, RawHas;
    if ReferencesHold(b.sourceIds, references, raw, version) {
      forall i, k | 0 <= i < |b.candidates| && 0 <= k < |b.candidates[i].refs| ensures RefInOrder(b, raw, version, b.candidates[i].refs[k]) {
        assert b.candidates[i].refs[k] in references;
      }
    }
    if Traceable(b, raw, version) {
      forall r | r in references ensures RawHas(raw, r.0, version, r.1) {
        var j, k :| 0 <= j < |b.candidates| && 0 <= k < |b.candidates[j].refs| && b.candidates[j].refs[k] == r;
        assert RefInOrder(b, raw, version, b.candidates[j].refs[k]);
      }
    }
  }

  method VerifyReferences(sources: seq<string>, references: seq<(string, string)>, raw: RawStorage, version: nat) returns (v: Verdict)
    requires forall r | r in references :: r.0 in sources
    ensures v == Accepted <==> ReferencesHold(sources, references, raw, version)
  {
    var blocks: map<string, set<string>> := map[];
    for i := 0 to |sources|
      invariant forall s :: s in blocks <==> s in sources[..i]
      invariant forall j | 0 <= j < i :: RawInOrder(raw, sources[j], version)
      invariant forall s, x | s in blocks :: x in blocks[s] <==> RawHas(raw, s, version, x)
    {
      var ok, ids := TrustedBlocks(raw, sources[i], version);
      if !ok { return Refused; }
      hide RawInOrder, RawHas;
      blocks := blocks[sources[i] := ids];
    }
    assert sources[..|sources|] == sources;
    hide RawInOrder, RawHas;
    for i := 0 to |references|
      invariant forall j | 0 <= j < i :: RawHas(raw, references[j].0, version, references[j].1)
    {
      assert references[i] in references;
      if references[i].1 !in blocks[references[i].0] { return Refused; }
    }
    return Accepted;
  }

  method TrustedBlocks(raw: RawStorage, source: string, version: nat) returns (ok: bool, ids: set<string>)
    ensures ok <==> RawInOrder(raw, source, version)
    ensures ok ==> forall x :: x in ids <==> RawHas(raw, source, version, x)
  {
    ids := {};
    if (source, version) !in raw { return false, ids; }
    var record := raw[(source, version)];
    if record.manifest.sourceId != source || record.manifest.version != version { return false, ids; }
    for i := 0 to |record.map_|
      invariant forall x :: x in ids <==> exists j | 0 <= j < i :: record.map_[j].blockId == x
      invariant forall j | 0 <= j < i :: record.map_[j].sourceId == source
      invariant forall j, k | 0 <= j < k < i :: record.map_[j].blockId != record.map_[k].blockId
    {
      var entry := record.map_[i];
      if entry.sourceId != source { return false, ids; }
      if entry.blockId in ids { return false, ids; }
      ids := ids + {entry.blockId};
    }
    ok := true;
  }
}
