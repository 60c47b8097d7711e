/** What the cards of a chunked analysis are, entry by entry of the replies
    (src/book2skill/application/analyze.py, lines 495-503, 715-781 and 796-1059). */
module AnalysisOutcome {
  import opened Knowledge
  import opened Identifiers
  import opened SourceTrace
  import opened Analysis

  type Refs = seq<(string, string)>

  // ---- rebuilding the entries of one reply ----

  /** How many entries take a number of the block. */
  function Uses(offers: seq<Option<Refs>>, block: string): nat {
    if offers == [] then 0
    else
      var last := offers[|offers| - 1];
      Uses(offers[..|offers| - 1], block) + if last.Some? && last.value != [] && last.value[0].1 == block then 1 else 0
  }

  /** The entry is given references and has a valid body. */
  predicate Accepted(raws: seq<RawEntry>, offers: seq<Option<Refs>>, k: int) {
    0 <= k < |raws| && k < |offers| && offers[k].Some? && offers[k].value != [] && raws[k].RawEntry? && raws[k].body.Some?
  }

  /** The accepted entries, in order. */
  ghost predicate Selects(raws: seq<RawEntry>, offers: seq<Option<Refs>>, at: seq<nat>) {
    && (forall i | 0 <= i < |at| :: Accepted(raws, offers, at[i]))
    && (forall i, j | 0 <= i < j < |at| :: at[i] < at[j])
    && (forall k | Accepted(raws, offers, k) :: k in at)
  }

  /** The card of entry k: its references and its body, and the next number of the block of its first reference;
      entries without a valid body take numbers too. */
  ghost predicate CardOf(c: Counters, raws: seq<RawEntry>, offers: seq<Option<Refs>>, k: nat, u: Card) {
    && Accepted(raws, offers, k)
    && u.refs == offers[k].value && u.body == raws[k].body.value
    && var block := offers[k].value[0].1; u.unitId == UnitId(block, Count(c, block) + Uses(offers[..k + 1], block))
  }

  ghost predicate CardsOf(c: Counters, raws: seq<RawEntry>, offers: seq<Option<Refs>>, at: seq<nat>, cards: seq<Card>) {
    |at| == |cards| && Selects(raws, offers, at) && forall i | 0 <= i < |at| :: CardOf(c, raws, offers, at[i], cards[i])
  }

  /** Exactly one card for every accepted entry, in order; the counters advance by the numbers taken. */
  ghost predicate Rebuilt(c: Counters, raws: seq<RawEntry>, offers: seq<Option<Refs>>, d: Counters, cards: seq<Card>) {
    && |offers| == |raws|
    && (forall b :: Count(d, b) == Count(c, b) + Uses(offers, b))
    && (exists at :: CardsOf(c, raws, offers, at, cards))
  }

  lemma UsesSnoc(offers: seq<Option<Refs>>, o: Option<Refs>, block: string)
    ensures Uses(offers + [o], block) == Uses(offers, block) + if o.Some? && o.value != [] && o.value[0].1 == block then 1 else 0
  {
    assert (offers + [o])[..|offers|] == offers;
  }

  lemma CardLater(c: Counters, raws: seq<RawEntry>, offers: seq<Option<Refs>>, raw: RawEntry, o: Option<Refs>, k: nat, u: Card)
    requires |raws| == |offers| && CardOf(c, raws, offers, k, u)
    ensures CardOf(c, raws + [raw], offers + [o], k, u)
  {
    assert (offers + [o])[..k + 1] == offers[..k + 1];
  }

  lemma NewCard(c: Counters, raws: seq<RawEntry>, offers: seq<Option<Refs>>, n: nat, raw: RawEntry, refs: Refs)
    requires |raws| == |offers| && raw.RawEntry? && raw.body.Some? && refs != [] && n == Count(c, refs[0].1) + Uses(offers, refs[0].1)
    ensures CardOf(c, raws + [raw], offers + [Some(refs)], |raws|, Card(UnitId(refs[0].1, n + 1), refs, raw.body.value))
  {
    UsesSnoc(offers, Some(refs), refs[0].1);
    assert (offers + [Some(refs)])[..|raws| + 1] == offers + [Some(refs)];
  }

  lemma AddCard(c: Counters, raws: seq<RawEntry>, offers: seq<Option<Refs>>, at: seq<nat>, cards: seq<Card>, raw: RawEntry, refs: Refs, u: Card)
    requires |raws| == |offers| && raw.RawEntry? && raw.body.Some? && refs != []
    requires CardsOf(c, raws, offers, at, cards) && CardOf(c, raws + [raw], offers + [Some(refs)], |raws|, u)
    ensures CardsOf(c, raws + [raw], offers + [Some(refs)], at + [|raws|], cards + [u])
  {
    hide CardOf;
    forall i | 0 <= i < |at| ensures CardOf(c, raws + [raw], offers + [Some(refs)], at[i], cards[i]) {
      CardLater(c, raws, offers, raw, Some(refs), at[i], cards[i]);
    }
    forall k | Accepted(raws + [raw], offers + [Some(refs)], k) ensures k in at + [|raws|] {
      assert k < |raws| ==> Accepted(raws, offers, k);
    }
  }

  lemma NoCard(c: Counters, raws: seq<RawEntry>, offers: seq<Option<Refs>>, at: seq<nat>, cards: seq<Card>, raw: RawEntry, o: Option<Refs>)
    requires |raws| == |offers| && (o.None? || (raw.RawEntry? && raw.body.None?))
    requires CardsOf(c, raws, offers, at, cards)
    ensures CardsOf(c, raws + [raw], offers + [o], at, cards)
  {
    hide CardOf;
    forall i | 0 <= i < |at| ensures CardOf(c, raws + [raw], offers + [o], at[i], cards[i]) {
      CardLater(c, raws, offers, raw, o, at[i], cards[i]);
    }
    forall k | Accepted(raws + [raw], offers + [o], k) ensures k in at { assert Accepted(raws, offers, k); }
  }

  /** One entry more that is offered nothing. */
  lemma RebuiltNothing(c: Counters, raws: seq<RawEntry>, offers: seq<Option<Refs>>, d: Counters, cards: seq<Card>, raw: RawEntry)
    requires Rebuilt(c, raws, offers, d, cards)
    ensures Rebuilt(c, raws + [raw], offers + [None], d, cards)
  {
    hide Uses, CardsOf;
    var at :| CardsOf(c, raws, offers, at, cards);
    forall b ensures Uses(offers + [None], b) == Uses(offers, b) { UsesSnoc(offers, None, b); }
    NoCard(c, raws, offers, at, cards, raw, None);
  }

  /** One entry more that is offered references: it takes a number, and yields a card if its body is valid. */
  lemma RebuiltOffer(c: Counters, raws: seq<RawEntry>, offers: seq<Option<Refs>>, s: State, raw: RawEntry, refs: Refs)
    requires Rebuilt(c, raws, offers, s.counters, s.units) && refs != [] && raw.RawEntry?
    ensures var t := Emit(s, refs[0].1, refs, raw.body); Rebuilt(c, raws + [raw], offers + [Some(refs)], t.counters, t.units)
  {
    hide Uses, CardsOf, CardOf, UnitId;
    var at :| CardsOf(c, raws, offers, at, s.units);
    var t, block := Emit(s, refs[0].1, refs, raw.body), refs[0].1;
    forall b ensures Count(t.counters, b) == Count(c, b) + Uses(offers + [Some(refs)], b) { UsesSnoc(offers, Some(refs), b); }
    if raw.body.Some? {
      NewCard(c, raws, offers, Count(s.counters, block), raw, refs);
      AddCard(c, raws, offers, at, s.units, raw, refs, Card(UnitId(block, Count(s.counters, block) + 1), refs, raw.body.value));
    } else {
      NoCard(c, raws, offers, at, s.units, raw, Some(refs));
      assert t.units == s.units;
    }
  }

  // ---- the map step ----

  /** The item of an input id; the last one, should there be several. */
  ghost predicate ItemNamed(items: seq<Item>, id: string, item: Item) {
    exists k | 0 <= k < |items| :: items[k] == item && item.inputId == id && forall j | k < j < |items| :: items[j].inputId != id
  }

  predicate NamesItem(chunk: Chunk, raw: RawEntry) {
    raw.RawEntry? && raw.inputId.Some? && exists k | 0 <= k < |chunk.items| :: chunk.items[k].inputId == raw.inputId.value
  }

  /** An entry is offered the block of the item that it names, as its one reference. */
  ghost predicate MapOffer(chunk: Chunk, raw: RawEntry, o: Option<Refs>) {
    if NamesItem(chunk, raw) then exists item :: ItemNamed(chunk.items, raw.inputId.value, item) && o == Some([(chunk.sourceId, item.blockId)])
    else o == None
  }

  ghost predicate MapOffers(chunk: Chunk, raws: seq<RawEntry>, offers: seq<Option<Refs>>) {
    |offers| == |raws| && forall k | 0 <= k < |raws| :: MapOffer(chunk, raws[k], offers[k])
  }

  /** The cards of one chunk. */
  ghost predicate MapReplyIs(c: Counters, chunk: Chunk, reply: Reply, d: Counters, cards: seq<Card>) {
    if reply.Entries? then exists offers :: MapOffers(chunk, reply.raws, offers) && Rebuilt(c, reply.raws, offers, d, cards)
    else d == c && cards == []
  }

  lemma {:induction false} ItemOfIs(items: seq<Item>, id: string)
    ensures ItemOf(items, id).Some? ==> ItemNamed(items, id, ItemOf(items, id).value)
    ensures ItemOf(items, id).None? ==> forall k | 0 <= k < |items| :: items[k].inputId != id
  {
    if items != [] {
      var init, n := items[..|items| - 1], |items| - 1;
      if items[n].inputId == id {
        assert items[n] == items[|items| - 1];
      } else {
        ItemOfIs(init, id);
        var item := ItemOf(items, id);
        assert item == ItemOf(init, id);
        hide ItemOf;
        assert forall k | 0 <= k < n :: items[k] == init[k];
        if item.Some? { ItemLater(items, id, item.value); }
      }
    }
  }

  lemma ItemLater(items: seq<Item>, id: string, item: Item)
    requires items != [] && ItemNamed(items[..|items| - 1], id, item) && items[|items| - 1].inputId != id
    ensures ItemNamed(items, id, item)
  {
    var init := items[..|items| - 1];
    var k :| 0 <= k < |init| && init[k] == item && item.inputId == id && forall j | k < j < |init| :: init[j].inputId != id;
    assert items[k] == item && forall j | k < j < |items| - 1 :: items[j] == init[j];
  }

  lemma NothingRebuilt(c: Counters)
    ensures Rebuilt(c, [], [], c, [])
  {
    assert CardsOf(c, [], [], [], []);
  }

  lemma {:induction false} MapEntriesAre(c: Counters, chunk: Chunk, raws: seq<RawEntry>) returns (offers: seq<Option<Refs>>)
    ensures var s := MapEntries(State(c, []), chunk, raws); MapOffers(chunk, raws, offers) && Rebuilt(c, raws, offers, s.counters, s.units)
  {
    hide Rebuilt, Emit, ItemNamed;
    if raws == [] {
      NothingRebuilt(c);
      offers := [];
    } else {
      var init, raw := raws[..|raws| - 1], raws[|raws| - 1];
      var before := MapEntriesAre(c, chunk, init);
      assert raws == init + [raw];
      var s := MapEntries(State(c, []), chunk, init);
      if raw.RawEntry? && raw.inputId.Some? { ItemOfIs(chunk.items, raw.inputId.value); }
      hide ItemOf;
      if NamesItem(chunk, raw) {
        var block := ItemOf(chunk.items, raw.inputId.value).value.blockId;
        RebuiltOffer(c, init, before, s, raw, [(chunk.sourceId, block)]);
        offers := before + [Some([(chunk.sourceId, block)])];
      } else {
        RebuiltNothing(c, init, before, s.counters, s.units, raw);
        offers := before + [None];
      }
    }
  }

  lemma MapReplyHolds(c: Counters, chunk: Chunk, reply: Reply)
    ensures var s := MapEntries(State(c, []), chunk, Raws(reply)); MapReplyIs(c, chunk, reply, s.counters, s.units)
  {
    hide MapOffers, Rebuilt;
    if reply.Entries? { var offers := MapEntriesAre(c, chunk, reply.raws); }
  }

  // ---- reduction ----

  /** The unit of an id among those that were sent; the last one, should there be several. */
  ghost predicate IsUnit(units: seq<Card>, id: string, u: Card) {
    exists k | 0 <= k < |units| :: units[k] == u && u.unitId == id && forall j | k < j < |units| :: units[j].unitId != id
  }

  /** The unit that support entry k names has r as its reference l. */
  ghost predicate CitedAt(units: seq<Card>, support: seq<Option<string>>, k: nat, l: nat, r: (string, string)) {
    k < |support| && support[k].Some? && exists u :: IsUnit(units, support[k].value, u) && l < |u.refs| && u.refs[l] == r
  }

  ghost predicate Cited(units: seq<Card>, support: seq<Option<string>>, r: (string, string)) {
    exists k: nat, l: nat :: CitedAt(units, support, k, l, r)
  }

  ghost predicate CitedFirst(units: seq<Card>, support: seq<Option<string>>, r: (string, string), q: (string, string)) {
    exists k: nat, l: nat :: CitedAt(units, support, k, l, r) && forall m: nat, n: nat | CitedAt(units, support, m, n, q) :: k < m || (k == m && l < n)
  }

  /** The references of the supporting units that exist, each once, in the order of their first citation. */
  ghost predicate RefsOf(units: seq<Card>, support: seq<Option<string>>, refs: Refs) {
    && (forall i, j | 0 <= i < j < |refs| :: refs[i] != refs[j])
    && (forall r :: r in refs <==> Cited(units, support, r))
    && (forall i, j | 0 <= i < j < |refs| :: CitedFirst(units, support, refs[i], refs[j]))
  }

  /** An entry is offered the references of its support, if it has any. */
  ghost predicate BookOffer(units: seq<Card>, raw: RawEntry, o: Option<Refs>) {
    if raw.RawEntry? && raw.support.Some? && exists r :: Cited(units, raw.support.value, r)
    then o.Some? && RefsOf(units, raw.support.value, o.value) else o == None
  }

  ghost predicate BookOffers(units: seq<Card>, raws: seq<RawEntry>, offers: seq<Option<Refs>>) {
    |offers| == |raws| && forall k | 0 <= k < |raws| :: BookOffer(units, raws[k], offers[k])
  }

  /** The cards rebuilt from a reduction of the units. */
  ghost predicate ReductionIs(c: Counters, units: seq<Card>, reply: Reply, d: Counters, cards: seq<Card>) {
    if reply.Entries? then exists offers :: BookOffers(units, reply.raws, offers) && Rebuilt(c, reply.raws, offers, d, cards)
    else d == c && cards == []
  }

  lemma {:induction false} ByIdNamed(units: seq<Card>, id: string)
    ensures ById(units, id).Some? ==> IsUnit(units, id, ById(units, id).value)
    ensures ById(units, id).None? ==> forall k | 0 <= k < |units| :: units[k].unitId != id
  {
    if units != [] {
      var init, n := units[..|units| - 1], |units| - 1;
      if units[n].unitId == id {
        assert units[n] == units[|units| - 1];
      } else {
        ByIdNamed(init, id);
        var u := ById(units, id);
        assert u == ById(init, id);
        hide ById;
        assert forall k | 0 <= k < n :: units[k] == init[k];
        if u.Some? { UnitLater(units, id, u.value); }
      }
    }
  }

  lemma UnitLater(units: seq<Card>, id: string, u: Card)
    requires units != [] && IsUnit(units[..|units| - 1], id, u) && units[|units| - 1].unitId != id
    ensures IsUnit(units, id, u)
  {
    var init := units[..|units| - 1];
    var k :| 0 <= k < |init| && init[k] == u && u.unitId == id && forall j | k < j < |init| :: init[j].unitId != id;
    assert units[k] == u && forall j | k < j < |units| - 1 :: units[j] == init[j];
  }

  lemma ByIdIs(units: seq<Card>, id: string, u: Card)
    ensures IsUnit(units, id, u) <==> ById(units, id) == Some(u)
  {
    ByIdNamed(units, id);
    hide ById;
    if IsUnit(units, id, u) {
      var k :| 0 <= k < |units| && units[k] == u && u.unitId == id && forall j | k < j < |units| :: units[j].unitId != id;
      var v := ById(units, id).value;
      var l :| 0 <= l < |units| && units[l] == v && v.unitId == id && forall j | l < j < |units| :: units[j].unitId != id;
      assert k == l;
    }
  }

  /** What is added to a list of references: those that are new, each once, in order of first appearance. */
  ghost predicate FirstOf(more: Refs, r: (string, string), q: (string, string)) {
    exists l: nat | l < |more| :: more[l] == r && forall m | 0 <= m <= l :: more[m] != q
  }

  lemma {:induction false} AddedInOrder(refs: Refs, more: Refs)
    requires forall i, j | 0 <= i < j < |refs| :: refs[i] != refs[j]
    ensures var all := AddNew(refs, more);
            && refs <= all && (forall r :: r in all <==> r in refs || r in more)
            && (forall i, j | 0 <= i < j < |all| :: all[i] != all[j])
            && (forall i, j | |refs| <= i < j < |all| :: FirstOf(more, all[i], all[j]))
  {
    if more != [] {
      var init, last := more[..|more| - 1], more[|more| - 1];
      AddedInOrder(refs, init);
      assert more == init + [last];
      var was, all := AddNew(refs, init), AddNew(refs, more);
      assert all == if last in was then was else was + [last];
      hide AddNew;
      forall i, j | |refs| <= i < j < |all| ensures FirstOf(more, all[i], all[j]) {
        if j < |was| {
          assert FirstOf(init, was[i], was[j]);
          FirstLater(init, was[i], was[j], last);
        } else {
          assert was[i] in was && was[i] !in refs by { NotEarlier(refs, was, i); }
          var l: nat :| l < |init| && init[l] == was[i];
          assert more[l] == all[i] && forall m | 0 <= m <= l :: more[m] == init[m] && init[m] in was;
        }
      }
    }
  }

  lemma NotEarlier(refs: Refs, all: Refs, i: nat)
    requires refs <= all && |refs| <= i < |all| && forall i, j | 0 <= i < j < |all| :: all[i] != all[j]
    ensures all[i] !in refs
  {
    assert forall k | 0 <= k < |refs| :: all[k] == refs[k];
  }

  lemma FirstLater(more: Refs, r: (string, string), q: (string, string), last: (string, string))
    requires FirstOf(more, r, q)
    ensures FirstOf(more + [last], r, q)
  {
    var l: nat :| l < |more| && more[l] == r && forall m | 0 <= m <= l :: more[m] != q;
    assert (more + [last])[l] == r && forall m | 0 <= m <= l :: (more + [last])[m] == more[m];
  }

  /** The references of a support entry. */
  function Named(units: seq<Card>, id: Option<string>): Refs {
    if id.Some? && ById(units, id.value).Some? then ById(units, id.value).value.refs else []
  }

  lemma CitedSnoc(units: seq<Card>, support: seq<Option<string>>, id: Option<string>, k: nat, l: nat, r: (string, string))
    ensures CitedAt(units, support + [id], k, l, r) <==>
              if k < |support| then CitedAt(units, support, k, l, r) else k == |support| && l < |Named(units, id)| && Named(units, id)[l] == r
  {
    if k == |support| && id.Some? {
      hide IsUnit, ById;
      forall u ensures IsUnit(units, id.value, u) <==> ById(units, id.value) == Some(u) { ByIdIs(units, id.value, u); }
    }
  }

  lemma CitedMore(units: seq<Card>, support: seq<Option<string>>, id: Option<string>, r: (string, string))
    ensures Cited(units, support + [id], r) <==> Cited(units, support, r) || r in Named(units, id)
  {
    hide CitedAt, Named;
    var all := support + [id];
    if Cited(units, all, r) {
      var k: nat, l: nat :| CitedAt(units, all, k, l, r);
      CitedSnoc(units, support, id, k, l, r);
    }
    if Cited(units, support, r) {
      var k: nat, l: nat :| CitedAt(units, support, k, l, r);
      assert k < |support| by { CitedBefore(units, support, k, l, r); }
      CitedSnoc(units, support, id, k, l, r);
      assert CitedAt(units, all, k, l, r);
    }
    if r in Named(units, id) {
      var l: nat :| l < |Named(units, id)| && Named(units, id)[l] == r;
      CitedSnoc(units, support, id, |support|, l, r);
      assert CitedAt(units, all, |support|, l, r);
    }
  }

  lemma CitedBefore(units: seq<Card>, support: seq<Option<string>>, k: nat, l: nat, r: (string, string))
    requires CitedAt(units, support, k, l, r)
    ensures k < |support|
  {
  }

  /** The order among earlier references is kept. */
  lemma FirstKept(units: seq<Card>, support: seq<Option<string>>, id: Option<string>, r: (string, string), q: (string, string))
    requires CitedFirst(units, support, r, q)
    ensures CitedFirst(units, support + [id], r, q)
  {
    hide CitedAt, Named;
    var all := support + [id];
    var k: nat, l: nat :| CitedAt(units, support, k, l, r) && forall m: nat, n: nat | CitedAt(units, support, m, n, q) :: k < m || (k == m && l < n);
    CitedBefore(units, support, k, l, r);
    CitedSnoc(units, support, id, k, l, r);
    forall m: nat, n: nat | CitedAt(units, all, m, n, q) ensures k < m || (k == m && l < n) { CitedSnoc(units, support, id, m, n, q); }
  }

  /** An earlier reference comes before a new one. */
  lemma FirstBeforeNew(units: seq<Card>, support: seq<Option<string>>, id: Option<string>, r: (string, string), q: (string, string))
    requires Cited(units, support, r) && !Cited(units, support, q)
    ensures CitedFirst(units, support + [id], r, q)
  {
    hide CitedAt, Named;
    var all := support + [id];
    var k: nat, l: nat :| CitedAt(units, support, k, l, r);
    CitedBefore(units, support, k, l, r);
    CitedSnoc(units, support, id, k, l, r);
    forall m: nat, n: nat | CitedAt(units, all, m, n, q) ensures k < m || (k == m && l < n) { CitedSnoc(units, support, id, m, n, q); }
  }

  /** Two new references come in the order of the unit that brings them. */
  lemma FirstAmongNew(units: seq<Card>, support: seq<Option<string>>, id: Option<string>, r: (string, string), q: (string, string))
    requires FirstOf(Named(units, id), r, q) && !Cited(units, support, q)
    ensures CitedFirst(units, support + [id], r, q)
  {
    hide CitedAt, Named;
    var all, more := support + [id], Named(units, id);
    var l: nat :| l < |more| && more[l] == r && forall m | 0 <= m <= l :: more[m] != q;
    CitedSnoc(units, support, id, |support|, l, r);
    assert CitedAt(units, all, |support|, l, r);
    forall m: nat, n: nat | CitedAt(units, all, m, n, q) ensures |support| < m || (|support| == m && l < n) { CitedSnoc(units, support, id, m, n, q); }
  }

  lemma {:induction false} SupportIs(units: seq<Card>, support: seq<Option<string>>)
    ensures RefsOf(units, support, SupportRefs(units, support))
  {
    var refs := SupportRefs(units, support);
    if support == [] {
      hide IsUnit;
      assert forall r :: !Cited(units, support, r);
    } else {
      var init, id := support[..|support| - 1], support[|support| - 1];
      SupportIs(units, init);
      var before, more := SupportRefs(units, init), Named(units, id);
      assert refs == AddNew(before, more);
      assert support == init + [id];
      hide SupportRefs, Named, Cited, CitedFirst, FirstOf;
      AddedInOrder(before, more);
      forall r ensures r in refs <==> Cited(units, support, r) { CitedMore(units, init, id, r); }
      forall i, j | 0 <= i < j < |refs| ensures CitedFirst(units, support, refs[i], refs[j]) {
        if j < |before| {
          assert refs[i] == before[i] && refs[j] == before[j];
          FirstKept(units, init, id, before[i], before[j]);
        } else {
          NotEarlier(before, refs, j);
          if i < |before| {
            assert refs[i] == before[i] && before[i] in before;
            FirstBeforeNew(units, init, id, refs[i], refs[j]);
          } else {
            FirstAmongNew(units, init, id, refs[i], refs[j]);
          }
        }
      }
    }
  }

  lemma {:induction false} TrustIs(c: Counters, raws: seq<RawEntry>, units: seq<Card>) returns (offers: seq<Option<Refs>>)
    ensures var s := Trust(State(c, []), raws, units); BookOffers(units, raws, offers) && Rebuilt(c, raws, offers, s.counters, s.units)
  {
    hide Rebuilt, Emit, RefsOf, Cited, SupportRefs;
    if raws == [] {
      NothingRebuilt(c);
      offers := [];
    } else {
      var init, raw := raws[..|raws| - 1], raws[|raws| - 1];
      var before := TrustIs(c, init, units);
      assert raws == init + [raw];
      var s := Trust(State(c, []), init, units);
      if raw.RawEntry? && raw.support.Some? {
        SupportSome(units, raw.support.value);
      }
      if raw.RawEntry? && raw.support.Some? && SupportRefs(units, raw.support.value) != [] {
        var refs := SupportRefs(units, raw.support.value);
        RebuiltOffer(c, init, before, s, raw, refs);
        offers := before + [Some(refs)];
      } else {
        RebuiltNothing(c, init, before, s.counters, s.units, raw);
        offers := before + [None];
      }
    }
  }

  lemma SupportSome(units: seq<Card>, support: seq<Option<string>>)
    ensures RefsOf(units, support, SupportRefs(units, support))
    ensures SupportRefs(units, support) != [] <==> exists r :: Cited(units, support, r)
  {
    SupportIs(units, support);
    hide SupportRefs, Cited, CitedFirst;
    var refs := SupportRefs(units, support);
    if refs != [] { assert refs[0] in refs; }
  }

  lemma ReductionHolds(c: Counters, units: seq<Card>, reply: Reply)
    ensures var s := Trust(State(c, []), Raws(reply), units); ReductionIs(c, units, reply, s.counters, s.units)
  {
    hide BookOffers, Rebuilt;
    if reply.Entries? { var offers := TrustIs(c, reply.raws, units); }
  }

  // ---- sections ----

  /** Four chunks of one source in a row share a section. */
  ghost function KeyOf(chunks: seq<Chunk>, c: nat): Key
    requires c < |chunks|
  {
    Key(chunks[c].sourceId, |Earlier(chunks, c, chunks[c].sourceId)| / 4 + 1)
  }

  ghost function Earlier(chunks: seq<Chunk>, c: nat, source: string): set<nat>
    requires c <= |chunks|
  {
    set d: nat | d < c && chunks[d].sourceId == source
  }

  /** The cards of the first n chunks that share a section. */
  ghost function SharedCards(chunks: seq<Chunk>, mapped: seq<seq<Card>>, n: nat, key: Key): seq<Card>
    requires n <= |chunks| == |mapped|
  {
    if n == 0 then [] else SharedCards(chunks, mapped, n - 1, key) + if KeyOf(chunks, n - 1) == key then mapped[n - 1] else []
  }

  /** The first n chunks brought a card to section a before they brought one to section b. */
  ghost predicate Opens(chunks: seq<Chunk>, mapped: seq<seq<Card>>, n: nat, a: Key, b: Key)
    requires n <= |chunks| == |mapped|
  {
    exists c: nat | c < n :: mapped[c] != [] && KeyOf(chunks, c) == a && forall d: nat | d <= c && mapped[d] != [] :: KeyOf(chunks, d) != b
  }

  ghost predicate HasKey(sections: Sections, key: Key) { exists i | 0 <= i < |sections| :: sections[i].0 == key }

  /** The sections of the first n chunks: each once and with all its cards, in the order of their first cards. */
  ghost predicate SectionsAre(chunks: seq<Chunk>, mapped: seq<seq<Card>>, n: nat, sections: Sections)
    requires n <= |chunks| == |mapped|
  {
    && (forall i, j | 0 <= i < j < |sections| :: sections[i].0 != sections[j].0)
    && (forall i | 0 <= i < |sections| :: sections[i].1 == SharedCards(chunks, mapped, n, sections[i].0) != [])
    && (forall c: nat | c < n && mapped[c] != [] :: HasKey(sections, KeyOf(chunks, c)))
    && (forall i, j | 0 <= i < j < |sections| :: Opens(chunks, mapped, n, sections[i].0, sections[j].0))
  }

  lemma {:induction false} KeyIs(chunks: seq<Chunk>, c: nat)
    requires c < |chunks|
    ensures SectionKey(chunks, c) == KeyOf(chunks, c)
  {
    EarlierIs(chunks, c, chunks[c].sourceId);
  }

  lemma {:induction false} EarlierIs(chunks: seq<Chunk>, c: nat, source: string)
    requires c <= |chunks|
    ensures ChunksBefore(chunks, c, source) == |Earlier(chunks, c, source)|
  {
    if c > 0 {
      EarlierIs(chunks, c - 1, source);
      OneEarlier(chunks, c - 1, source);
    } else {
      assert Earlier(chunks, 0, source) == {};
    }
  }

  lemma OneEarlier(chunks: seq<Chunk>, c: nat, source: string)
    requires c < |chunks|
    ensures |Earlier(chunks, c + 1, source)| == |Earlier(chunks, c, source)| + if chunks[c].sourceId == source then 1 else 0
  {
    var was, now := Earlier(chunks, c, source), Earlier(chunks, c + 1, source);
    if chunks[c].sourceId == source { assert now == was + {c}; } else { assert now == was; }
  }

  lemma {:induction false} NoneShared(chunks: seq<Chunk>, mapped: seq<seq<Card>>, n: nat, key: Key)
    requires n <= |chunks| == |mapped| && forall c: nat | c < n && mapped[c] != [] :: KeyOf(chunks, c) != key
    ensures SharedCards(chunks, mapped, n, key) == []
  {
    hide KeyOf;
    if n > 0 { NoneShared(chunks, mapped, n - 1, key); }
  }

  lemma OpensLater(chunks: seq<Chunk>, mapped: seq<seq<Card>>, n: nat, a: Key, b: Key)
    requires n < |chunks| == |mapped| && Opens(chunks, mapped, n, a, b)
    ensures Opens(chunks, mapped, n + 1, a, b)
  {
    hide KeyOf;
  }

  /** A section that is there already was opened before a new one. */
  lemma OpensNew(chunks: seq<Chunk>, mapped: seq<seq<Card>>, n: nat, a: Key, b: Key)
    requires n < |chunks| == |mapped| && SharedCards(chunks, mapped, n, a) != []
    requires forall c: nat | c < n && mapped[c] != [] :: KeyOf(chunks, c) != b
    ensures Opens(chunks, mapped, n + 1, a, b)
  {
    hide KeyOf;
    if forall c: nat | c < n && mapped[c] != [] :: KeyOf(chunks, c) != a { NoneShared(chunks, mapped, n, a); }
    var c: nat :| c < n && mapped[c] != [] && KeyOf(chunks, c) == a;
  }

  /** One chunk more that adds to a section that is there, or brings no card. */
  lemma SectionGrows(chunks: seq<Chunk>, mapped: seq<seq<Card>>, n: nat, sections: Sections, now: Sections)
    requires n < |chunks| == |mapped| && SectionsAre(chunks, mapped, n, sections) && |now| == |sections|
    requires forall i | 0 <= i < |now| :: now[i].0 == sections[i].0
               && now[i].1 == sections[i].1 + if sections[i].0 == KeyOf(chunks, n) then mapped[n] else []
    requires mapped[n] != [] ==> HasKey(sections, KeyOf(chunks, n))
    ensures SectionsAre(chunks, mapped, n + 1, now)
  {
    hide KeyOf, Opens, HasKey;
    forall i, j | 0 <= i < j < |now| ensures Opens(chunks, mapped, n + 1, now[i].0, now[j].0) {
      OpensLater(chunks, mapped, n, sections[i].0, sections[j].0);
    }
    HasKeys(sections, now);
  }

  /** One chunk more that opens a section. */
  lemma SectionOpens(chunks: seq<Chunk>, mapped: seq<seq<Card>>, n: nat, sections: Sections)
    requires n < |chunks| == |mapped| && SectionsAre(chunks, mapped, n, sections)
    requires mapped[n] != [] && forall i | 0 <= i < |sections| :: sections[i].0 != KeyOf(chunks, n)
    ensures SectionsAre(chunks, mapped, n + 1, sections + [(KeyOf(chunks, n), mapped[n])])
  {
    hide KeyOf, Opens;
    var key := KeyOf(chunks, n);
    var now := sections + [(key, mapped[n])];
    forall c: nat | c < n && mapped[c] != [] ensures KeyOf(chunks, c) != key { assert HasKey(sections, KeyOf(chunks, c)); }
    NoneShared(chunks, mapped, n, key);
    forall i, j | 0 <= i < j < |now| ensures Opens(chunks, mapped, n + 1, now[i].0, now[j].0) {
      if j < |sections| {
        OpensLater(chunks, mapped, n, sections[i].0, sections[j].0);
      } else {
        OpensNew(chunks, mapped, n, sections[i].0, key);
      }
    }
    HasKeys(sections, now);
    assert now[|sections|].0 == key;
  }

  /** The cards of one chunk more go to its section. */
  lemma SectionsGrow(chunks: seq<Chunk>, mapped: seq<seq<Card>>, n: nat, sections: Sections)
    requires n < |chunks| == |mapped| && SectionsAre(chunks, mapped, n, sections)
    ensures SectionsAre(chunks, mapped, n + 1, AddTo(sections, KeyOf(chunks, n), mapped[n]))
  {
    var key, at := KeyOf(chunks, n), FindKey(sections, KeyOf(chunks, n));
    var distinct := forall i, j | 0 <= i < j < |sections| :: sections[i].0 != sections[j].0;
    assert distinct;
    hide KeyOf, FindKey, SectionsAre;
    if mapped[n] == [] {
      SectionGrows(chunks, mapped, n, sections, sections);
    } else if at.Some? {
      assert sections[at.value].0 == key && HasKey(sections, key);
      SectionGrows(chunks, mapped, n, sections, AddTo(sections, key, mapped[n]));
    } else {
      SectionOpens(chunks, mapped, n, sections);
    }
  }

  lemma HasKeys(sections: Sections, now: Sections)
    requires |sections| <= |now| && forall i | 0 <= i < |sections| :: now[i].0 == sections[i].0
    ensures forall key | HasKey(sections, key) :: HasKey(now, key)
  {
    forall key | HasKey(sections, key) ensures HasKey(now, key) {
      var i :| 0 <= i < |sections| && sections[i].0 == key;
      assert now[i].0 == key;
    }
  }

  // ---- the whole analysis ----

  /** One section: a failed reduction keeps the cards that were sent. */
  ghost predicate SectionIs(c: Counters, sent: seq<Card>, reply: Reply, d: Counters, kept: seq<Card>) {
    if reply.Failure? then d == c && kept == sent else ReductionIs(c, sent, reply, d, kept)
  }

  /** One book: the rebuilt cards if there is any, otherwise the section results that were sent. */
  ghost predicate BookIs(c: Counters, sent: seq<Card>, reply: Reply, d: Counters, kept: seq<Card>) {
    if sent == [] || reply.Failure? then d == c && kept == sent
    else exists rebuilt :: ReductionIs(c, sent, reply, d, rebuilt) && kept == if rebuilt != [] then rebuilt else sent
  }

  function Joined(parts: seq<seq<Card>>): seq<Card> {
    if parts == [] then [] else Joined(parts[..|parts| - 1]) + parts[|parts| - 1]
  }

  /** The section results of one source, in order. */
  function SectionsOf(results: Sections, source: string): seq<Card> {
    if results == [] then []
    else
      var (key, cards) := results[|results| - 1];
      SectionsOf(results[..|results| - 1], source) + if key.sourceId == source then cards else []
  }

  /** What an analysis did: the cards of every chunk, the sections and their results, the cards of every book,
      and the counters before and after every step. */
  datatype Trace = Trace(mapped: seq<seq<Card>>, sections: Sections, results: Sections, books: seq<seq<Card>>,
                         mapCounts: seq<Counters>, sectionCounts: seq<Counters>, bookCounts: seq<Counters>)

  ghost predicate Mapped(t: Trace, chunks: seq<Chunk>, replies: seq<Reply>)
    requires |chunks| == |replies|
  {
    && |t.mapped| == |chunks| == |t.mapCounts| - 1 && t.mapCounts[0] == map[]
    && (forall c | 0 <= c < |chunks| :: MapReplyIs(t.mapCounts[c], chunks[c], replies[c], t.mapCounts[c + 1], t.mapped[c]))
    && SectionsAre(chunks, t.mapped, |chunks|, t.sections)
  }

  ghost predicate Sectioned(t: Trace, replies: Key -> Reply) {
    && |t.results| == |t.sections| == |t.sectionCounts| - 1 && t.mapCounts != [] && t.sectionCounts[0] == t.mapCounts[|t.mapCounts| - 1]
    && forall i | 0 <= i < |t.sections| ::
         t.results[i].0 == t.sections[i].0
         && SectionIs(t.sectionCounts[i], t.sections[i].1, replies(t.sections[i].0), t.sectionCounts[i + 1], t.results[i].1)
  }

  ghost predicate Booked(t: Trace, sources: seq<string>, replies: string -> Reply) {
    && |t.books| == |sources| == |t.bookCounts| - 1 && t.sectionCounts != [] && t.bookCounts[0] == t.sectionCounts[|t.sectionCounts| - 1]
    && forall i | 0 <= i < |sources| ::
         BookIs(t.bookCounts[i], SectionsOf(t.results, sources[i]), replies(sources[i]), t.bookCounts[i + 1], t.books[i])
  }

  /** The cards of the bundle: those of the books, and those of the map step only if there is no synthesizer or
      no book has a card. */
  ghost predicate Explains(t: Trace, sources: seq<string>, chunks: seq<Chunk>, replies: seq<Reply>, synthesis: Synthesis, cards: seq<Card>)
    requires |chunks| == |replies|
  {
    && Mapped(t, chunks, replies)
    && if synthesis.Unsupported? then cards == Joined(t.mapped)
       else Sectioned(t, synthesis.section) && Booked(t, sources, synthesis.book)
            && cards == if Joined(t.books) != [] then Joined(t.books) else Joined(t.mapped)
  }

  ghost function CardsMapped(chunks: seq<Chunk>, replies: seq<Reply>, c: nat): seq<Card>
    requires c < |chunks| == |replies|
  {
    MapEntries(State(MapChunks(chunks, replies, c).counters, []), chunks[c], Raws(replies[c])).units
  }

  ghost function AllMapped(chunks: seq<Chunk>, replies: seq<Reply>): (all: seq<seq<Card>>)
    requires |chunks| == |replies|
    ensures |all| == |chunks| && forall c | 0 <= c < |all| :: all[c] == CardsMapped(chunks, replies, c)
  {
    seq(|chunks|, c requires 0 <= c < |chunks| => CardsMapped(chunks, replies, c))
  }

  lemma {:induction false} MapChunksAre(chunks: seq<Chunk>, replies: seq<Reply>, n: nat)
    requires n <= |chunks| == |replies|
    ensures SectionsAre(chunks, AllMapped(chunks, replies), n, MapChunks(chunks, replies, n).sections)
    ensures MapChunks(chunks, replies, n).candidates == Joined(AllMapped(chunks, replies)[..n])
  {
    hide MapEntries, SectionsAre, SectionKey, KeyOf, AddTo;
    var all := AllMapped(chunks, replies);
    if n == 0 {
      NoneYet(chunks, all);
    } else {
      MapChunksAre(chunks, replies, n - 1);
      SectionsGrow(chunks, all, n - 1, MapChunks(chunks, replies, n - 1).sections);
      KeyIs(chunks, n - 1);
      assert all[..n][..n - 1] == all[..n - 1] && all[n - 1] == CardsMapped(chunks, replies, n - 1);
    }
  }

  lemma NoneYet(chunks: seq<Chunk>, mapped: seq<seq<Card>>)
    requires |chunks| == |mapped|
    ensures SectionsAre(chunks, mapped, 0, [])
  {
  }

  /** The first i sections reduced, with the counters before and after each. */
  ghost predicate SectionsDone(c: Counters, sections: Sections, replies: Key -> Reply, i: nat, results: Sections, counts: seq<Counters>)
    requires i <= |sections|
  {
    && |results| == i == |counts| - 1 && counts[0] == c
    && forall j | 0 <= j < i :: results[j].0 == sections[j].0 && SectionIs(counts[j], sections[j].1, replies(sections[j].0), counts[j + 1], results[j].1)
  }

  lemma {:induction false} SectionsReduced(c: Counters, sections: Sections, replies: Key -> Reply, i: nat) returns (counts: seq<Counters>)
    requires i <= |sections|
    ensures SectionsDone(c, sections, replies, i, ReduceSections(c, sections, replies, i).results, counts)
    ensures ReduceSections(c, sections, replies, i).counters == counts[i]
  {
    if i == 0 {
      counts := [c];
    } else {
      var before := SectionsReduced(c, sections, replies, i - 1);
      SectionHolds(c, sections, replies, i - 1);
      var was, now := ReduceSections(c, sections, replies, i - 1), ReduceSections(c, sections, replies, i);
      hide ReduceSections, SectionsDone, SectionIs;
      counts := before + [now.counters];
      assert |before| == i && |was.results| == i - 1 by { DoneSize(c, sections, replies, i - 1, was.results, before); }
      assert now.results == was.results + [(sections[i - 1].0, now.results[i - 1].1)];
      SectionDone(c, sections, replies, i - 1, was.results, before, now.results[i - 1].1, now.counters);
    }
  }

  lemma DoneSize(c: Counters, sections: Sections, replies: Key -> Reply, i: nat, results: Sections, counts: seq<Counters>)
    requires i <= |sections| && SectionsDone(c, sections, replies, i, results, counts)
    ensures |results| == i == |counts| - 1
  {
  }

  lemma SectionDone(c: Counters, sections: Sections, replies: Key -> Reply, i: nat, results: Sections, counts: seq<Counters>, cards: seq<Card>, d: Counters)
    requires i < |sections| && SectionsDone(c, sections, replies, i, results, counts)
    requires SectionIs(counts[i], sections[i].1, replies(sections[i].0), d, cards)
    ensures SectionsDone(c, sections, replies, i + 1, results + [(sections[i].0, cards)], counts + [d])
  {
    hide SectionIs;
  }

  lemma SectionHolds(c: Counters, sections: Sections, replies: Key -> Reply, i: nat)
    requires i < |sections|
    ensures var was, now := ReduceSections(c, sections, replies, i), ReduceSections(c, sections, replies, i + 1);
            && |now.results| == |was.results| + 1 && now.results[..|was.results|] == was.results
            && now.results[|was.results|].0 == sections[i].0
            && SectionIs(was.counters, sections[i].1, replies(sections[i].0), now.counters, now.results[|was.results|].1)
  {
    hide Trust, ReductionIs;
    ReductionHolds(ReduceSections(c, sections, replies, i).counters, sections[i].1, replies(sections[i].0));
  }

  lemma {:induction false} SourceIs(results: Sections, source: string)
    ensures SectionsOf(results, source) == OfSource(results, source)
  {
    if results != [] { SourceIs(results[..|results| - 1], source); }
  }

  lemma BookHolds(s: State, results: Sections, source: string, reply: Reply) returns (kept: seq<Card>)
    ensures var t := ReduceBook(s, results, source, reply);
            t.units == s.units + kept && BookIs(s.counters, SectionsOf(results, source), reply, t.counters, kept)
  {
    SourceIs(results, source);
    var units := OfSource(results, source);
    hide OfSource, SectionsOf, Trust, ReductionIs;
    if units == [] || reply.Failure? {
      kept := units;
    } else {
      ReductionHolds(s.counters, units, reply);
      var t := Trust(State(s.counters, []), Raws(reply), units);
      kept := if t.units == [] then units else t.units;
    }
  }

  /** The books reduced so far, with the counters before and after each. */
  ghost predicate BooksAre(c: Counters, results: Sections, sources: seq<string>, replies: string -> Reply, books: seq<seq<Card>>, counts: seq<Counters>) {
    && |books| == |sources| == |counts| - 1 && counts[0] == c
    && forall i | 0 <= i < |sources| :: BookIs(counts[i], SectionsOf(results, sources[i]), replies(sources[i]), counts[i + 1], books[i])
  }

  lemma {:induction false} BooksReduced(c: Counters, results: Sections, sources: seq<string>, replies: string -> Reply)
    returns (books: seq<seq<Card>>, counts: seq<Counters>)
    ensures BooksAre(c, results, sources, replies, books, counts)
    ensures ReduceBooks(c, results, sources, replies) == State(counts[|sources|], Joined(books))
  {
    hide BookIs, ReduceBook, SectionsOf;
    if sources == [] {
      books, counts := [], [c];
    } else {
      var init, last := sources[..|sources| - 1], sources[|sources| - 1];
      var was, before := BooksReduced(c, results, init, replies);
      var s := ReduceBooks(c, results, init, replies);
      var kept := BookHolds(s, results, last, replies(last));
      books, counts := was + [kept], before + [ReduceBook(s, results, last, replies(last)).counters];
      assert books[..|books| - 1] == was;
      forall i | 0 <= i < |sources| ensures BookIs(counts[i], SectionsOf(results, sources[i]), replies(sources[i]), counts[i + 1], books[i]) {
        if i < |init| { assert sources[i] == init[i]; }
      }
    }
  }

  /** Every analysis has a trace that explains its cards. */
  lemma Explained(sources: seq<string>, chunks: seq<Chunk>, replies: seq<Reply>, synthesis: Synthesis)
    requires |chunks| == |replies|
    ensures exists t :: Explains(t, sources, chunks, replies, synthesis, Candidates(sources, chunks, replies, synthesis))
  {
    hide MapChunks, ReduceSections, ReduceBooks, SectionsAre, MapReplyIs, SectionIs, BookIs, Joined, AllMapped;
    var all, m := AllMapped(chunks, replies), MapChunks(chunks, replies, |chunks|);
    MapChunksAre(chunks, replies, |chunks|);
    assert all[..|chunks|] == all;
    var counts := MapCounts(chunks, replies);
    if synthesis.Unsupported? {
      assert m.candidates == Candidates(sources, chunks, replies, synthesis);
      assert Explains(Trace(all, m.sections, [], [], counts, [], []), sources, chunks, replies, synthesis, Candidates(sources, chunks, replies, synthesis));
    } else {
      var sectionCounts := SectionsReduced(m.counters, m.sections, synthesis.section, |m.sections|);
      var r := ReduceSections(m.counters, m.sections, synthesis.section, |m.sections|);
      var books, bookCounts := BooksReduced(r.counters, r.results, sources, synthesis.book);
      var t := Trace(all, m.sections, r.results, books, counts, sectionCounts, bookCounts);
      assert Sectioned(t, synthesis.section) && Booked(t, sources, synthesis.book);
      assert Explains(t, sources, chunks, replies, synthesis, Candidates(sources, chunks, replies, synthesis));
    }
  }

  lemma MapCounts(chunks: seq<Chunk>, replies: seq<Reply>) returns (counts: seq<Counters>)
    requires |chunks| == |replies|
    ensures |counts| == |chunks| + 1 && counts[0] == map[] && counts[|chunks|] == MapChunks(chunks, replies, |chunks|).counters
    ensures forall c | 0 <= c < |chunks| :: MapReplyIs(counts[c], chunks[c], replies[c], counts[c + 1], AllMapped(chunks, replies)[c])
  {
    hide MapReplyIs, CardsMapped, AllMapped;
    counts := CountsMapped(chunks, replies);
    assert counts[0] == map[];
    hide MapChunks, CountsMapped;
    forall c | 0 <= c < |chunks| ensures MapReplyIs(counts[c], chunks[c], replies[c], counts[c + 1], AllMapped(chunks, replies)[c]) {
      MapHolds(chunks, replies, c);
    }
  }

  ghost function CountsMapped(chunks: seq<Chunk>, replies: seq<Reply>): (counts: seq<Counters>)
    requires |chunks| == |replies|
    ensures |counts| == |chunks| + 1 && forall c | 0 <= c <= |chunks| :: counts[c] == MapChunks(chunks, replies, c).counters
  {
    seq(|chunks| + 1, c requires 0 <= c <= |chunks| => MapChunks(chunks, replies, c).counters)
  }

  lemma MapHolds(chunks: seq<Chunk>, replies: seq<Reply>, c: nat)
    requires c < |chunks| == |replies|
    ensures MapReplyIs(MapChunks(chunks, replies, c).counters, chunks[c], replies[c],
                       MapChunks(chunks, replies, c + 1).counters, CardsMapped(chunks, replies, c))
  {
    hide MapReplyIs, MapEntries, AddTo, SectionKey;
    MapReplyHolds(MapChunks(chunks, replies, c).counters, chunks[c], replies[c]);
  }

  // ---- the analysis that asks block by block ----

  ghost predicate PlainCard(source: string, block: string, bodies: seq<Option<Body>>, k: nat, u: Card) {
    k < |bodies| && bodies[k].Some? && u == Card(UnitId(block, k + 1), [(source, block)], bodies[k].value)
  }

  ghost predicate PlainAt(source: string, block: string, bodies: seq<Option<Body>>, at: seq<nat>, cards: seq<Card>) {
    && |at| == |cards| && (forall i, j | 0 <= i < j < |at| :: at[i] < at[j])
    && (forall i | 0 <= i < |at| :: PlainCard(source, block, bodies, at[i], cards[i]))
    && (forall k: nat | k < |bodies| && bodies[k].Some? :: k in at)
  }

  /** The valid bodies of one block in order, numbered by their places in the reply. */
  ghost predicate PlainBlock(source: string, block: string, bodies: seq<Option<Body>>, cards: seq<Card>) {
    exists at: seq<nat> :: PlainAt(source, block, bodies, at, cards)
  }

  lemma PlainMore(source: string, block: string, bodies: seq<Option<Body>>, cards: seq<Card>, body: Option<Body>)
    requires PlainBlock(source, block, bodies, cards)
    ensures PlainBlock(source, block, bodies + [body],
              cards + if body.Some? then [Card(UnitId(block, |bodies| + 1), [(source, block)], body.value)] else [])
  {
    hide UnitId;
    var all := bodies + [body];
    var at: seq<nat> :| PlainAt(source, block, bodies, at, cards);
    forall i | 0 <= i < |at| ensures PlainCard(source, block, all, at[i], cards[i]) { assert all[at[i]] == bodies[at[i]]; }
    hide PlainCard;
    forall k: nat | k < |bodies| && all[k].Some? ensures k in at { assert bodies[k].Some?; }
    if body.Some? {
      var u := Card(UnitId(block, |bodies| + 1), [(source, block)], body.value);
      NewPlain(source, block, bodies, body);
      assert PlainAt(source, block, all, at + [|bodies|], cards + [u]);
    } else {
      assert cards + [] == cards;
      assert PlainAt(source, block, all, at, cards);
    }
  }

  lemma NewPlain(source: string, block: string, bodies: seq<Option<Body>>, body: Option<Body>)
    requires body.Some?
    ensures PlainCard(source, block, bodies + [body], |bodies|, Card(UnitId(block, |bodies| + 1), [(source, block)], body.value))
  {
  }

  lemma {:induction false} PlainIs(source: string, block: string, bodies: seq<Option<Body>>)
    ensures PlainBlock(source, block, bodies, PlainEntries(source, block, bodies))
  {
    if bodies == [] {
      assert PlainAt(source, block, bodies, [], []);
    } else {
      hide UnitId, PlainBlock;
      var n := |bodies| - 1;
      PlainIs(source, block, bodies[..n]);
      PlainMore(source, block, bodies[..n], PlainEntries(source, block, bodies[..n]), bodies[n]);
      assert bodies == bodies[..n] + [bodies[n]];
    }
  }

  /** The cards are those of the blocks, block after block. */
  lemma {:induction false} PlainAre(blocks: seq<(string, string)>, replies: seq<seq<Option<Body>>>) returns (parts: seq<seq<Card>>)
    requires |blocks| == |replies|
    ensures |parts| == |blocks| && PlainCandidates(blocks, replies) == Joined(parts)
    ensures forall i | 0 <= i < |blocks| :: PlainBlock(blocks[i].0, blocks[i].1, replies[i], parts[i])
  {
    hide PlainEntries, PlainBlock;
    if blocks == [] {
      parts := [];
    } else {
      var n := |blocks| - 1;
      var before := PlainAre(blocks[..n], replies[..n]);
      PlainIs(blocks[n].0, blocks[n].1, replies[n]);
      parts := before + [PlainEntries(blocks[n].0, blocks[n].1, replies[n])];
      assert parts[..n] == before;
      forall i | 0 <= i < |blocks| ensures PlainBlock(blocks[i].0, blocks[i].1, replies[i], parts[i]) {
        if i < n { assert blocks[..n][i] == blocks[i] && replies[..n][i] == replies[i] && parts[i] == before[i]; }
      }
    }
  }

  /** A reduction yields no card exactly if no entry is given references and has a valid body. */
  lemma SomeRebuilt(c: Counters, raws: seq<RawEntry>, offers: seq<Option<Refs>>, d: Counters, cards: seq<Card>)
    requires Rebuilt(c, raws, offers, d, cards)
    ensures cards == [] <==> forall k :: !Accepted(raws, offers, k)
  {
    hide CardOf, Uses;
    var at :| CardsOf(c, raws, offers, at, cards);
    if at != [] { assert Accepted(raws, offers, at[0]); }
  }
}
