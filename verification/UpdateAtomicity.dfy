/** A confirmed update is all or nothing across the publication journal, the update journal and the
    knowledge history. */
module UpdateAtomicity {
  import opened Knowledge
  import opened Storage
  import opened PublishProtocol
  import opened PublishAtomicity
  import opened PublishRecovery
  import opened UpdateProtocol
  import SnapshotConservation

  /** The update's ids are new, its constructor has cleared every earlier update journal, and it
      has something to append: a plan without additions, changes or removals is not published. */
  ghost predicate Startable(d0: Disk, c: Change) {
    && Quiet(d0, c.Publication())
    && d0.updates == map[] && c.pending != []
    && !Carries(d0, c.name, c.txId)
  }

  /** The initial disk as the publication sees it: with the update's own bookkeeping on it. */
  ghost function Base(d0: Disk, d: Disk): Disk {
    d0.(updates := d.updates, schema := d.schema, schemaSnaps := d.schemaSnaps)
  }

  function PublishSteps(d0: Disk, c: Change, k: nat): nat {
    if k <= 3 then 0 else if k <= Tail(d0, c) then k - 3 else Tail(d0, c) - 3
  }

  /** The update journal after k steps. */
  function JournalAt(d0: Disk, c: Change, k: nat): Option<UpdateTx> {
    var n := Tail(d0, c);
    var tx := c.Begun(c.coll in d0.schema);
    if k <= 1 || k > n + 4 then None
    else if k == 2 then Some(tx)
    else if k <= n then Some(tx.(state := UpdPublishing))
    else if k <= n + 2 then Some(PublishedTx(d0, c))
    else if k == n + 3 then Some(CommittedTx(d0, c))
    else Some(CommittedTx(d0, c).(state := UpdCommitted))
  }

  ghost predicate BooksAt(d0: Disk, c: Change, d: Disk, k: nat) {
    && d.updates == (match JournalAt(d0, c, k) case None => map[] case Some(tx) => map[c.txId := tx])
    && d.schema == (if k <= Tail(d0, c) + 1 then d0.schema else d0.schema[c.coll := NewHistory(d0, c)])
    && (1 <= k <= Tail(d0, c) + 5 ==> c.txId in d.schemaSnaps && d.schemaSnaps[c.txId] == HistoryOf(d0, c.coll))
  }

  ghost predicate UpdateAt(d0: Disk, c: Change, d: Disk, k: nat) {
    && At(Base(d0, d), c.Publication(), d, PublishSteps(d0, c, k))
    && BooksAt(d0, c, d, k)
  }

  lemma BaseSwap(d0: Disk, d: Disk, r: Request)
    ensures SwapIndex(Base(d0, d), r) == SwapIndex(d0, r) && Snap(Base(d0, d), r) == Snap(d0, r)
    ensures Entry(Base(d0, d), r) == Entry(d0, r)
    ensures forall i: nat :: PublishStep(Base(d0, d), r, i) == PublishStep(d0, r, i)
  {
  }

  predicate Bookkeeping(c: Cmd) {
    c.PutUpd? || c.DropUpd? || c.PutSchema? || c.DropSchema? || c.PutSchemaSnap? || c.DropSchemaSnap?
  }

  predicate SameBooks(d: Disk, e: Disk) { e.updates == d.updates && e.schema == d.schema && e.schemaSnaps == d.schemaSnaps }

  lemma BooksStay(d: Disk, c: Cmd)
    requires !Bookkeeping(c)
    ensures SameBooks(d, Apply(d, c))
  {
  }

  ghost predicate SamePublication(d: Disk, e: Disk) {
    e.trees == d.trees && e.journals == d.journals && e.pointers == d.pointers && e.log == d.log && e.index == d.index
  }

  lemma SamePhases(b: Disk, b': Disk, r: Request, d: Disk, d': Disk)
    requires SamePublication(b, b') && SamePublication(d, d')
    ensures Before(b', r, d') == Before(b, r, d)
    ensures Between(b', r, d') == Between(b, r, d)
    ensures Unjournalled(b', r, d') == Unjournalled(b, r, d)
  {
    hide Replay, IndexOf, Entry;
  }

  lemma SameLatePhases(b: Disk, b': Disk, r: Request, d: Disk, d': Disk)
    requires SamePublication(b, b') && SamePublication(d, d')
    ensures AfterSwap(b', r, d') == AfterSwap(b, r, d)
    ensures Landed(b', r, d') == Landed(b, r, d)
  {
    hide Replay, IndexOf;
  }

  lemma BookkeepingOnly(d: Disk, c: Cmd)
    requires Bookkeeping(c)
    ensures SamePublication(d, Apply(d, c))
  {
  }

  lemma SameFrame(b: Disk, b': Disk, r: Request, d: Disk, d': Disk)
    requires SamePublication(b, b') && SamePublication(d, d') && Frame(b, r, d)
    requires d'.updates == b'.updates && d'.schema == b'.schema && d'.schemaSnaps == b'.schemaSnaps
    ensures Frame(b', r, d')
  {
    forall p: Path | p != r.Target() && p != r.Backup() && !p.Staging? ensures SameAt(b', d', p) {
      assert SameAt(b, d, p);
    }
  }

  /** Bookkeeping does not disturb a publication. */
  lemma BookkeepingKeepsAt(d0: Disk, r: Request, d: Disk, i: nat, c: Cmd)
    requires Bookkeeping(c) && At(Base(d0, d), r, d, i)
    ensures At(Base(d0, Apply(d, c)), r, Apply(d, c), i)
  {
    hide Replay, IndexOf, Frame, Before, Between, Unjournalled, AfterSwap, Landed;
    BookkeepingOnly(d, c);
    hide Apply, Bookkeeping;
    SamePhases(Base(d0, d), Base(d0, Apply(d, c)), r, d, Apply(d, c));
    SameLatePhases(Base(d0, d), Base(d0, Apply(d, c)), r, d, Apply(d, c));
    SameFrame(Base(d0, d), Base(d0, Apply(d, c)), r, d, Apply(d, c));
  }

  lemma BooksOpen(d0: Disk, c: Change, d: Disk, k: nat)
    requires d0.updates == map[] && BooksAt(d0, c, d, k) && k < 3
    ensures Bookkeeping(UpdateStep(d0, c, k)) && BooksAt(d0, c, Apply(d, UpdateStep(d0, c, k)), k + 1)
  {
    hide NewHistory, PublishedIndex, PublishedTx;
  }

  lemma BooksWritten(d0: Disk, c: Change, d: Disk, k: nat, tx: UpdateTx)
    requires BooksAt(d0, c, d, k) && Tail(d0, c) <= k <= Tail(d0, c) + 3 && k != Tail(d0, c) + 1
    requires JournalAt(d0, c, k + 1) == Some(tx) && tx.txId == c.txId
    ensures BooksAt(d0, c, Apply(d, PutUpd(tx)), k + 1)
  {
    hide JournalAt, NewHistory;
    assert JournalAt(d0, c, k).Some? by { hide *; JournalHeld(d0, c, k); }
  }

  lemma JournalHeld(d0: Disk, c: Change, k: nat)
    ensures JournalAt(d0, c, k).Some? <==> 2 <= k <= Tail(d0, c) + 4
    ensures JournalAt(d0, c, k).Some? ==> JournalAt(d0, c, k).value.txId == c.txId
  {
  }

  lemma BooksClose(d0: Disk, c: Change, d: Disk, k: nat)
    requires BooksAt(d0, c, d, k) && Tail(d0, c) <= k < Tail(d0, c) + 6
    ensures Bookkeeping(UpdateStep(d0, c, k)) && BooksAt(d0, c, Apply(d, UpdateStep(d0, c, k)), k + 1)
  {
    hide NewHistory, PublishedTx, CommittedTx, SwapIndex, BooksAt;
    JournalHeld(d0, c, k + 1);
    if UpdateStep(d0, c, k).PutUpd? {
      BooksWritten(d0, c, d, k, UpdateStep(d0, c, k).upd);
    } else {
      BooksDropped(d0, c, d, k);
    }
  }

  lemma BooksDropped(d0: Disk, c: Change, d: Disk, k: nat)
    requires BooksAt(d0, c, d, k) && k in {Tail(d0, c) + 1, Tail(d0, c) + 4, Tail(d0, c) + 5}
    ensures BooksAt(d0, c, Apply(d, UpdateStep(d0, c, k)), k + 1)
  {
    hide NewHistory, PublishedTx, CommittedTx, SwapIndex;
    if k == Tail(d0, c) + 4 {
      var done := CommittedTx(d0, c).(state := UpdCommitted);
      assert map[c.txId := done] - {c.txId} == map[];
    }
  }

  lemma BookkeepingStep(d0: Disk, c: Change, d: Disk, k: nat)
    requires Startable(d0, c) && UpdateAt(d0, c, d, k) && (k < 3 || Tail(d0, c) <= k < Tail(d0, c) + 6)
    ensures UpdateAt(d0, c, Apply(d, UpdateStep(d0, c, k)), k + 1)
  {
    hide At, BooksAt, UpdateStep;
    if k < 3 { BooksOpen(d0, c, d, k); } else { BooksClose(d0, c, d, k); }
    BookkeepingKeepsAt(d0, c.Publication(), d, PublishSteps(d0, c, k), UpdateStep(d0, c, k));
  }

  lemma PublicationStep(d0: Disk, c: Change, d: Disk, k: nat)
    requires UpdateAt(d0, c, d, k) && 3 <= k < Tail(d0, c)
    ensures UpdateAt(d0, c, Apply(d, UpdateStep(d0, c, k)), k + 1)
  {
    hide At, BooksAt, PublishStep, Apply, SwapIndex;
    var e := Apply(d, UpdateStep(d0, c, k));
    BaseSwap(d0, d, c.Publication());
    StepAny(Base(d0, d), c.Publication(), d, k - 3);
    PublishLeavesBooks(d0, c, d, k - 3);
    assert Base(d0, e) == Base(d0, d);
    BooksWhilePublishing(d0, c, d, e, k);
  }

  lemma PublishLeavesBooks(d0: Disk, c: Change, d: Disk, i: nat)
    ensures var e := Apply(d, PublishStep(d0, c.Publication(), i));
            e.updates == d.updates && e.schema == d.schema && e.schemaSnaps == d.schemaSnaps
  {
    hide PublishStep, Apply, Own;
    StepIsOwn(d0, c.Publication(), i);
    OwnLeavesBooks(c.Publication(), d, PublishStep(d0, c.Publication(), i));
  }

  lemma OwnLeavesBooks(r: Request, d: Disk, c: Cmd)
    requires Own(r, c)
    ensures Apply(d, c).updates == d.updates && Apply(d, c).schema == d.schema && Apply(d, c).schemaSnaps == d.schemaSnaps
  {
  }

  lemma BooksWhilePublishing(d0: Disk, c: Change, d: Disk, e: Disk, k: nat)
    requires BooksAt(d0, c, d, k) && 3 <= k < Tail(d0, c)
    requires e.updates == d.updates && e.schema == d.schema && e.schemaSnaps == d.schemaSnaps
    ensures BooksAt(d0, c, e, k + 1)
  {
    hide PublishedTx, CommittedTx, NewHistory, SwapIndex;
  }

  lemma UpdateStarts(d0: Disk, c: Change)
    requires Startable(d0, c)
    ensures UpdateAt(d0, c, d0, 0)
  {
    hide At, Quiet, Replay;
    PrefixAt(d0, c.Publication(), 0);
    assert Base(d0, d0) == d0;
  }

  /** Where losing power before step k leaves the update. */
  lemma {:induction false} UpdatePrefix(d0: Disk, c: Change, k: nat)
    requires Startable(d0, c) && k <= Tail(d0, c) + 6
    ensures UpdateAt(d0, c, RunFor(d0, UpdateProgram(d0, c), k), k)
  {
    if k == 0 {
      UpdateStarts(d0, c);
    } else {
      hide UpdateAt, Startable, UpdateStep;
      UpdatePrefix(d0, c, k - 1);
      var d := RunFor(d0, UpdateProgram(d0, c), k - 1);
      RunSnoc(d0, UpdateProgram(d0, c), k - 1);
      if 3 <= k - 1 < Tail(d0, c) { PublicationStep(d0, c, d, k - 1); } else { BookkeepingStep(d0, c, d, k - 1); }
    }
  }

  // ---- after the publisher has recovered ----

  /** The step that first moves a tree into or out of the slot. */
  function FirstMove(d0: Disk, c: Change): nat { if c.Target() in d0.trees then 7 else 6 }

  /** What the update recovery finds: the publication settled, the bookkeeping untouched. */
  ghost predicate Recovered(d0: Disk, c: Change, e: Disk, k: nat) {
    && Frame(Base(d0, e), c.Publication(), e)
    && (if k <= FirstMove(d0, c) then Before(Base(d0, e), c.Publication(), e)
        else Unjournalled(Base(d0, e), c.Publication(), e) || Landed(Base(d0, e), c.Publication(), e))
    && (k > Tail(d0, c) ==> Landed(Base(d0, e), c.Publication(), e))
    && BooksAt(d0, c, e, k)
  }

  lemma AtPhase(d0: Disk, r: Request, d: Disk, i: nat)
    requires At(d0, r, d, i)
    ensures Frame(d0, r, d)
    ensures i <= (if r.Target() in d0.trees then 4 else 3) ==> Before(d0, r, d)
    ensures i > (if r.Target() in d0.trees then 4 else 3) ==> Between(d0, r, d) || Unjournalled(d0, r, d) || AfterSwap(d0, r, d) || Landed(d0, r, d)
    ensures i >= SwapIndex(d0, r) + 7 ==> Landed(d0, r, d)
  {
  }

  lemma QuietBase(d0: Disk, d: Disk, r: Request)
    requires Quiet(d0, r)
    ensures Quiet(Base(d0, d), r)
  {
    var b := Base(d0, d);
    forall id | id in b.journals ensures StaleJournal(b, id, r.now) {
      assert StaleJournal(d0, id, r.now);
    }
  }

  lemma PublisherRecovers(d0: Disk, c: Change, d: Disk, k: nat, txs: seq<PublishTx>, power: nat)
    requires Startable(d0, c) && UpdateAt(d0, c, d, k) && k <= Tail(d0, c) + 6
    requires Lists(txs, d.journals) && power >= 6 * |txs|
    ensures RecoverAll(d, txs, power).1 == Ready
    ensures RecoverAll(d, txs, power).0.journals == map[]
    ensures Recovered(d0, c, RecoverAll(d, txs, power).0, k)
  {
    hide At, Before, Between, Unjournalled, AfterSwap, Landed, RecoverAll, Quiet, Lists;
    var b, r := Base(d0, d), c.Publication();
    QuietBase(d0, d, r);
    BaseSwap(d0, d, r);
    AtInFlight(b, r, d, PublishSteps(d0, c, k));
    AtPhase(b, r, d, PublishSteps(d0, c, k));
    RecoverAllKeeps(b, r, d, txs, power);
    assert Base(d0, RecoverAll(d, txs, power).0) == b;
  }

  // ---- recovery of the update journal ----

  datatype Fate = OldKept | TreeRemoved | BothNew | TreeNewHistoryOld

  /** Every pending key is in the history already: then the check for a landed history cannot tell. */
  predicate KeysStale(d0: Disk, c: Change) { AllPresent(Keys(c.pending), HistoryOf(d0, c.coll)) }

  function FateOf(d0: Disk, c: Change, k: nat): Fate {
    if k <= FirstMove(d0, c) then OldKept
    else if k <= Tail(d0, c) then if KeysStale(d0, c) then TreeNewHistoryOld else TreeRemoved
    else if k == Tail(d0, c) + 1 then if KeysStale(d0, c) then TreeNewHistoryOld else OldKept
    else BothNew
  }

  /** The histories with the pending records appended to the one of the collection. */
  function WithPending(d0: Disk, c: Change): map<string, seq<Unit>> {
    d0.schema[c.coll := (if c.coll in d0.schema then d0.schema[c.coll] else []) + c.pending]
  }

  lemma PendingAppended(d0: Disk, c: Change)
    ensures WithPending(d0, c) == d0.schema[c.coll := NewHistory(d0, c)]
  {
  }

  ghost predicate Ends(d0: Disk, c: Change, f: Disk, fate: Fate) {
    match fate
    case OldKept => SameAt(d0, f, c.Target()) && f.schema == d0.schema
    case TreeRemoved =>
      && c.Target() !in f.trees && f.schema == d0.schema
      && (c.Target() in d0.trees ==> c.Publication().Backup() in f.trees && f.trees[c.Publication().Backup()] == d0.trees[c.Target()])
    case BothNew =>
      && c.Target() in f.trees && f.trees[c.Target()] == c.Publication().Tree()
      && f.schema == WithPending(d0, c)
    case TreeNewHistoryOld =>
      && c.Target() in f.trees && f.trees[c.Target()] == c.Publication().Tree()
      && f.schema == d0.schema
  }

  lemma RunRemove(d: Disk, tx: UpdateTx)
    ensures Run(d, Remove(tx)) == d.(updates := d.updates - {tx.txId}, schemaSnaps := d.schemaSnaps - {tx.txId})
  {
    RunTwo(d, DropUpd(tx.txId), DropSchemaSnap(tx.txId));
  }

  lemma RemovePrefix(d: Disk, tx: UpdateTx, j: nat)
    requires d.updates == map[tx.txId := tx]
    ensures var e := RunFor(d, Remove(tx), j);
            && e.trees == d.trees && e.schema == d.schema
            && (if j == 0 then e == d else e.updates == map[])
  {
    hide RunFor;
    var prog := Remove(tx);
    assert map[tx.txId := tx] - {tx.txId} == map[];
    RunNone(d, prog);
    RunSnoc(d, prog, 0);
    RunSnoc(d, prog, 1);
    if j > 2 { RunBeyond(d, prog, j); }
  }

  lemma RunOne(d: Disk, c: Cmd)
    ensures Run(d, [c]) == Apply(d, c)
  {
    RunSnoc(d, [c], 0);
  }

  lemma RunCommit(d: Disk, tx: UpdateTx)
    ensures Run(d, [PutUpd(tx.(state := UpdCommitted))] + Remove(tx)) ==
            d.(updates := d.updates - {tx.txId}, schemaSnaps := d.schemaSnaps - {tx.txId})
  {
    var put := PutUpd(tx.(state := UpdCommitted));
    RunConcat(d, [put], Remove(tx), |[put] + Remove(tx)|);
    RunOne(d, put);
    RunRemove(Apply(d, put), tx);
    assert d.updates[tx.txId := tx.(state := UpdCommitted)] - {tx.txId} == d.updates - {tx.txId};
  }

  lemma RunDropSlot(d: Disk, tx: UpdateTx)
    ensures Run(d, DropSlot(tx)) == d.(trees := d.trees - {Slot(tx.name)})
  {
    var p := DropSlot(tx);
    RunSnoc(d, p, 0);
    RunSnoc(d, p, 1);
    RunSnoc(d, p, 2);
    var slot := Slot(tx.name);
    assert d.trees[slot := Torn(Some(tx.txId))][slot := Torn(None)] - {slot} == d.trees - {slot};
  }

  /** The rollback of an update whose publication left no snapshot to its journal. */
  lemma RunRemoval(d: Disk, tx: UpdateTx, restore: Cmd)
    ensures Run(d, [restore] + DropSlot(tx) + Remove(tx)) ==
            Apply(d, restore).(trees := Apply(d, restore).trees - {Slot(tx.name)},
              updates := Apply(d, restore).updates - {tx.txId}, schemaSnaps := Apply(d, restore).schemaSnaps - {tx.txId})
  {
    var a, b, c := [restore], DropSlot(tx), Remove(tx);
    RunConcat(d, a + b, c, |a + b + c|);
    RunConcat(d, a, b, |a + b|);
    RunOne(d, restore);
    RunDropSlot(Apply(d, restore), tx);
    RunRemove(Run(d, a + b), tx);
  }

  /** The rollback of an update through the publisher's latest snapshot. */
  lemma RunRollback(d: Disk, tx: UpdateTx, restore: Cmd, now: Stamp)
    requires restore.PutSchema? || restore.DropSchema?
    requires LatestSnapshot(Apply(d, restore), tx.name).Some? && SnapshotConservation.NewStamp(d, now)
    ensures var f := Run(d, [restore] + RollbackProgram(Apply(d, restore), tx.name, now) + Remove(tx));
            && f.trees == SnapshotConservation.Swapped(Apply(d, restore), tx.name, now)
            && f.schema == Apply(d, restore).schema && f.updates == d.updates - {tx.txId} && f.journals == d.journals
  {
    var e := Apply(d, restore);
    var a, b, c := [restore], RollbackProgram(e, tx.name, now), Remove(tx);
    RunConcat(d, a + b, c, |a + b + c|);
    RunConcat(d, a, b, |a + b|);
    RunOne(d, restore);
    SnapshotConservation.RollbackEffect(e, tx.name, now);
    RunRemove(Run(d, a + b), tx);
  }

  // ---- what the update recovery decides ----

  /** Nothing moved: the journal is dropped. */
  lemma Abandoned(d0: Disk, c: Change, e: Disk, k: nat, now: Stamp)
    requires Startable(d0, c) && 2 <= k <= FirstMove(d0, c) && Recovered(d0, c, e, k)
    ensures RecoverUpdate(e, e.updates[c.txId], now) == Recovery(Remove(e.updates[c.txId]), true)
  {
    assert SameAt(Base(d0, e), e, c.Target());
  }

  lemma KeysAppend(a: seq<Unit>, b: seq<Unit>)
    ensures AllPresent(Keys(b), a + b)
  {
    forall i | 0 <= i < |Keys(b)| ensures Keys(b)[i] in Keys(a + b) {
      assert Keys(a + b)[|a| + i] == Keys(b)[i];
    }
  }

  lemma PresentSame(d0: Disk, c: Change, e: Disk, tx: UpdateTx)
    requires tx.pending == Keys(c.pending) && c.pending != [] && tx.coll == c.coll && e.schema == d0.schema && tx.schemaSeen == None
    requires ResourcesMatch(e, tx)
    requires tx.artifact.Some? ==> Slot(tx.name) in e.trees && e.trees[Slot(tx.name)].Whole? && e.trees[Slot(tx.name)].artifact == tx.artifact
    ensures SchemaVisible(e, tx) <==> KeysStale(d0, c)
  {
  }

  /** The tree is in the slot, the journal says publishing: the history decides. */
  lemma Interrupted(d0: Disk, c: Change, e: Disk, k: nat, now: Stamp)
    requires Startable(d0, c) && FirstMove(d0, c) < k <= Tail(d0, c) && Recovered(d0, c, e, k)
    ensures var tx := e.updates[c.txId];
            tx.txId == c.txId && tx.name == c.name && RecoverUpdate(e, tx, now) ==
              if KeysStale(d0, c) then Recovery([PutUpd(tx.(state := UpdCommitted))] + Remove(tx), true)
              else Recovery([RestoreSchema(e, tx)] + DropSlot(tx) + Remove(tx), true)
  {
    hide NewHistory, PublishedTx, CommittedTx, KeysStale, AllPresent, SchemaVisible;
    PresentSame(d0, c, e, e.updates[c.txId]);
  }

  /** The publication is journalled, the history has not been committed. */
  lemma Uncommitted(d0: Disk, c: Change, e: Disk, now: Stamp)
    requires Startable(d0, c) && Recovered(d0, c, e, Tail(d0, c) + 1)
    ensures var tx := e.updates[c.txId];
            && tx == PublishedTx(d0, c)
            && RecoverUpdate(e, tx, now) ==
               if KeysStale(d0, c) then Recovery([PutUpd(tx.(state := UpdCommitted))] + Remove(tx), true)
               else RollBack(e, tx, now)
  {
    hide NewHistory, CommittedTx, KeysStale, AllPresent, SchemaVisible, RollBack;
    BaseSwap(d0, e, c.Publication());
    PresentSame(d0, c, e, e.updates[c.txId]);
  }

  /** The history has been committed: the update is completed. */
  lemma Completed(d0: Disk, c: Change, e: Disk, k: nat, now: Stamp)
    requires Startable(d0, c) && Tail(d0, c) + 2 <= k <= Tail(d0, c) + 4 && Recovered(d0, c, e, k)
    ensures var tx := e.updates[c.txId];
            && tx.txId == c.txId
            && RecoverUpdate(e, tx, now) ==
               if k == Tail(d0, c) + 4 then Recovery(Remove(tx), true)
               else Recovery([PutUpd(tx.(state := UpdCommitted))] + Remove(tx), true)
  {
    hide AllPresent, Replay, IndexOf, Frame;
    BaseSwap(d0, e, c.Publication());
    KeysAppend(HistoryOf(d0, c.coll), c.pending);
  }

  // ---- the fate of the update ----

  lemma SlotOf(d0: Disk, c: Change, e: Disk, k: nat)
    requires Recovered(d0, c, e, k)
    ensures k <= FirstMove(d0, c) ==> SameAt(d0, e, c.Target())
    ensures k > FirstMove(d0, c) ==> NewInSlot(d0, c.Publication(), e)
  {
  }

  lemma SchemaRestored(d0: Disk, c: Change, e: Disk, tx: UpdateTx)
    requires e.schema == d0.schema && c.txId in e.schemaSnaps && e.schemaSnaps[c.txId] == HistoryOf(d0, c.coll)
    requires tx.txId == c.txId && tx.coll == c.coll && tx.schemaExisted == (c.coll in d0.schema)
    ensures Apply(e, RestoreSchema(e, tx)).schema == d0.schema
    ensures Apply(e, RestoreSchema(e, tx)).updates == e.updates && Apply(e, RestoreSchema(e, tx)).trees == e.trees
  {
  }

  lemma OnlyJournal(d0: Disk, c: Change, e: Disk, k: nat)
    requires BooksAt(d0, c, e, k) && 2 <= k <= Tail(d0, c) + 4
    ensures c.txId in e.updates && e.updates == map[c.txId := e.updates[c.txId]]
    ensures e.updates - {c.txId} == map[]
    ensures var tx := e.updates[c.txId];
            tx.txId == c.txId && tx.coll == c.coll && tx.name == c.name && tx.schemaExisted == (c.coll in d0.schema)
  {
    JournalHeld(d0, c, k);
  }

  lemma InterruptedEnds(d0: Disk, c: Change, e: Disk, k: nat, now: Stamp)
    requires Startable(d0, c) && FirstMove(d0, c) < k <= Tail(d0, c) && Recovered(d0, c, e, k)
    ensures var rec := RecoverUpdate(e, e.updates[c.txId], now);
            rec.ok && Ends(d0, c, Run(e, rec.cmds), FateOf(d0, c, k)) && Run(e, rec.cmds).updates == map[]
  {
    OnlyJournal(d0, c, e, k);
    SlotOf(d0, c, e, k);
    Interrupted(d0, c, e, k, now);
    var tx := e.updates[c.txId];
    assert e.schema == d0.schema && c.txId in e.schemaSnaps && e.schemaSnaps[c.txId] == HistoryOf(d0, c.coll);
    hide KeysStale, RecoverUpdate, BooksAt, Recovered, Startable;
    if KeysStale(d0, c) {
      RunCommit(e, tx);
    } else {
      SchemaRestored(d0, c, e, tx);
      RunRemoval(e, tx, RestoreSchema(e, tx));
    }
  }

  /** The publisher's own snapshot is the newest one. */
  lemma LatestIsBackup(d0: Disk, c: Change, e: Disk, f: Disk)
    requires Quiet(d0, c.Publication()) && Frame(Base(d0, e), c.Publication(), e) && NewInSlot(d0, c.Publication(), e)
    requires c.Target() in d0.trees && f.trees == e.trees
    ensures LatestSnapshot(f, c.name) == Some(c.Publication().Backup())
    ensures SnapshotConservation.NewStamp(e, c.now + 1)
  {
    forall p: Path | p in e.trees && p.Snapshot? && p != c.Publication().Backup() ensures p.at < c.now {
      assert SameAt(Base(d0, e), e, p);
    }
  }

  /** Rolling a journalled publication back restores tree and history exactly. */
  lemma RollBackEnds(d0: Disk, c: Change, e: Disk, now: Stamp)
    requires Startable(d0, c) && Recovered(d0, c, e, Tail(d0, c) + 1) && c.now < now
    ensures SnapshotConservation.NewStamp(e, now)
    ensures var rec := RollBack(e, e.updates[c.txId], now);
            rec.ok && Ends(d0, c, Run(e, rec.cmds), OldKept) && Run(e, rec.cmds).updates == map[]
  {
    hide Before, Unjournalled, Frame, Landed, Replay, IndexOf, LatestSnapshot, RollbackProgram, CommittedTx, NewHistory, StaleJournal;
    OnlyJournal(d0, c, e, Tail(d0, c) + 1);
    SlotOf(d0, c, e, Tail(d0, c) + 1);
    var tx := e.updates[c.txId];
    assert tx == PublishedTx(d0, c);
    SchemaRestored(d0, c, e, tx);
    var restore := RestoreSchema(e, tx);
    StampsBefore(d0, c, e);
    if c.Target() in d0.trees {
      LatestIsBackup(d0, c, e, Apply(e, restore));
      RunRollback(e, tx, restore, now);
    } else {
      assert tx.snapshot == None;
      RunRemoval(e, tx, restore);
    }
  }

  lemma StampsBefore(d0: Disk, c: Change, e: Disk)
    requires Quiet(d0, c.Publication()) && Frame(Base(d0, e), c.Publication(), e)
    ensures SnapshotConservation.NewStamp(e, c.now + 1)
  {
    forall p: Path | p in e.trees && p.Snapshot? && p != c.Publication().Backup() ensures p.at < c.now {
      assert SameAt(Base(d0, e), e, p);
    }
  }

  lemma UncommittedEnds(d0: Disk, c: Change, e: Disk, now: Stamp)
    requires Startable(d0, c) && Recovered(d0, c, e, Tail(d0, c) + 1) && c.now < now
    ensures var rec := RecoverUpdate(e, e.updates[c.txId], now);
            rec.ok && Ends(d0, c, Run(e, rec.cmds), FateOf(d0, c, Tail(d0, c) + 1)) && Run(e, rec.cmds).updates == map[]
  {
    OnlyJournal(d0, c, e, Tail(d0, c) + 1);
    SlotOf(d0, c, e, Tail(d0, c) + 1);
    Uncommitted(d0, c, e, now);
    hide RecoverUpdate, RollBack, BooksAt, Startable, KeysStale;
    if KeysStale(d0, c) {
      RunCommit(e, e.updates[c.txId]);
    } else {
      RollBackEnds(d0, c, e, now);
    }
  }

  lemma RecoveredBooks(d0: Disk, c: Change, e: Disk, k: nat)
    requires Recovered(d0, c, e, k)
    ensures BooksAt(d0, c, e, k)
    ensures k > FirstMove(d0, c) ==> NewInSlot(d0, c.Publication(), e)
    ensures k <= FirstMove(d0, c) ==> SameAt(d0, e, c.Target())
  {
    hide BooksAt, Replay, IndexOf;
  }

  lemma UpdateEnds(d0: Disk, c: Change, e: Disk, k: nat, now: Stamp)
    requires Startable(d0, c) && Recovered(d0, c, e, k) && 2 <= k <= Tail(d0, c) + 4 && c.now < now
    ensures var rec := RecoverUpdate(e, e.updates[c.txId], now);
            rec.ok && Ends(d0, c, Run(e, rec.cmds), FateOf(d0, c, k)) && Run(e, rec.cmds).updates == map[]
  {
    hide RecoverUpdate, RunFor, Startable, Recovered, KeysStale, Remove, NewHistory;
    if k <= FirstMove(d0, c) {
      RecoveredBooks(d0, c, e, k);
      OnlyJournal(d0, c, e, k);
      SlotOf(d0, c, e, k);
      Abandoned(d0, c, e, k, now);
      RunRemove(e, e.updates[c.txId]);
    } else if k <= Tail(d0, c) {
      InterruptedEnds(d0, c, e, k, now);
    } else if k == Tail(d0, c) + 1 {
      UncommittedEnds(d0, c, e, now);
    } else {
      PendingAppended(d0, c);
      RecoveredBooks(d0, c, e, k);
      OnlyJournal(d0, c, e, k);
      SlotOf(d0, c, e, k);
      Completed(d0, c, e, k, now);
      RunRemove(e, e.updates[c.txId]);
      RunCommit(e, e.updates[c.txId]);
    }
  }

  /** Losing power before any step k of a confirmed update, then a full restart: the fate of the
      update is decided by k alone. A tree that was moved in before the publication was journalled
      is removed again, the old one staying in its snapshot; from the journalled publication on the
      result is exactly (old, old) or (new, new). */
  lemma OneCrash(d0: Disk, c: Change, k: nat, txs: seq<PublishTx>, power: nat, updates: seq<UpdateTx>, now: Stamp)
    requires Startable(d0, c) && k <= Tail(d0, c) + 6 && c.now < now
    requires Lists(txs, RunFor(d0, UpdateProgram(d0, c), k).journals) && power >= 6 * |txs|
    requires ListsUpdates(updates, RecoverAll(RunFor(d0, UpdateProgram(d0, c), k), txs, power).0.updates)
    ensures var (e, s) := RecoverAll(RunFor(d0, UpdateProgram(d0, c), k), txs, power);
            var (f, ok) := RecoverUpdates(e, updates, now);
            s == Ready && ok && f.updates == map[] && Ends(d0, c, f, FateOf(d0, c, k))
  {
    hide RunFor, UpdateProgram, RecoverAll, Startable, UpdateAt, Lists, Recovered, SwapIndex, RecoverUpdate, Ends, ListsUpdates;
    UpdatePrefix(d0, c, k);
    var d := RunFor(d0, UpdateProgram(d0, c), k);
    PublisherRecovers(d0, c, d, k, txs, power);
    var e := RecoverAll(d, txs, power).0;
    if 2 <= k <= Tail(d0, c) + 4 {
      RecoveredJournal(d0, c, e, k);
      SingleUpdate(updates, e.updates, c.txId);
      UpdateEnds(d0, c, e, k, now);
      RecoverSingle(e, e.updates[c.txId], now);
    } else {
      RecoveredIdle(d0, c, e, k);
      NoUpdates(updates, e.updates);
    }
  }

  lemma RecoveredJournal(d0: Disk, c: Change, e: Disk, k: nat)
    requires Recovered(d0, c, e, k) && 2 <= k <= Tail(d0, c) + 4
    ensures c.txId in e.updates && e.updates == map[c.txId := e.updates[c.txId]]
  {
    hide BooksAt, Frame, Before, Unjournalled, Landed;
    OnlyJournal(d0, c, e, k);
  }

  lemma RecoveredIdle(d0: Disk, c: Change, e: Disk, k: nat)
    requires Recovered(d0, c, e, k) && !(2 <= k <= Tail(d0, c) + 4) && k <= Tail(d0, c) + 6
    ensures e.updates == map[] && Ends(d0, c, e, FateOf(d0, c, k))
  {
    PendingAppended(d0, c);
    hide NewHistory, WithPending;
    SlotOf(d0, c, e, k);
  }

  lemma SingleUpdate(updates: seq<UpdateTx>, m: map<Id, UpdateTx>, id: Id)
    requires ListsUpdates(updates, m) && id in m && m == map[id := m[id]]
    ensures updates == [m[id]]
  {
    var i :| 0 <= i < |updates| && updates[i].txId == id;
    assert forall k | 0 <= k < |updates| :: updates[k].txId in m;
    if |updates| > 1 { TwoDiffer(updates, m); }
  }

  lemma TwoDiffer(updates: seq<UpdateTx>, m: map<Id, UpdateTx>)
    requires ListsUpdates(updates, m) && |updates| > 1
    ensures updates[0].txId in m && updates[1].txId in m && updates[0].txId != updates[1].txId
  {
  }

  lemma FirstListed(updates: seq<UpdateTx>, m: map<Id, UpdateTx>)
    requires ListsUpdates(updates, m)
    ensures updates != [] ==> updates[0].txId in m
  {
  }

  lemma NoUpdates(updates: seq<UpdateTx>, m: map<Id, UpdateTx>)
    requires ListsUpdates(updates, m) && m == map[]
    ensures updates == []
  {
    FirstListed(updates, m);
  }

  lemma RecoverSingle(e: Disk, tx: UpdateTx, now: Stamp)
    requires RecoverUpdate(e, tx, now).ok
    ensures RecoverUpdates(e, [tx], now) == (Run(e, RecoverUpdate(e, tx, now).cmds), true)
  {
    assert [tx][1..] == [];
  }

  ghost predicate HoldsNew(c: Change, f: Disk) { c.Target() in f.trees && f.trees[c.Target()] == c.Publication().Tree() }

  /** Slot and history tell the same story: both new, or no new tree and the old history. */
  ghost predicate Agree(d0: Disk, c: Change, f: Disk) {
    f.schema == if HoldsNew(c, f) then WithPending(d0, c) else d0.schema
  }

  /** What the fates mean for slot and history together. */
  lemma FateDecides(d0: Disk, c: Change, k: nat, f: Disk)
    requires Startable(d0, c) && k <= Tail(d0, c) + 6 && Ends(d0, c, f, FateOf(d0, c, k))
    ensures Agree(d0, c, f) <==> !(KeysStale(d0, c) && FirstMove(d0, c) < k <= Tail(d0, c) + 1)
    ensures !KeysStale(d0, c) ==> (HoldsNew(c, f) <==> AllPresent(Keys(c.pending), HistoryOf(f, c.coll)))
    ensures !KeysStale(d0, c) && k > Tail(d0, c) ==> AllOld(d0, c, f) || AllNew(d0, c, f)
  {
    KeysAppend(HistoryOf(d0, c.coll), c.pending);
    PendingAppended(d0, c);
    hide WithPending;
    assert |NewHistory(d0, c)| > |HistoryOf(d0, c.coll)|;
    if c.coll in d0.schema {
      assert d0.schema[c.coll := NewHistory(d0, c)][c.coll] != d0.schema[c.coll];
    } else {
      assert c.coll in d0.schema[c.coll := NewHistory(d0, c)];
    }
    hide SwapIndex, Snap, AllPresent, NewHistory, Keys, HistoryOf;
  }

  ghost predicate AllOld(d0: Disk, c: Change, f: Disk) { SameAt(d0, f, c.Target()) && f.schema == d0.schema }

  ghost predicate AllNew(d0: Disk, c: Change, f: Disk) {
    HoldsNew(c, f) && f.schema == WithPending(d0, c)
  }

  /** The disk after losing power before step k, a full recovery of the publisher and one of the update. */
  ghost function RestartedDisk(d0: Disk, c: Change, k: nat, txs: seq<PublishTx>, power: nat, updates: seq<UpdateTx>, now: Stamp): Disk {
    RecoverUpdates(RecoverAll(RunFor(d0, UpdateProgram(d0, c), k), txs, power).0, updates, now).0
  }

  /** All or nothing, on the restarted disk. When some pending key is new to the history, a crash before any step
      leaves slot and history in agreement, and the new tree is there exactly when all pending keys are in the
      history. When every pending key was in the history before, agreement is lost exactly for a crash
      between the first move of a tree and the commit of the history. */
  lemma AllOrNothing(d0: Disk, c: Change, k: nat, txs: seq<PublishTx>, power: nat, updates: seq<UpdateTx>, now: Stamp)
    requires Startable(d0, c) && k <= Tail(d0, c) + 6 && c.now < now
    requires Lists(txs, RunFor(d0, UpdateProgram(d0, c), k).journals) && power >= 6 * |txs|
    requires ListsUpdates(updates, RecoverAll(RunFor(d0, UpdateProgram(d0, c), k), txs, power).0.updates)
    ensures var f := RestartedDisk(d0, c, k, txs, power, updates, now);
            && (Agree(d0, c, f) <==> !(KeysStale(d0, c) && FirstMove(d0, c) < k <= Tail(d0, c) + 1))
            && (!KeysStale(d0, c) ==> (HoldsNew(c, f) <==> AllPresent(Keys(c.pending), HistoryOf(f, c.coll))))
            && (!KeysStale(d0, c) && k > Tail(d0, c) ==> AllOld(d0, c, f) || AllNew(d0, c, f))
  {
    hide RunFor, UpdateProgram, RecoverAll, RecoverUpdates, Startable, Lists, ListsUpdates, Ends, Agree, HoldsNew, AllPresent, KeysStale, Tail, FirstMove;
    OneCrash(d0, c, k, txs, power, updates, now);
    FateDecides(d0, c, k, RestartedDisk(d0, c, k, txs, power, updates, now));
  }

  // ---- legal transitions ----

  /** Every journal write of the program moves its transaction along the lifecycle graph. */
  ghost predicate Lawful(d: Disk, prog: seq<Cmd>)
    decreases |prog|
  {
    prog == [] ||
    (&& (prog[0].PutUpd? && prog[0].upd.txId in d.updates ==> CanTransition(d.updates[prog[0].upd.txId].state, prog[0].upd.state))
     && Lawful(Apply(d, prog[0]), prog[1..]))
  }

  ghost predicate NoJournalWrite(prog: seq<Cmd>) { forall i | 0 <= i < |prog| :: !prog[i].PutUpd? }

  lemma {:induction false} LawfulWithout(d: Disk, prog: seq<Cmd>)
    requires NoJournalWrite(prog)
    ensures Lawful(d, prog)
    decreases |prog|
  {
    if prog != [] { LawfulWithout(Apply(d, prog[0]), prog[1..]); }
  }

  lemma RollbackSilent(d: Disk, name: string, now: Stamp)
    requires LatestSnapshot(d, name).Some?
    ensures NoJournalWrite(RollbackProgram(d, name, now))
  {
  }

  lemma GiveUpLawful(d: Disk, tx: UpdateTx)
    requires tx.txId in d.updates && d.updates[tx.txId] == tx && !tx.state.UpdCommitted?
    ensures Lawful(d, [GiveUp(tx)])
  {
    assert [GiveUp(tx)][1..] == [];
  }

  lemma RollBackLawful(d: Disk, tx: UpdateTx, now: Stamp)
    requires tx.txId in d.updates && d.updates[tx.txId] == tx && !tx.state.UpdCommitted?
    ensures Lawful(d, RollBack(d, tx, now).cmds)
  {
    var prog := RollBack(d, tx, now).cmds;
    if tx.txId !in d.schemaSnaps {
      GiveUpLawful(d, tx);
    } else if RollBack(d, tx, now).ok {
      if tx.snapshot.Some? { RollbackSilent(Apply(d, RestoreSchema(d, tx)), tx.name, now); }
      hide RollbackProgram, LatestSnapshot;
      LawfulWithout(d, prog);
    } else {
      assert prog == [RestoreSchema(d, tx), GiveUp(tx)];
      hide RollBack;
      GiveUpLawful(Apply(d, prog[0]), tx);
      assert prog[1..] == [GiveUp(tx)];
    }
  }

  /** Recovery never asks for an illegal transition, whatever is on the disk. */
  lemma RecoveryLawful(d: Disk, tx: UpdateTx, now: Stamp)
    requires tx.txId in d.updates && d.updates[tx.txId] == tx
    ensures Lawful(d, RecoverUpdate(d, tx, now).cmds)
  {
    var prog := RecoverUpdate(d, tx, now).cmds;
    LawfulWithout(d, Remove(tx));
    if prog == [PutUpd(tx.(state := UpdCommitted))] + Remove(tx) {
      assert prog[1..] == Remove(tx);
      LawfulWithout(Apply(d, prog[0]), Remove(tx));
    } else if prog == RollBack(d, tx, now).cmds && tx.state != UpdCommitted {
      RollBackLawful(d, tx, now);
    }
  }

  lemma {:induction false} LawfulFrom(d0: Disk, c: Change, k: nat)
    requires Startable(d0, c) && k <= Tail(d0, c) + 6
    ensures Lawful(RunFor(d0, UpdateProgram(d0, c), k), UpdateProgram(d0, c)[k..])
    decreases Tail(d0, c) + 6 - k
  {
    var prog := UpdateProgram(d0, c);
    if k < |prog| {
      UpdatePrefix(d0, c, k);
      RunSnoc(d0, prog, k);
      LawfulFrom(d0, c, k + 1);
      assert prog[k..][0] == prog[k] && prog[k..][1..] == prog[k + 1..];
      StepLawful(d0, c, RunFor(d0, prog, k), k);
    }
  }

  lemma StepLawful(d0: Disk, c: Change, d: Disk, k: nat)
    requires d0.updates == map[] && BooksAt(d0, c, d, k) && k < Tail(d0, c) + 6
    ensures var cmd := UpdateStep(d0, c, k);
            cmd.PutUpd? && cmd.upd.txId in d.updates ==> CanTransition(d.updates[cmd.upd.txId].state, cmd.upd.state)
  {
    hide NewHistory, PublishedIndex, Snap, Replay, IndexOf, Entry, HistoryOf, SwapIndex;
  }

  /** Neither does execute. */
  lemma ExecuteLawful(d0: Disk, c: Change)
    requires Startable(d0, c)
    ensures Lawful(d0, UpdateProgram(d0, c))
  {
    LawfulFrom(d0, c, 0);
    assert UpdateProgram(d0, c)[0..] == UpdateProgram(d0, c);
  }
}
