/** Power loss while execute undoes an update that has failed: in the except block of the inner publication, while
    the journal is withdrawn, or while a failed commit is rolled back. */
module UpdateHandlerCrash {
  import opened Knowledge
  import opened Storage
  import opened PublishProtocol
  import opened PublishAtomicity
  import opened UpdateProtocol
  import opened UpdateAtomicity
  import UpdateRestarts
  import H = PublishHandlerCrash

  // ---- the publisher leaves the bookkeeping alone ----

  predicate NoBooks(prog: seq<Cmd>) { forall i | 0 <= i < |prog| :: !Bookkeeping(prog[i]) }

  lemma {:induction false} RunKeepsBooks(d: Disk, prog: seq<Cmd>, k: nat)
    requires NoBooks(prog)
    ensures SameBooks(d, RunFor(d, prog, k))
    decreases |prog|
  {
    if prog != [] && k > 0 {
      BooksStay(d, prog[0]);
      hide Apply, Bookkeeping;
      RunKeepsBooks(Apply(d, prog[0]), prog[1..], k - 1);
    }
  }

  lemma RecoverOneNoBooks(d: Disk, tx: PublishTx)
    ensures NoBooks(RecoverOne(d, tx).cmds)
  {
    hide Replay, IndexOf, Logged, RunFor, Verifies;
  }

  lemma HandlerNoBooks(had: bool, d: Disk, r: Request, swapped: bool)
    ensures NoBooks(HandlerProgram(had, d, r, swapped))
  {
    UndoNoBooks(d, r);
    ReportNoBooks(had, d, r);
    hide Undo, Report;
  }

  lemma UndoNoBooks(d: Disk, r: Request)
    ensures NoBooks(Undo(d, r))
  {
    hide UniqueSibling;
  }

  lemma ReportNoBooks(had: bool, d: Disk, r: Request)
    ensures NoBooks(Report(had, d, r))
  {
    hide Replay, IndexOf;
  }

  lemma {:induction false} RecoverAllKeepsBooks(d: Disk, txs: seq<PublishTx>, power: nat)
    ensures SameBooks(d, RecoverAll(d, txs, power).0)
    decreases |txs|
  {
    hide RunFor, RecoverOne, NoBooks;
    if txs != [] {
      var rec := RecoverOne(d, txs[0]);
      RecoverOneNoBooks(d, txs[0]);
      RunKeepsBooks(d, rec.cmds, power);
      RunKeepsBooks(d, rec.cmds, |rec.cmds|);
      if power >= |rec.cmds| { RecoverAllKeepsBooks(Run(d, rec.cmds), txs[1..], power - |rec.cmds|); }
    }
  }

  // ---- an open journal that says publishing ----

  /** The transaction is open, nothing of it is committed, and its journal knows no publication yet. */
  ghost predicate Opened(d0: Disk, c: Change, g: Disk, tx: UpdateTx) {
    && tx.state in {UpdPrepared, UpdPublishing} && tx == c.Begun(c.coll in d0.schema).(state := tx.state)
    && g.updates == map[c.txId := tx] && g.schema == d0.schema
    && c.txId in g.schemaSnaps && g.schemaSnaps[c.txId] == HistoryOf(d0, c.coll)
  }

  /** What update recovery makes of it: a slot that does not carry the new tree is left alone; one that does is
      committed if the keys were in the history all along, and emptied otherwise. */
  lemma OpenedResolves(d0: Disk, c: Change, g: Disk, tx: UpdateTx, now: Stamp)
    requires c.pending != [] && Opened(d0, c, g, tx) && (tx.state == UpdPrepared ==> !Carries(g, c.name, c.txId))
    ensures var (f, ok) := RecoverUpdates(g, [tx], now);
            && ok && f.updates == map[] && f.schema == d0.schema
            && f.trees == if Carries(g, c.name, c.txId) && !KeysStale(d0, c) then g.trees - {c.Target()} else g.trees
  {
    hide RunFor, RollbackProgram, LatestSnapshot;
    var rec := RecoverUpdate(g, tx, now);
    assert map[c.txId := tx] - {c.txId} == map[];
    SchemaRestored(d0, c, g, tx);
    assert |Keys(c.pending)| == |c.pending|;
    RestoreLeavesTrees(g, tx);
    if !Carries(g, c.name, c.txId) {
      assert rec == Recovery(Remove(tx), true);
      RunRemove(g, tx);
    } else if KeysStale(d0, c) {
      assert rec == Recovery([PutUpd(tx.(state := UpdCommitted))] + Remove(tx), true);
      RunCommit(g, tx);
    } else {
      assert rec == Recovery([RestoreSchema(g, tx)] + DropSlot(tx) + Remove(tx), true);
      RunRemoval(g, tx, RestoreSchema(g, tx));
    }
    RecoverSingle(g, tx, now);
  }

  lemma RestoreLeavesTrees(g: Disk, tx: UpdateTx)
    requires tx.txId in g.schemaSnaps
    ensures Apply(g, RestoreSchema(g, tx)).trees == g.trees
  {
  }

  // ---- in the except block of the inner publication ----

  /** Where the slot ends, by what the publisher's recovery left in it. */
  function SlotAfter(d0: Disk, c: Change, fate: H.SlotFate): Option<Tree> {
    match fate
    case AsBefore => H.TreeAt(d0, c.Target())
    case NewTree => if KeysStale(d0, c) then Some(c.Publication().Tree()) else None
    case TornReadable => if KeysStale(d0, c) then Some(Torn(Some(c.txId))) else None
    case TornTree => Some(Torn(None))
    case Emptied => None
  }

  /** The disk on which the publication starts, and the one on which power is lost in its except block. */
  function Published3(d0: Disk, c: Change): Disk { RunFor(d0, UpdateProgram(d0, c), 3) }

  /** A publication that fails inside an update and whose except block loses power, for every step n that failed and
      every step k of the except block: startup gives up exactly when the publisher does; otherwise both recoveries
      complete, the history is the old one, and the slot is as stated. */
  lemma PublishUndoRestart(
      d0: Disk, c: Change, n: nat, k: nat, txs: seq<PublishTx>, power: nat, updates: seq<UpdateTx>, now: Stamp)
    requires Startable(d0, c) && n < |PublishProgram(Published3(d0, c), c.Publication())|
    requires Lists(txs, H.Interrupted(Published3(d0, c), c.Publication(), n, k).journals) && power >= 6 * |txs|
    requires ListsUpdates(updates, RecoverAll(H.Interrupted(Published3(d0, c), c.Publication(), n, k), txs, power).0.updates)
    ensures var d3, r := Published3(d0, c), c.Publication();
            var (g, s) := RecoverAll(H.Interrupted(d3, r, n, k), txs, power);
            && s == (if H.StillOpen(d3, r, n, k) && H.Blocked(d3, r, n, k) then Stuck else Ready)
            && (s == Ready ==>
                  var (f, ok) := RecoverUpdates(g, updates, now);
                  && ok && f.updates == map[] && f.schema == d0.schema
                  && H.TreeAt(f, c.Target()) == SlotAfter(d0, c, H.FateOf(d3, r, n, k))
                  && (c.Target() in d0.trees ==>
                        H.TreeAt(f, c.Target()) == H.TreeAt(d0, c.Target()) || H.TreeAt(f, r.Backup()) == H.TreeAt(d0, c.Target())))
  {
    hide RunFor, UpdateProgram, PublishProgram, Startable, Quiet, Lists, RecoverAll, RecoverUpdates, ListsUpdates,
         H.Interrupted, H.StillOpen, H.Blocked, H.FateOf, KeysStale;
    var d3, r := Published3(d0, c), c.Publication();
    ReadyToPublish(d0, c);
    H.HandlerRestart(d3, r, n, k, txs, power);
    var (g, s) := RecoverAll(H.Interrupted(d3, r, n, k), txs, power);
    BooksAtRestart(d0, c, n, k, txs, power);
    var tx := c.Begun(c.coll in d0.schema).(state := UpdPublishing);
    if s == Ready {
      SingleUpdate(updates, g.updates, c.txId);
      OpenedResolves(d0, c, g, tx, now);
      SlotCarries(d0, d3, c, g, H.FateOf(d3, r, n, k));
    }
  }

  lemma ReadyToPublish(d0: Disk, c: Change)
    requires Startable(d0, c)
    ensures var d3 := Published3(d0, c);
            && Quiet(d3, c.Publication()) && d3.trees == d0.trees && c.pending != []
            && Opened(d0, c, d3, c.Begun(c.coll in d0.schema).(state := UpdPublishing))
            && !Carries(d0, c.name, c.txId)
  {
    hide RunFor, UpdateProgram, At, Frame, Before, Quiet, Replay, IndexOf;
    UpdatePrefix(d0, c, 3);
    OpenedAt(d0, c, Published3(d0, c));
    BooksOnly(d0, c);
    QuietBase(d0, Published3(d0, c), c.Publication());
  }

  lemma OpenedAt(d0: Disk, c: Change, d: Disk)
    requires UpdateAt(d0, c, d, 3)
    ensures Opened(d0, c, d, c.Begun(c.coll in d0.schema).(state := UpdPublishing))
  {
    hide At, PublishedTx, CommittedTx, NewHistory, SwapIndex;
  }

  /** The first three steps write books only. */
  lemma BooksOnly(d0: Disk, c: Change)
    ensures var d3 := Published3(d0, c); d3.trees == d0.trees && Base(d0, d3) == d3
  {
    hide RunFor, SwapIndex, PublishStep;
    var prog := UpdateProgram(d0, c);
    RunNone(d0, prog);
    RunSnoc(d0, prog, 0);
    RunSnoc(d0, prog, 1);
    RunSnoc(d0, prog, 2);
  }

  lemma BooksAtRestart(d0: Disk, c: Change, n: nat, k: nat, txs: seq<PublishTx>, power: nat)
    requires Startable(d0, c)
    ensures var d3 := Published3(d0, c);
            Opened(d0, c, RecoverAll(H.Interrupted(d3, c.Publication(), n, k), txs, power).0, c.Begun(c.coll in d0.schema).(state := UpdPublishing))
  {
    hide RunFor, UpdateProgram, PublishProgram, HandlerProgram, RecoverAll, Startable, Quiet, NoBooks;
    var d3, r := Published3(d0, c), c.Publication();
    ReadyToPublish(d0, c);
    PublishNoBooks(d3, r);
    RunKeepsBooks(d3, PublishProgram(d3, r), n);
    var d := RunFor(d3, PublishProgram(d3, r), n);
    HandlerNoBooks(r.Target() in d3.trees, d, r, n > SwapIndex(d3, r));
    RunKeepsBooks(d, HandlerProgram(r.Target() in d3.trees, d, r, n > SwapIndex(d3, r)), k);
    RecoverAllKeepsBooks(H.Interrupted(d3, r, n, k), txs, power);
  }

  lemma PublishNoBooks(d: Disk, r: Request)
    ensures NoBooks(PublishProgram(d, r))
  {
    hide PublishStep, Own, Bookkeeping;
    forall i: nat | i < |PublishProgram(d, r)| ensures !Bookkeeping(PublishProgram(d, r)[i]) {
      StepIsOwn(d, r, i);
      OwnIsNoBook(r, PublishStep(d, r, i));
    }
  }

  lemma OwnIsNoBook(r: Request, c: Cmd)
    requires Own(r, c)
    ensures !Bookkeeping(c)
  {
  }

  lemma SlotCarries(d0: Disk, d3: Disk, c: Change, g: Disk, fate: H.SlotFate)
    requires d3.trees == d0.trees && !Carries(d0, c.name, c.txId) && H.SlotIs(d3, c.Publication(), fate, H.TreeAt(g, c.Target()))
    ensures Carries(g, c.name, c.txId) <==> fate == H.NewTree || fate == H.TornReadable
    ensures H.TreeAt(d3, c.Target()) == H.TreeAt(d0, c.Target())
  {
  }

  // ---- while the journal is withdrawn ----

  /** Nothing of the update is left but its journal, of which the first j steps of the removal are done. */
  ghost predicate Withdrawing(d0: Disk, c: Change, e: Disk) {
    exists d: Disk, tx: UpdateTx, j: nat :: Withdrawable(d0, c, d, tx) && e == RunFor(d, Remove(tx), j)
  }

  ghost predicate Withdrawable(d0: Disk, c: Change, d: Disk, tx: UpdateTx) {
    Opened(d0, c, d, tx) && H.TreeAt(d, c.Target()) == H.TreeAt(d0, c.Target())
  }

  lemma WithdrawingFrom(d0: Disk, c: Change, d: Disk, tx: UpdateTx, j: nat)
    requires Withdrawable(d0, c, d, tx)
    ensures Withdrawing(d0, c, RunFor(d, Remove(tx), j))
  {
    hide Withdrawable, RunFor;
  }

  /** Whatever the publisher's recovery does outside the slot and the books, update recovery ends with the old tree and
      the old history. */
  lemma WithdrawnIsOld(d0: Disk, c: Change, e: Disk, g: Disk, updates: seq<UpdateTx>, now: Stamp)
    requires Startable(d0, c) && Withdrawing(d0, c, e)
    requires SameBooks(e, g) && H.TreeAt(g, c.Target()) == H.TreeAt(e, c.Target()) && ListsUpdates(updates, g.updates)
    ensures var (f, ok) := RecoverUpdates(g, updates, now);
            ok && f.updates == map[] && Ends(d0, c, f, OldKept)
  {
    hide Quiet, ListsUpdates, KeysStale;
    var d, tx, j :| Withdrawable(d0, c, d, tx) && e == RunFor(d, Remove(tx), j);
    RemovePrefix(d, tx, j);
    if j == 0 {
      hide RunFor, RecoverUpdates;
      SingleUpdate(updates, g.updates, c.txId);
      OpenedResolves(d0, c, g, tx, now);
    } else {
      hide RunFor;
      NoUpdates(updates, g.updates);
    }
  }

  // ---- while a failed commit is rolled back ----

  /** The publication is journalled, the write of the history failed, and j steps of the rollback are done. */
  ghost predicate RollingBack(d0: Disk, c: Change, now: Stamp, e: Disk) {
    var d := RunFor(d0, UpdateProgram(d0, c), Tail(d0, c) + 1);
    exists j: nat :: e == RunFor(d, RollBack(d, PublishedTx(d0, c), now).cmds, j)
  }

  /** With a new key this is the rollback that a restart after a crash at the same point makes, so power lost in it
      counts as one interrupted restart in the theorems of UpdateRestarts. */
  lemma RollingBackIsRecovery(d0: Disk, c: Change, now: Stamp)
    requires Startable(d0, c) && !KeysStale(d0, c) && c.now < now
    ensures var d, tx := RunFor(d0, UpdateProgram(d0, c), Tail(d0, c) + 1), PublishedTx(d0, c);
            && RollBack(d, tx, now) == RecoverUpdate(d, tx, now)
            && (forall j: nat :: RunFor(d, RollBack(d, tx, now).cmds, j) ==
                                 UpdateRestarts.Interrupt(d, c.txId, UpdateRestarts.Restart(j, now)))
            && (c.Target() in d0.trees ==> UpdateRestarts.Uncommitted(d0, c, d, now))
            && (c.Target() !in d0.trees ==> UpdateRestarts.Deletes(c, d, tx))
  {
    hide RunFor, UpdateProgram, Startable, RollBack, UpdateRestarts.Deletes, At, Frame, Landed, Before, Unjournalled, Between, AfterSwap;
    var n := Tail(d0, c) + 1;
    var d := RunFor(d0, UpdateProgram(d0, c), n);
    UpdatePrefix(d0, c, n);
    RecoveredBehindTail(d0, c, d);
    OnlyJournal(d0, c, d, n);
    Uncommitted(d0, c, d, now);
    if c.Target() !in d0.trees { UpdateRestarts.DeletesArises(d0, c, d, n); }
  }

  lemma RecoveredBehindTail(d0: Disk, c: Change, d: Disk)
    requires UpdateAt(d0, c, d, Tail(d0, c) + 1)
    ensures Recovered(d0, c, d, Tail(d0, c) + 1) && d.updates == map[c.txId := PublishedTx(d0, c)]
  {
    hide At, Before, Between, Unjournalled, AfterSwap, Landed, Frame, PublishedTx, CommittedTx, PublishStep, Entry, Snap;
    BaseSwap(d0, d, c.Publication());
    AtPhase(Base(d0, d), c.Publication(), d, PublishSteps(d0, c, Tail(d0, c) + 1));
  }

  // ---- all of them ----

  /** Power was lost while execute undid what it had done. */
  ghost predicate Undoing(d0: Disk, c: Change, now: Stamp, e: Disk) {
    || H.DuringUndo(Published3(d0, c), c.Publication(), e)
    || Withdrawing(d0, c, e)
    || RollingBack(d0, c, now, e)
  }
}
