/** What publish leaves behind when one of its steps raises: the except block undoes the attempt,
    and the derived index reads as if it had never been made. */
module PublishFailure {
  import opened Knowledge
  import opened Storage
  import opened PublishProtocol
  import opened PublishAtomicity
  import opened PublishOutcome

  // ---- the derived index forgets a compensated attempt ----

  lemma {:induction false} ReplayedEntries(log: seq<LogEntry>, name: string, i: nat)
    requires i < |Past(Replay(log), name)|
    ensures Past(Replay(log), name)[i] in log && Past(Replay(log), name)[i].success
  {
    var init := log[..|log| - 1];
    var past := Past(Replay(init), name);
    if i < |past| {
      ReplayedEntries(init, name, i);
      assert past[i] in log;
    }
  }

  lemma ReplayAppend(log: seq<LogEntry>, e: LogEntry)
    ensures Replay(log + [e]) == ApplyEntry(Replay(log), e)
  {
    assert (log + [e])[..|log|] == log;
  }

  lemma CancelUnwritten(log: seq<LogEntry>, failed: LogEntry)
    requires !failed.success && failed.publishId.Some? && !Logged(log, failed.publishId.value)
    ensures ApplyEntry(Replay(log), failed) == Replay(log)
  {
    var past := Past(Replay(log), failed.name);
    if past != [] {
      ReplayedEntries(log, failed.name, |past| - 1);
      var i :| 0 <= i < |log| && log[i] == past[|past| - 1];
      assert log[i].publishId != failed.publishId;
    }
  }

  lemma CancelWritten(h: History, written: LogEntry, failed: LogEntry)
    requires written.success && !failed.success && SameAttempt(written, failed)
    ensures IndexOf(ApplyEntry(ApplyEntry(h, written), failed)) == IndexOf(h)
  {
    var past := Past(h, failed.name);
    assert (past + [written])[..|past|] == past;
    assert ApplyEntry(ApplyEntry(h, written), failed) == h[failed.name := past];
  }

  /** A failed publish leaves the derived index as it was, whether or not its success entry had
      been written before the failure. */
  lemma FailureCancels(d0: Disk, r: Request, log: seq<LogEntry>)
    requires !Logged(d0.log, r.publishId)
    requires log == d0.log || log == d0.log + [Entry(d0, r)]
    ensures IndexOf(Replay(log + [FailureEntry(r, Snap(d0, r))])) == IndexOf(Replay(d0.log))
  {
    var failed := FailureEntry(r, Snap(d0, r));
    ReplayAppend(log, failed);
    if log == d0.log {
      CancelUnwritten(log, failed);
    } else {
      ReplayAppend(d0.log, Entry(d0, r));
      CancelWritten(Replay(d0.log), Entry(d0, r), failed);
    }
  }

  // ---- the except block ----

  lemma RunFour(d: Disk, a: Cmd, b: Cmd, c: Cmd, e: Cmd)
    ensures Run(d, [a, b, c, e]) == Apply(Apply(Apply(Apply(d, a), b), c), e)
  {
    var prog := [a, b, c, e];
    RunSnoc(d, prog, 0);
    RunSnoc(d, prog, 1);
    RunSnoc(d, prog, 2);
    RunSnoc(d, prog, 3);
  }

  /** The disk after k steps of removing a tree. */
  lemma RunRemoveTree(d: Disk, p: Path, t: Tree, k: nat)
    requires k <= 3
    ensures RunFor(d, RemoveTree(p, t), k) == d.(trees := RemovedFor(d.trees, p, t, k))
  {
    var prog := RemoveTree(p, t);
    assert d.trees[p := Torn(t.txId)][p := Torn(None)] == d.trees[p := Torn(None)];
    assert d.trees[p := Torn(None)] - {p} == d.trees - {p};
    hide RunFor;
    RunNone(d, prog);
    RunSnoc(d, prog, 0);
    RunSnoc(d, prog, 1);
    RunSnoc(d, prog, 2);
  }

  function RemovedFor(trees: map<Path, Tree>, p: Path, t: Tree, k: nat): map<Path, Tree> {
    if k == 0 then trees else if k == 1 then trees[p := Torn(t.txId)] else if k == 2 then trees[p := Torn(None)] else trees - {p}
  }

  lemma RunCleanup(d: Disk, p: Path)
    ensures Run(d, Cleanup(d, p)) == d.(trees := d.trees - {p})
  {
    if p in d.trees {
      RunRemoveTree(d, p, d.trees[p], 3);
    } else {
      assert d.trees - {p} == d.trees;
    }
  }

  lemma RunRestore(d: Disk, target: Path, snap: Path)
    requires target.Slot? && snap.Snapshot? && snap in d.trees
    ensures Run(d, RestoreOnFailure(d, target, snap)) == d.(trees := (d.trees - {snap})[target := d.trees[snap]])
  {
    if target in d.trees {
      var aside := UniqueSibling(d, target.name);
      RunFour(d, Rename(target, aside), Rename(snap, target), WriteTree(aside, Torn(None)), DropTree(aside));
      assert Run(d, RestoreOnFailure(d, target, snap)).trees == (d.trees - {snap})[target := d.trees[snap]];
    } else {
      RunSnoc(d, [Rename(snap, target)], 0);
    }
  }

  function Restored(d: Disk, r: Request): map<Path, Tree> {
    var cleaned := d.trees - {r.Staged()};
    if r.Backup() in d.trees then (cleaned - {r.Backup()})[r.Target() := d.trees[r.Backup()]] else cleaned - {r.Target()}
  }

  lemma UndoEffect(d: Disk, d1: Disk, r: Request)
    requires d1 == d.(trees := d.trees - {r.Staged()})
    ensures Run(d1, Undo(d, r)) == d.(trees := Restored(d, r))
  {
    if r.Backup() in d.trees {
      SameSibling(d, d1, r);
      RunRestore(d1, r.Target(), r.Backup());
    } else {
      RunCleanup(d1, r.Target());
      assert Undo(d, r) == Undo(d1, r);
    }
  }

  lemma ReportEffect(had: bool, d: Disk, d2: Disk, r: Request)
    requires d2.log == d.log
    ensures var e := Run(d2, Report(had, d, r));
            var failed := FailureEntry(r, if had then Some(r.Backup()) else None);
            && e.trees == d2.trees && e.journals == d2.journals - {r.publishId}
            && e.log == d.log + [failed] && e.index == Some(IndexOf(Replay(d.log + [failed])))
            && e.pointers == (if r.Backup() in d.trees then d2.pointers[r.name := Pointer(StampVersion(r.now), d.trees[r.Backup()].txId)]
                              else d2.pointers - {r.name})
            && e.updates == d2.updates && e.schema == d2.schema && e.schemaSnaps == d2.schemaSnaps
  {
    var p := Report(had, d, r);
    RunFour(d2, p[0], p[1], p[2], p[3]);
  }

  /** The disk after the except block. */
  lemma HandlerEffect(had: bool, d: Disk, r: Request, swapped: bool)
    ensures var e := Run(d, HandlerProgram(had, d, r, swapped));
            var failed := FailureEntry(r, if had then Some(r.Backup()) else None);
            if r.Backup() in d.trees || swapped then
              && e.trees == Restored(d, r) && e.journals == d.journals - {r.publishId}
              && e.log == d.log + [failed] && e.index == Some(IndexOf(Replay(d.log + [failed])))
              && e.pointers == (if r.Backup() in d.trees then d.pointers[r.name := Pointer(StampVersion(r.now), d.trees[r.Backup()].txId)]
                                else d.pointers - {r.name})
              && e.updates == d.updates && e.schema == d.schema && e.schemaSnaps == d.schemaSnaps
            else e == d.(trees := d.trees - {r.Staged()})
  {
    hide RunFor, Undo, Report, Cleanup, Replay, IndexOf;
    var first, second, third := Cleanup(d, r.Staged()), Undo(d, r), Report(had, d, r);
    RunCleanup(d, r.Staged());
    if r.Backup() in d.trees || swapped {
      var d1 := Run(d, first);
      UndoEffect(d, d1, r);
      ReportEffect(had, d, Run(d1, second), r);
      RunConcat(d, first, second + third, |first + (second + third)|);
      RunConcat(d1, second, third, |second + third|);
    } else {
      assert first + [] == first;
    }
  }

  lemma SameSibling(d: Disk, d1: Disk, r: Request)
    requires d1 == d.(trees := d.trees - {r.Staged()})
    ensures RestoreOnFailure(d, r.Target(), r.Backup()) == RestoreOnFailure(d1, r.Target(), r.Backup())
  {
    assert (set p | p in d.trees && p.Displaced? && p.name == r.name :: p.index)
        == (set p | p in d1.trees && p.Displaced? && p.name == r.name :: p.index);
  }

  /** Before the swap nothing but the snapshot rename has moved, after it the slot is new: in
      each case the undone trees are the old ones. */
  lemma RestoredSlots(d0: Disk, r: Request, d: Disk, n: nat)
    requires Quiet(d0, r) && At(d0, r, d, n)
    ensures if r.Backup() in d.trees || n > SwapIndex(d0, r)
            then forall p: Path | !p.Staging? :: SameAt(d0, d.(trees := Restored(d, r)), p)
            else forall p: Path | !p.Staging? :: SameAt(d0, d.(trees := d.trees - {r.Staged()}), p)
  {
    hide At, Open, PointerSame, Logged, StaleJournal;
    AtTrees(d0, r, d, n);
    assert r.Backup() !in d0.trees;
  }

  lemma AtTrees(d0: Disk, r: Request, d: Disk, n: nat)
    requires At(d0, r, d, n)
    ensures Frame(d0, r, d) && (Before(d0, r, d) || Between(d0, r, d) || NewInSlot(d0, r, d))
    ensures n > SwapIndex(d0, r) ==> NewInSlot(d0, r, d)
    ensures n <= SwapIndex(d0, r) ==> Before(d0, r, d) || Between(d0, r, d)
  {
    hide Frame, Before, Between, NewInSlot, Replay, IndexOf, Entry;
  }

  lemma StaleAfterFailure(d0: Disk, r: Request, d: Disk, n: nat)
    requires Quiet(d0, r) && At(d0, r, d, n) && r.Backup() !in d.trees && n <= SwapIndex(d0, r)
    ensures r.publishId in d.journals ==> StaleJournal(d.(trees := d.trees - {r.Staged()}), r.publishId, r.now + 1)
    ensures d.index == d0.index
  {
  }

  /** The index as it would be rebuilt from the log of before. */
  function Rebuilt(d0: Disk): Option<Index> { Some(IndexOf(Replay(d0.log))) }

  /** The active pointer after an undo: it names the time of the undo over a restored tree, and goes with a first publish. */
  ghost predicate PointerUndone(d0: Disk, r: Request, e: Disk) {
    if Slot(r.name) in d0.trees then
      r.name in e.pointers && e.pointers[r.name] == Pointer(StampVersion(r.now), d0.trees[Slot(r.name)].txId)
    else r.name !in e.pointers
  }

  /** The log lines of the attempt: none, its failure, or its success and its failure. */
  ghost predicate AttemptLogged(d0: Disk, r: Request, e: Disk) {
    || e.log == d0.log
    || e.log == d0.log + [PublishLine(d0, r, false)]
    || e.log == d0.log + [PublishLine(d0, r, true)] + [PublishLine(d0, r, false)]
  }

  /** Everything is as before. The index file, if the except block wrote it, is the one rebuilt from the old log. */
  ghost predicate Compensated(d0: Disk, r: Request, e: Disk) {
    && (forall p: Path | !p.Staging? :: SameAt(d0, e, p)) && r.Staged() !in e.trees
    && (e.index == d0.index || e.index == Rebuilt(d0))
    && OtherPointers(d0, e, r.name) && (PointerSame(d0, r, e) || PointerUndone(d0, r, e)) && AttemptLogged(d0, r, e)
    && e.updates == d0.updates && e.schema == d0.schema && e.schemaSnaps == d0.schemaSnaps
    && (r.publishId in e.journals ==> StaleJournal(e, r.publishId, r.now + 1))
  }

  /** The except block has something to undo: the old tree is in its snapshot or the new one in the slot. */
  predicate Undoes(d0: Disk, r: Request, n: nat) {
    n > SwapIndex(d0, r) || (r.Target() in d0.trees && n >= 5)
  }

  lemma HandlerUndoes(d0: Disk, r: Request, d: Disk, n: nat)
    requires Quiet(d0, r) && At(d0, r, d, n) && (r.Backup() in d.trees || n > SwapIndex(d0, r))
    ensures var e := Run(d, HandlerProgram(r.Target() in d0.trees, d, r, n > SwapIndex(d0, r)));
            Compensated(d0, r, e) && e.index == Rebuilt(d0) && PointerUndone(d0, r, e) && e.log != d0.log
  {
    hide At, HandlerProgram, Replay, IndexOf, RunFor, Restored, SwapIndex, StaleJournal, FailureEntry, PublishLine;
    HandlerEffect(r.Target() in d0.trees, d, r, n > SwapIndex(d0, r));
    var e := Run(d, HandlerProgram(r.Target() in d0.trees, d, r, n > SwapIndex(d0, r)));
    RestoredSlots(d0, r, d, n);
    assert r.Staged() !in Restored(d, r) by { StagedGone(d, r); }
    forall p: Path | !p.Staging? ensures SameAt(d0, e, p) {
      assert SameAt(d0, d.(trees := Restored(d, r)), p);
    }
    LogSoFar(d0, r, d, n);
    FailureCancels(d0, r, d.log);
    RestFramed(d0, r, d, n);
    LinesWritten(d0, r, d, n);
  }

  lemma LinesWritten(d0: Disk, r: Request, d: Disk, n: nat)
    requires Quiet(d0, r) && At(d0, r, d, n) && (r.Backup() in d.trees || n > SwapIndex(d0, r))
    ensures FailureEntry(r, if r.Target() in d0.trees then Some(r.Backup()) else None) == PublishLine(d0, r, false)
    ensures d.log == d0.log || d.log == d0.log + [PublishLine(d0, r, true)]
    ensures OtherPointers(d0, d, r.name)
    ensures r.Backup() in d.trees <==> r.Target() in d0.trees
    ensures r.Backup() in d.trees ==> d.trees[r.Backup()] == d0.trees[r.Target()]
  {
    hide Replay, IndexOf, StaleJournal, Logged;
    assert r.Backup() !in d0.trees;
    LogSoFar(d0, r, d, n);
    assert Entry(d0, r) == PublishLine(d0, r, true);
  }

  lemma StagedGone(d: Disk, r: Request)
    ensures r.Staged() !in Restored(d, r)
  {
  }

  lemma RestFramed(d0: Disk, r: Request, d: Disk, n: nat)
    requires At(d0, r, d, n)
    ensures d.updates == d0.updates && d.schema == d0.schema && d.schemaSnaps == d0.schemaSnaps
  {
  }

  lemma HandlerAbandons(d0: Disk, r: Request, d: Disk, n: nat)
    requires Quiet(d0, r) && At(d0, r, d, n) && r.Backup() !in d.trees && n <= SwapIndex(d0, r)
    ensures var e := Run(d, HandlerProgram(r.Target() in d0.trees, d, r, n > SwapIndex(d0, r)));
            Compensated(d0, r, e) && e.index == d0.index && PointerSame(d0, r, e) && e.log == d0.log
  {
    NothingWritten(d0, r, d, n);
    hide Replay, IndexOf, RunFor, HandlerProgram, At;
    HandlerEffect(r.Target() in d0.trees, d, r, n > SwapIndex(d0, r));
    RestoredSlots(d0, r, d, n);
    StaleAfterFailure(d0, r, d, n);
  }

  lemma NothingWritten(d0: Disk, r: Request, d: Disk, n: nat)
    requires Quiet(d0, r) && At(d0, r, d, n) && r.Backup() !in d.trees && n <= SwapIndex(d0, r)
    ensures d.log == d0.log && OtherPointers(d0, d, r.name) && PointerSame(d0, r, d)
    ensures d.updates == d0.updates && d.schema == d0.schema && d.schemaSnaps == d0.schemaSnaps
  {
    hide Replay, IndexOf, StaleJournal, Logged;
  }

  /** A publish whose step n raises: every slot and snapshot is as before and at most a stale journal stays behind.
      If there was something to undo, the active pointer is the one of the undo and the log tells of the failure; otherwise both are as before.
      A failure with nothing to undo leaves the index file alone; any other rebuilds it from the old log, which
      leaves it as it was, or creates it where a fresh data home had none. */
  lemma FailedPublishRestores(d0: Disk, r: Request, n: nat)
    requires Quiet(d0, r) && n < |PublishProgram(d0, r)|
    ensures var e := Run(RunFor(d0, PublishProgram(d0, r), n), HandlerProgram(
              r.Target() in d0.trees, RunFor(d0, PublishProgram(d0, r), n), r, n > SwapIndex(d0, r)));
            && Compensated(d0, r, e)
            && (if Undoes(d0, r, n) then e.index == Rebuilt(d0) && PointerUndone(d0, r, e) && e.log != d0.log
                else e.index == d0.index && PointerSame(d0, r, e) && e.log == d0.log)
  {
    PrefixAt(d0, r, n);
    var d := RunFor(d0, PublishProgram(d0, r), n);
    SomethingToUndo(d0, r, d, n);
    if r.Backup() in d.trees || n > SwapIndex(d0, r) { HandlerUndoes(d0, r, d, n); } else { HandlerAbandons(d0, r, d, n); }
  }

  lemma SomethingToUndo(d0: Disk, r: Request, d: Disk, n: nat)
    requires At(d0, r, d, n)
    ensures r.Backup() in d.trees || n > SwapIndex(d0, r) <==> Undoes(d0, r, n)
  {
  }

  lemma LogSoFar(d0: Disk, r: Request, d: Disk, n: nat)
    requires At(d0, r, d, n)
    ensures d.log == d0.log || d.log == d0.log + [Entry(d0, r)]
  {
  }

  // ---- power loss inside the except block ----

  lemma GapHandler(d0: Disk, r: Request, d: Disk)
    requires Between(d0, r, d)
    ensures HandlerProgram(true, d, r, false) ==
            RemoveTree(r.Staged(), r.Tree()) + ([Rename(r.Backup(), r.Target())] + Report(true, d, r))
  {
  }

  lemma GapHandlerPrefix(d0: Disk, r: Request, d: Disk, k: nat)
    requires Frame(d0, r, d) && Between(d0, r, d) && k <= 4
    ensures RunFor(d, HandlerProgram(true, d, r, false), k) == d.(trees :=
              if k <= 3 then RemovedFor(d.trees, r.Staged(), r.Tree(), k)
              else (d.trees - {r.Staged()} - {r.Backup()})[r.Target() := d.trees[r.Backup()]])
  {
    GapHandler(d0, r, d);
    var clean, rest := RemoveTree(r.Staged(), r.Tree()), [Rename(r.Backup(), r.Target())] + Report(true, d, r);
    hide RunFor, HandlerProgram, Report;
    RunConcat(d, clean, rest, k);
    RunRemoveTree(d, r.Staged(), r.Tree(), if k <= 3 then k else 3);
    RunRemoveTree(d, r.Staged(), r.Tree(), 3);
    RunNone(Run(d, clean), rest);
    RunSnoc(Run(d, clean), rest, 0);
  }
}
