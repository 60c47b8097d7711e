/** What recovery of one publication journal tells on any disk: the active pointer, the log and the index row
    (src/book2skill/application/publisher.py, lines 899-1012). */
module RecoveryOutcome {
  import opened Knowledge
  import opened Storage
  import opened PublishProtocol
  import opened PublishAtomicity
  import opened PublishLedger
  import opened PublishOutcome
  import PublishFailure

  /** Unsaid: pointer, log and index stay. Named: the active pointer is at the journal's version. Recorded: so it does, and the log
      has a success line of the journal, the old one or a new one. Withdrawn: the pointer goes, an old tree being back. */
  datatype Telling = Unsaid | Named | Recorded | Withdrawn

  /** The branches of recovery: by the state, by what slot, snapshot and staging hold, and by whether it verifies. */
  function Tells(e: Disk, tx: PublishTx): Telling {
    var slot, snap, staged := Slot(tx.name) in e.trees, tx.snapshot.Some? && tx.snapshot.value in e.trees, tx.staging in e.trees;
    match tx.state
    case RollbackRequired => Unsaid
    case Committed => Unsaid
    case Swapped =>
      if slot then if Intact(e.trees[Slot(tx.name)], tx) then Recorded else Named
      else if snap then Withdrawn else Unsaid
    case _ =>
      if !snap || slot then Unsaid
      else if !staged then Withdrawn
      else if Intact(e.trees[tx.staging], tx) then Recorded else Named
  }

  /** The tree is complete and the one that was to be published. */
  predicate Intact(t: Tree, tx: PublishTx) { tx.artifact.Some? ==> t.Whole? && t.artifact == tx.artifact }

  function JournalLine(tx: PublishTx): LogEntry {
    LogEntry(tx.publishedAt, Publish, tx.name, tx.snapshot, tx.counts, true, tx.txId, Some(tx.publishId), tx.artifact)
  }

  predicate HasSuccess(log: seq<LogEntry>, id: Id) {
    exists i | 0 <= i < |log| :: log[i].success && log[i].publishId == Some(id)
  }

  ghost predicate Told(e: Disk, tx: PublishTx, f: Disk, telling: Telling) {
    && OtherPointers(e, f, tx.name)
    && (telling in {Named, Recorded} ==>
          tx.name in f.pointers && f.pointers[tx.name] == Pointer(ArtifactVersion(tx.version), tx.txId))
    && (telling.Withdrawn? ==> tx.name !in f.pointers)
    && (telling.Unsaid? ==> f.pointers == e.pointers)
    && (if telling.Recorded? then
          && f.log == (if HasSuccess(e.log, tx.publishId) then e.log else e.log + [JournalLine(tx)])
          && f.index.Some? && InStep(f.log, f.index.value)
        else f.log == e.log && f.index == e.index)
  }

  /** Steps that write no pointer, no log line and no index. */
  predicate Silent(prog: seq<Cmd>) {
    forall i | 0 <= i < |prog| :: !prog[i].PutPointer? && !prog[i].DropPointer? && !prog[i].Append? && !prog[i].PutIndex?
  }

  ghost predicate SameWords(d: Disk, e: Disk) { e.pointers == d.pointers && e.log == d.log && e.index == d.index }

  lemma SilentStep(d: Disk, c: Cmd)
    requires Silent([c])
    ensures SameWords(d, Apply(d, c))
  {
    assert [c][0] == c;
  }

  lemma {:induction false} SilentRun(d: Disk, prog: seq<Cmd>)
    requires Silent(prog)
    ensures SameWords(d, Run(d, prog))
    decreases |prog|
  {
    if prog != [] {
      SilentStep(d, prog[0]);
      hide Apply;
      SilentRun(Apply(d, prog[0]), prog[1..]);
    }
  }

  lemma TwoTell(e: Disk, tx: PublishTx, pointer: Cmd, last: Cmd)
    requires Silent([last]) && pointer in {PutPointer(tx.name, Pointer(ArtifactVersion(tx.version), tx.txId)), DropPointer(tx.name)}
    ensures Told(e, tx, Run(e, [pointer, last]), if pointer.PutPointer? then Named else Withdrawn)
  {
    RunTwo(e, pointer, last);
    SilentStep(Apply(e, pointer), last);
  }

  lemma LoggedIs(log: seq<LogEntry>, id: Id)
    ensures Logged(log, id) <==> HasSuccess(log, id)
  {
  }

  lemma RecordTells(e: Disk, tx: PublishTx)
    ensures Told(e, tx, Run(e, Record(e.log, tx)), Recorded)
  {
    LoggedIs(e.log, tx.publishId);
    assert SuccessEntry(tx) == JournalLine(tx);
    var pointer, drop := PutPointer(tx.name, Pointer(ArtifactVersion(tx.version), tx.txId)), DropTx(tx.publishId);
    hide InStep, Replay, IndexOf, Logged, HasSuccess, RunFor, SuccessEntry, JournalLine, Apply;
    if HasSuccess(e.log, tx.publishId) {
      var index := PutIndex(IndexOf(Replay(e.log)));
      assert Record(e.log, tx) == [pointer, index, drop];
      RunThree(e, pointer, index, drop);
      RecordedThen(e, tx, pointer, e.log);
      IndexInStep(e.log);
    } else {
      var log := e.log + [JournalLine(tx)];
      var index := PutIndex(IndexOf(Replay(log)));
      assert Record(e.log, tx) == [pointer, Append(JournalLine(tx)), index, drop];
      PublishFailure.RunFour(e, pointer, Append(JournalLine(tx)), index, drop);
      RecordedThen(e, tx, pointer, log);
      IndexInStep(log);
    }
  }

  lemma RunThree(d: Disk, a: Cmd, b: Cmd, c: Cmd)
    ensures Run(d, [a, b, c]) == Apply(Apply(Apply(d, a), b), c)
  {
    hide Apply, RunFor;
    var prog := [a, b, c];
    RunNone(d, prog);
    RunSnoc(d, prog, 0);
    RunSnoc(d, prog, 1);
    RunSnoc(d, prog, 2);
  }

  /** The effect of the steps that record a success, with the log that they leave. */
  lemma RecordedThen(e: Disk, tx: PublishTx, pointer: Cmd, log: seq<LogEntry>)
    requires pointer == PutPointer(tx.name, Pointer(ArtifactVersion(tx.version), tx.txId))
    ensures var d := Apply(e, pointer);
            && d.pointers == e.pointers[tx.name := pointer.pointer] && d.log == e.log
            && Apply(d, Append(JournalLine(tx))).pointers == d.pointers && Apply(d, Append(JournalLine(tx))).log == d.log + [JournalLine(tx)]
            && forall g: Disk ::
                 var f := Apply(Apply(g, PutIndex(IndexOf(Replay(log)))), DropTx(tx.publishId));
                 f.pointers == g.pointers && f.log == g.log && f.index == Some(IndexOf(Replay(log)))
  {
  }

  lemma RestoreTells(e: Disk, tx: PublishTx)
    ensures Told(e, tx, Run(e, RestoreSnapshot(e, tx).cmds), if tx.snapshot.Some? && tx.snapshot.value in e.trees then Withdrawn else Unsaid)
  {
    var prog := RestoreSnapshot(e, tx).cmds;
    hide RunFor;
    if tx.snapshot.Some? && tx.snapshot.value in e.trees {
      var rename := Rename(tx.snapshot.value, Slot(tx.name));
      assert prog == [rename] + [DropPointer(tx.name), DropTx(tx.publishId)];
      RunConcat(e, [rename], [DropPointer(tx.name), DropTx(tx.publishId)], |prog|);
      SilentRun(e, [rename]);
      TwoTell(Run(e, [rename]), tx, DropPointer(tx.name), DropTx(tx.publishId));
    } else {
      SilentRun(e, prog);
    }
  }

  lemma SwappedTells(e: Disk, tx: PublishTx)
    requires tx.state == Swapped
    ensures Told(e, tx, Run(e, RecoverSwapped(e, tx).cmds), Tells(e, tx))
  {
    hide RunFor, Told, Record, RestoreSnapshot;
    if Slot(tx.name) !in e.trees {
      RestoreTells(e, tx);
    } else if Verifies(e.trees[Slot(tx.name)], tx.artifact) {
      RecordTells(e, tx);
    } else {
      FirstIsPointer(e.log, tx);
      TwoTell(e, tx, Record(e.log, tx)[0], PutTx(tx.(state := RollbackRequired)));
    }
  }

  lemma FirstIsPointer(log: seq<LogEntry>, tx: PublishTx)
    ensures Record(log, tx) != [] && Record(log, tx)[0] == PutPointer(tx.name, Pointer(ArtifactVersion(tx.version), tx.txId))
  {
    hide Replay, IndexOf, Logged;
  }

  lemma FinishTells(e: Disk, tx: PublishTx)
    requires tx.state in {Prepared, Snapshotted} && tx.staging in e.trees && Slot(tx.name) !in e.trees
    requires tx.snapshot.Some? && tx.snapshot.value in e.trees
    ensures Told(e, tx, Run(e, RecoverOne(e, tx).cmds), Tells(e, tx))
  {
    hide RecoverSwapped, InStep, HasSuccess, JournalLine;
    var swapped := tx.(state := Swapped);
    var finish := [Rename(tx.staging, Slot(tx.name)), PutTx(swapped)];
    RunTwo(e, finish[0], finish[1]);
    SilentRun(e, finish);
    var g := Run(e, finish);
    var rest := RecoverSwapped(g, swapped);
    assert RecoverOne(e, tx) == Recovery(finish + rest.cmds, rest.ok);
    RunConcat(e, finish, rest.cmds, |finish + rest.cmds|);
    SwappedTells(g, swapped);
    assert Tells(g, swapped) == Tells(e, tx);
    assert JournalLine(swapped) == JournalLine(tx) by { SameLine(tx, swapped); }
    hide RunFor, Run;
  }

  lemma SameLine(tx: PublishTx, other: PublishTx)
    requires other == tx.(state := other.state)
    ensures JournalLine(other) == JournalLine(tx)
  {
  }

  /** Recovery of one journal on any disk: pointer, log and index afterwards. */
  lemma RecoverTells(e: Disk, tx: PublishTx)
    ensures Told(e, tx, Run(e, RecoverOne(e, tx).cmds), Tells(e, tx))
  {
    hide RecoverSwapped, RestoreSnapshot, RunFor, Told;
    var prog := RecoverOne(e, tx).cmds;
    if tx.state == Swapped {
      SwappedTells(e, tx);
    } else if tx.state in {Prepared, Snapshotted} && tx.snapshot.Some? && tx.snapshot.value in e.trees && Slot(tx.name) !in e.trees {
      if tx.staging in e.trees { FinishTells(e, tx); } else { RestoreTells(e, tx); }
    } else {
      SilentRun(e, prog);
      WordsUnsaid(e, tx, Run(e, prog));
    }
  }

  lemma WordsUnsaid(e: Disk, tx: PublishTx, f: Disk)
    requires SameWords(e, f)
    ensures Told(e, tx, f, Unsaid)
  {
  }
}
