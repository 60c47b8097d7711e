/** What a caller finds on the disk after a publish, a publish that was undone, and a rollback, spelled out: slot,
    snapshot, active pointer, log line and index row (src/book2skill/application/publisher.py, lines 244-568). */
module PublishOutcome {
  import opened Knowledge
  import opened Storage
  import opened PublishProtocol
  import opened PublishAtomicity
  import opened PublishLedger

  function SnapshotOf(d: Disk, name: string, now: Stamp): Option<Path> {
    if Slot(name) in d.trees then Some(Snapshot(name, now)) else None
  }

  /** The log line of a publish attempt. Times are kept in whole seconds. */
  function PublishLine(d: Disk, r: Request, success: bool): LogEntry {
    LogEntry(r.now / 1_000_000, Publish, r.name, SnapshotOf(d, r.name, r.now), r.counts, success, r.txId, Some(r.publishId),
             if success then Some(r.artifact) else None)
  }

  ghost predicate OtherPointers(d: Disk, e: Disk, name: string) {
    forall n | n != name :: (n in e.pointers <==> n in d.pointers) && (n in e.pointers ==> e.pointers[n] == d.pointers[n])
  }

  /** The index is in step with the log, has this row for the Skill, and for the others the rows of the old log: those it
      had, if it was in step before. */
  ghost predicate RowPut(d: Disk, e: Disk, name: string, row: Row) {
    && e.index.Some? && InStep(e.log, e.index.value) && Shown(e.index.value, name) == Some(row)
    && (forall n, was | n != name && RowFrom(d.log, n, was) :: Shown(e.index.value, n) == was)
    && (d.index.Some? && InStep(d.log, d.index.value) ==> forall n | n != name :: Shown(e.index.value, n) == Shown(d.index.value, n))
  }

  lemma RowAppended(d: Disk, e: Disk, line: LogEntry)
    requires line.success && e.log == d.log + [line] && e.index == Some(IndexOf(Replay(e.log)))
    ensures RowPut(d, e, line.name, Row(line.action, line.timestamp, line.snapshot))
  {
    hide IndexOf, Replay, RowFrom;
    IndexInStep(e.log);
    var row, index := Row(line.action, line.timestamp, line.snapshot), e.index.value;
    IndexInStep(d.log);
    forall n, was | RowFrom(d.log, n, was) ensures Shown(index, n) == if n == line.name then Some(row) else was {
      SuccessRow(d.log, line, n, was);
      OneRow(e.log, n, Shown(index, n), if n == line.name then Some(row) else was);
    }
    assert RowFrom(d.log, line.name, Shown(IndexOf(Replay(d.log)), line.name));
  }

  // ---- publish ----

  ghost predicate IsPublished(d: Disk, r: Request, e: Disk) {
    var slot, snap := Slot(r.name), SnapshotOf(d, r.name, r.now);
    && slot in e.trees && e.trees[slot] == Whole(Some(r.artifact), r.txId)
    && (snap.Some? ==> snap.value in e.trees && e.trees[snap.value] == d.trees[slot])
    && (forall p: Path | p != slot && Some(p) != snap && !p.Staging? :: SameAt(d, e, p))
    && r.name in e.pointers && e.pointers[r.name] == Pointer(ArtifactVersion(r.artifact), r.txId) && OtherPointers(d, e, r.name)
    && e.log == d.log + [PublishLine(d, r, true)]
    && RowPut(d, e, r.name, Row(Publish, r.now / 1_000_000, snap))
  }

  lemma LandedIsPublished(d: Disk, r: Request, e: Disk)
    requires Quiet(d, r) && Frame(d, r, e) && Landed(d, r, e)
    ensures IsPublished(d, r, e)
  {
    hide Replay, IndexOf, RowPut, StaleJournal, Logged;
    assert r.Backup() !in d.trees;
    assert Entry(d, r) == PublishLine(d, r, true);
    RowAppended(d, e, PublishLine(d, r, true));
  }

  // ---- rollback ----

  /** Slot and newest snapshot have changed places; pointer, log line and index row speak of the restored tree. */
  ghost predicate IsRolledBack(d: Disk, name: string, now: Stamp, e: Disk) {
    exists at: nat :: RolledBackTo(d, name, now, at, e)
  }

  ghost predicate RolledBackTo(d: Disk, name: string, now: Stamp, at: nat, e: Disk) {
    var slot, from, snap := Slot(name), Snapshot(name, at), SnapshotOf(d, name, now);
    && from in d.trees && (forall x: nat | Snapshot(name, x) in d.trees :: x <= at)
    && var t := d.trees[from];
       var artifact := if t.Whole? then t.artifact else None;
       && slot in e.trees && e.trees[slot] == t && from !in e.trees
       && (snap.Some? ==> snap.value in e.trees && e.trees[snap.value] == d.trees[slot])
       && (forall p: Path | p != slot && p != from && Some(p) != snap :: SameAt(d, e, p))
       && name in e.pointers && OtherPointers(d, e, name)
       && e.pointers[name] == Pointer(if artifact.Some? then ArtifactVersion(artifact.value) else StampVersion(now), t.txId)
       && e.log == d.log + [LogEntry(now / 1_000_000, Rollback, name, snap, 0, true, None, None, artifact)]
       && RowPut(d, e, name, Row(Rollback, now / 1_000_000, snap))
       && e.journals == d.journals && e.updates == d.updates && e.schema == d.schema && e.schemaSnaps == d.schemaSnaps
  }

  /** The disk after the steps of a rollback, one field at a time. */
  function RollbackDisk(d: Disk, name: string, now: Stamp, latest: Path): Disk
    requires latest in d.trees
  {
    var slot, snap := Slot(name), SnapshotOf(d, name, now);
    var aside := if snap.Some? then (d.trees - {slot})[snap.value := d.trees[slot]] else d.trees;
    var line := RollbackEntry(name, now, snap, d.trees[latest]);
    d.(trees := (aside - {latest})[slot := d.trees[latest]],
       pointers := d.pointers[name := RestoredPointer(d.trees[latest], now)],
       log := d.log + [line], index := Some(IndexOf(Replay(d.log + [line]))))
  }

  lemma RollbackIsRolledBack(d: Disk, name: string, now: Stamp, latest: Path)
    requires LatestSnapshot(d, name) == Some(latest) && Snapshot(name, now) !in d.trees
    ensures IsRolledBack(d, name, now, RollbackDisk(d, name, now, latest))
  {
    hide Replay, IndexOf, RowPut, LatestSnapshot;
    var e := RollbackDisk(d, name, now, latest);
    assert latest == Snapshot(name, latest.at);
    RowAppended(d, e, RollbackEntry(name, now, SnapshotOf(d, name, now), d.trees[latest]));
    assert RolledBackTo(d, name, now, latest.at, e);
  }
}
