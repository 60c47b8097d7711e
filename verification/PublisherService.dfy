/** The Publisher object: it performs the programs of module PublishProtocol one durable step at a time,
    and keeps its in-memory history equal to a replay of the log. */
module PublisherService {
  import opened Knowledge
  import opened Storage
  import opened PublishProtocol
  import opened PublishAtomicity
  import PublishFailure
  import PublishHandlerCrash
  import opened PublishOutcome
  import SnapshotConservation

  class Publisher {
    const device: Device
    var history: History

    ghost predicate Valid()
      reads this, device
    {
      history == Replay(device.disk.log) && device.steps <= device.powerLossAt
    }

    /** Load the in-memory history from the durable log. */
    constructor (device: Device)
      requires device.steps <= device.powerLossAt
      ensures this.device == device && Valid()
    {
      this.device := device;
      history := map[];
      new;
      var log := device.disk.log;
      for i := 0 to |log|
        invariant history == Replay(log[..i]) && device.disk.log == log && device.steps <= device.powerLossAt
      {
        assert log[..i + 1][..i] == log[..i];
        history := ApplyEntry(history, log[i]);
      }
      assert log[..|log|] == log;
    }

    /** Append to the durable log first, then to the history. */
    method AppendLog(entry: LogEntry, ghost job: Job) returns (o: Outcome)
      requires Valid() && device.Follows(job) && device.steps < job.base + |job.prog|
      requires job.prog[device.steps - job.base] == Append(entry)
      modifies this, device
      ensures Valid() && device.Follows(job) && device.powerLossAt == old(device.powerLossAt)
      ensures o.Done? ==> device.steps == old(device.steps) + 1 && device.faultAt == old(device.faultAt)
      ensures o.Done? ==> device.disk == Apply(old(device.disk), Append(entry))
      ensures !o.Done? ==> device.steps == old(device.steps)
      ensures o.Down? ==> device.steps == device.powerLossAt && device.faultAt == old(device.faultAt)
      ensures o.Raised? ==> old(device.faultAt).Some? && device.faultAt == None
    {
      hide RunFor;
      :- device.Do(Append(entry), job);
      PublishFailure.ReplayAppend(old(device.disk.log), entry);
      history := ApplyEntry(history, entry);
      return Done;
    }

    /** Compile into the staging directory and open the journal. */
    method Stage(r: Request, ghost job: Job) returns (o: Outcome)
      requires Valid() && device.Follows(job) && device.steps + 3 <= job.base + |job.prog|
      requires device.steps == job.base && Starts(job.prog, 0, WriteTree(r.Staged(), Torn(None)), WriteTree(r.Staged(), r.Tree()), PutTx(r.Tx(Prepared, None)))
      modifies this, device
      ensures Valid() && device.Follows(job) && device.powerLossAt == old(device.powerLossAt)
      ensures old(device.steps) <= device.steps <= old(device.steps) + 3
      ensures o.Done? <==> device.steps == old(device.steps) + 3
      ensures (o.Down? ==> device.steps == device.powerLossAt) && (o.Raised? ==> device.faultAt == None)
    {
      hide RunFor;
      :- device.Do(WriteTree(r.Staged(), Torn(None)), job);
      :- device.Do(WriteTree(r.Staged(), r.Tree()), job);
      :- device.Do(PutTx(r.Tx(Prepared, None)), job);
      return Done;
    }

    /** Name the snapshot in the journal, move the old tree there, and journal the move. */
    method BackUp(target: Path, tx: PublishTx, snapshot: Path, ghost job: Job) returns (o: Outcome)
      requires Valid() && device.Follows(job) && device.steps + 3 <= job.base + |job.prog|
      requires device.steps == job.base + 3 && target in device.disk.trees && snapshot !in device.disk.trees
      requires Starts(job.prog, 3, PutTx(tx.(snapshot := Some(snapshot))), Rename(target, snapshot), PutTx(tx.(snapshot := Some(snapshot), state := Snapshotted)))
      modifies this, device
      ensures Valid() && device.Follows(job) && device.powerLossAt == old(device.powerLossAt)
      ensures old(device.steps) <= device.steps <= old(device.steps) + 3
      ensures o.Done? <==> device.steps == old(device.steps) + 3
      ensures (o.Down? ==> device.steps == device.powerLossAt) && (o.Raised? ==> device.faultAt == None)
    {
      var named := tx.(snapshot := Some(snapshot));
      :- device.Do(PutTx(named), job);
      :- device.Do(Rename(target, snapshot), job);
      :- device.Do(PutTx(named.(state := Snapshotted)), job);
      return Done;
    }

    /** Journal the swap, repoint, and log the success. */
    method RecordSwap(r: Request, tx: PublishTx, ghost n: nat, ghost job: Job) returns (o: Outcome)
      requires Valid() && device.Follows(job) && device.steps + 3 <= job.base + |job.prog|
      requires device.steps == job.base + n && Starts(job.prog, n, PutTx(tx), PutPointer(r.name, NewPointer(r)), Append(SuccessEntry(tx)))
      modifies this, device
      ensures Valid() && device.Follows(job) && device.powerLossAt == old(device.powerLossAt)
      ensures old(device.steps) <= device.steps <= old(device.steps) + 3
      ensures o.Done? ==> device.disk.log == old(device.disk.log) + [SuccessEntry(tx)]
      ensures o.Done? <==> device.steps == old(device.steps) + 3
      ensures (o.Down? ==> device.steps == device.powerLossAt) && (o.Raised? ==> device.faultAt == None)
    {
      hide RunFor;
      :- device.Do(PutTx(tx), job);
      :- device.Do(PutPointer(r.name, NewPointer(r)), job);
      :- AppendLog(SuccessEntry(tx), job);
      return Done;
    }

    /** Regenerate the index and close the journal. */
    method Close(tx: PublishTx, ghost n: nat, ghost job: Job) returns (o: Outcome)
      requires Valid() && device.Follows(job) && device.steps + 3 <= job.base + |job.prog|
      requires device.steps == job.base + n && Starts(job.prog, n, PutIndex(IndexOf(Replay(device.disk.log))), PutTx(tx.(state := Committed)), DropTx(tx.publishId))
      modifies this, device
      ensures Valid() && device.Follows(job) && device.powerLossAt == old(device.powerLossAt)
      ensures old(device.steps) <= device.steps <= old(device.steps) + 3
      ensures o.Done? <==> device.steps == old(device.steps) + 3
      ensures (o.Down? ==> device.steps == device.powerLossAt) && (o.Raised? ==> device.faultAt == None)
    {
      hide RunFor;
      :- device.Do(PutIndex(IndexOf(history)), job);
      :- device.Do(PutTx(tx.(state := Committed)), job);
      :- device.Do(DropTx(tx.publishId), job);
      return Done;
    }

    /** From the swap on: the flag tells the except block whether the tree reached the slot. */
    method SwapIn(r: Request, tx: PublishTx, ghost n: nat, ghost job: Job) returns (o: Outcome, swapped: bool)
      requires Valid() && device.Follows(job) && device.steps == job.base + n && |job.prog| == n + 7
      requires r.Staged() in device.disk.trees && r.Target() !in device.disk.trees
      requires job.prog[n] == Rename(r.Staged(), r.Target())
      requires Starts(job.prog, n + 1, PutTx(tx), PutPointer(r.name, NewPointer(r)), Append(SuccessEntry(tx)))
      requires Starts(job.prog, n + 4, PutIndex(IndexOf(Replay(device.disk.log + [SuccessEntry(tx)]))), PutTx(tx.(state := Committed)), DropTx(tx.publishId))
      modifies this, device
      ensures Valid() && device.Follows(job) && device.powerLossAt == old(device.powerLossAt)
      ensures device.steps >= old(device.steps)
      ensures o.Done? <==> device.steps == job.base + |job.prog|
      ensures (o.Down? ==> device.steps == device.powerLossAt) && (o.Raised? ==> device.faultAt == None)
      ensures swapped <==> device.steps - job.base > n
    {
      hide RunFor, Replay, IndexOf;
      swapped := false;
      :- device.Do(Rename(r.Staged(), r.Target()), job);
      swapped := true;
      :- RecordSwap(r, tx, n + 1, job);
      :- Close(tx, n + 4, job);
      return Done, swapped;
    }

    /** The try block of publish. */
    method Forward(r: Request, ghost job: Job) returns (o: Outcome, snapshotDir: Option<Path>, swapped: bool)
      requires Valid() && Quiet(device.disk, r)
      requires job == Job(device.disk, PublishProgram(device.disk, r), device.steps)
      modifies this, device
      ensures Valid() && device.Follows(job) && device.powerLossAt == old(device.powerLossAt)
      ensures o.Done? <==> device.steps == job.base + |job.prog|
      ensures (o.Down? ==> device.steps == device.powerLossAt) && (o.Raised? ==> device.faultAt == None)
      ensures swapped <==> device.steps - job.base > SwapIndex(job.start, r)
      ensures snapshotDir == if device.steps - job.base >= 3 then Snap(job.start, r) else None
    {
      hide RunFor, Replay, IndexOf, PublishProgram, Quiet, Starts;
      ghost var d0, n := device.disk, SwapIndex(device.disk, r);
      snapshotDir, swapped := None, false;
      RunNone(d0, job.prog);
      Steps(d0, r);
      :- Stage(r, job);
      AtStaged(d0, r, device.disk);
      var tx := r.Tx(Prepared, None);
      if r.Target() in device.disk.trees {
        snapshotDir := Some(r.Backup());
        :- BackUp(r.Target(), tx, r.Backup(), job);
        tx := tx.(snapshot := snapshotDir);
      }
      AtSwapPoint(d0, r, device.disk);
      o, swapped := SwapIn(r, tx.(state := Swapped), n, job);
    }

    // ---- the except block ----

    /** rmtree: the directory is torn before it is gone. */
    method CleanUp(p: Path, ghost job: Job) returns (o: Outcome)
      requires Valid() && device.Follows(job) && device.faultAt == None
      requires Has(job, device.steps, Cleanup(device.disk, p))
      modifies this, device
      ensures Valid() && device.Follows(job) && device.powerLossAt == old(device.powerLossAt) && device.faultAt == None
      ensures o != Raised && (o.Down? ==> device.steps == device.powerLossAt)
      ensures o.Done? ==> device.steps == old(device.steps) + |Cleanup(old(device.disk), p)|
      ensures !o.Done? ==> device.steps < old(device.steps) + |Cleanup(old(device.disk), p)|
      ensures o.Done? ==> device.disk == old(device.disk).(trees := old(device.disk).trees - {p})
    {
      ghost var d := device.disk;
      PublishFailure.RunCleanup(d, p);
      if p in device.disk.trees {
        HasAt(job, device.steps, Cleanup(d, p));
        PublishFailure.RunRemoveTree(d, p, d.trees[p], 3);
        ghost var n := device.steps - job.base;
        assert job.prog[n] == WriteTree(p, Torn(d.trees[p].txId)) && job.prog[n + 1] == WriteTree(p, Torn(None)) && job.prog[n + 2] == DropTree(p);
        :- device.Do(WriteTree(p, Torn(device.disk.trees[p].txId)), job);
        :- device.Do(WriteTree(p, Torn(None)), job);
        :- device.Do(DropTree(p), job);
      }
      return Done;
    }

    /** The first free ".failed" name beside the slot. */
    method FindSibling(name: string) returns (p: Path)
      ensures p == UniqueSibling(device.disk, name)
      ensures exists index: nat | index >= 1 :: p == Displaced(name, index) && p !in device.disk.trees
                && forall k: nat | 1 <= k < index :: Displaced(name, k) in device.disk.trees
    {
      var index := 1;
      ghost var taken := set q | q in device.disk.trees && q.Displaced? && q.name == name :: q.index;
      ghost var rest := taken;
      while Displaced(name, index) in device.disk.trees
        invariant rest <= taken && FirstFree(rest, index) == FirstFree(taken, 1)
        invariant forall i | i >= index && i in taken :: i in rest
        decreases rest
      {
        assert Displaced(name, index).index in taken;
        rest := rest - {index};
        index := index + 1;
      }
      assert forall q | q in device.disk.trees && q.Displaced? && q.name == name :: q.index in taken;
      p := Displaced(name, index);
    }

    method MoveAside(target: Path, snap: Path, aside: Path, ghost job: Job) returns (o: Outcome)
      requires Valid() && device.Follows(job) && device.faultAt == None
      requires target in device.disk.trees && snap in device.disk.trees && snap != target && aside !in device.disk.trees
      requires Has(job, device.steps, [Rename(target, aside), Rename(snap, target), WriteTree(aside, Torn(None)), DropTree(aside)])
      modifies this, device
      ensures Valid() && device.Follows(job) && device.powerLossAt == old(device.powerLossAt) && device.faultAt == None
      ensures o != Raised && (o.Down? ==> device.steps == device.powerLossAt)
      ensures o.Done? ==> device.steps == old(device.steps) + 4
      ensures device.disk.log == old(device.disk.log)
    {
      hide RunFor, Replay, IndexOf, Has;
      FourAt(job, device.steps, Rename(target, aside), Rename(snap, target), WriteTree(aside, Torn(None)), DropTree(aside));
      :- device.Do(Rename(target, aside), job);
      :- device.Do(Rename(snap, target), job);
      :- device.Do(WriteTree(aside, Torn(None)), job);
      :- device.Do(DropTree(aside), job);
      return Done;
    }

    method Restore(target: Path, snap: Path, ghost job: Job) returns (o: Outcome)
      requires Valid() && device.Follows(job) && device.faultAt == None
      requires target.Slot? && snap in device.disk.trees && snap != target
      requires Has(job, device.steps, RestoreOnFailure(device.disk, target, snap))
      modifies this, device
      ensures Valid() && device.Follows(job) && device.powerLossAt == old(device.powerLossAt) && device.faultAt == None
      ensures o != Raised && (o.Down? ==> device.steps == device.powerLossAt)
      ensures o.Done? ==> device.steps == old(device.steps) + |RestoreOnFailure(old(device.disk), target, snap)|
      ensures device.disk.log == old(device.disk.log)
    {
      hide RunFor, Replay, IndexOf, UniqueSibling, Has;
      if target in device.disk.trees {
        var aside := FindSibling(target.name);
        :- MoveAside(target, snap, aside, job);
      } else {
        OneAt(job, device.steps, Rename(snap, target));
        :- device.Do(Rename(snap, target), job);
      }
      return Done;
    }

    /** A log entry and the index derived from it. */
    method LogAndIndex(failed: LogEntry, ghost job: Job) returns (o: Outcome)
      requires Valid() && device.Follows(job) && device.faultAt == None
      requires device.steps + 2 <= job.base + |job.prog|
      requires job.prog[device.steps - job.base] == Append(failed)
      requires job.prog[device.steps - job.base + 1] == PutIndex(IndexOf(Replay(device.disk.log + [failed])))
      modifies this, device
      ensures Valid() && device.Follows(job) && device.powerLossAt == old(device.powerLossAt) && device.faultAt == None
      ensures o != Raised && (o.Down? ==> device.steps == device.powerLossAt)
      ensures o.Done? ==> device.steps == old(device.steps) + 2
      ensures o.Done? ==>
                var log := old(device.disk.log) + [failed];
                device.disk == old(device.disk).(log := log, index := Some(IndexOf(Replay(log))))
    {
      hide RunFor, Replay, IndexOf;
      :- AppendLog(failed, job);
      :- device.Do(PutIndex(IndexOf(history)), job);
      return Done;
    }

    method ReportFailure(r: Request, snapshotDir: Option<Path>, pointer: Cmd, ghost job: Job) returns (o: Outcome)
      requires Valid() && device.Follows(job) && device.faultAt == None
      requires pointer.PutPointer? || pointer.DropPointer?
      requires var failed := FailureEntry(r, snapshotDir);
               Has(job, device.steps, [DropTx(r.publishId), pointer, Append(failed), PutIndex(IndexOf(Replay(device.disk.log + [failed])))])
      modifies this, device
      ensures Valid() && device.Follows(job) && device.powerLossAt == old(device.powerLossAt) && device.faultAt == None
      ensures o != Raised && (o.Down? ==> device.steps == device.powerLossAt)
      ensures o.Done? ==> device.steps == old(device.steps) + 4
    {
      hide RunFor, Replay, IndexOf, Has;
      var failed := FailureEntry(r, snapshotDir);
      FourAt(job, device.steps, DropTx(r.publishId), pointer, Append(failed), PutIndex(IndexOf(Replay(device.disk.log + [failed]))));
      :- device.Do(DropTx(r.publishId), job);
      :- device.Do(pointer, job);
      o := LogAndIndex(failed, job);
    }

    /** Put the old tree back or empty the slot. The ghost disk d is the one before cleaning. */
    method UndoAttempt(r: Request, available: bool, ghost d: Disk, ghost job: Job) returns (o: Outcome)
      requires Valid() && device.Follows(job) && device.faultAt == None
      requires device.disk == d.(trees := d.trees - {r.Staged()}) && available == (r.Backup() in d.trees)
      requires Has(job, device.steps, Undo(d, r))
      modifies this, device
      ensures Valid() && device.Follows(job) && device.powerLossAt == old(device.powerLossAt) && device.faultAt == None
      ensures o != Raised && (o.Down? ==> device.steps == device.powerLossAt)
      ensures o.Done? ==> device.steps == old(device.steps) + |Undo(d, r)| && device.disk.log == d.log
    {
      PublishFailure.SameSibling(d, device.disk, r);
      if available {
        o := Restore(r.Target(), r.Backup(), job);
      } else {
        o := CleanUp(r.Target(), job);
      }
    }

    method HandleFailure(r: Request, snapshotDir: Option<Path>, swapped: bool, ghost job: Job) returns (o: Outcome)
      requires Valid() && device.faultAt == None
      requires snapshotDir.Some? ==> snapshotDir.value == r.Backup()
      requires r.Backup() in device.disk.trees ==> snapshotDir.Some?
      requires job == Job(device.disk, HandlerProgram(snapshotDir.Some?, device.disk, r, swapped), device.steps)
      modifies this, device
      ensures Valid() && device.Follows(job) && device.powerLossAt == old(device.powerLossAt) && device.faultAt == None
      ensures o != Raised && (o.Down? ==> device.steps == device.powerLossAt)
      ensures o.Done? ==> device.steps == job.base + |job.prog|
    {
      hide RunFor, Replay, IndexOf, Cleanup, Undo, Has, HandlerProgram;
      ghost var d := device.disk;
      RunNone(d, job.prog);
      Parts(job, snapshotDir.Some?, d, r, swapped);
      :- CleanUp(r.Staged(), job);
      var available := snapshotDir.Some? && r.Backup() in device.disk.trees;
      if available || swapped {
        var pointer := if available then PutPointer(r.name, Pointer(StampVersion(r.now), device.disk.trees[r.Backup()].txId))
                       else DropPointer(r.name);
        :- UndoAttempt(r, available, d, job);
        :- ReportFailure(r, snapshotDir, pointer, job);
      }
      return Done;
    }

    /** The except block, after the try block raised at step n. */
    method Compensate(r: Request, snapshotDir: Option<Path>, swapped: bool, ghost d0: Disk, ghost n: nat) returns (o: Outcome)
      requires Valid() && device.faultAt == None && Quiet(d0, r)
      requires n < |PublishProgram(d0, r)| && device.disk == RunFor(d0, PublishProgram(d0, r), n)
      requires snapshotDir == if n >= 3 then Snap(d0, r) else None
      requires swapped <==> n > SwapIndex(d0, r)
      modifies this, device
      ensures Valid() && device.powerLossAt == old(device.powerLossAt) && device.faultAt == None
      ensures !o.Done? && (o.Down? ==> device.steps == device.powerLossAt)
      ensures o.Raised? ==> PublishFailure.Compensated(d0, r, device.disk)
      ensures o.Down? ==> PublishHandlerCrash.DuringUndo(d0, r, device.disk)
    {
      hide Replay, RunFor, IndexOf, HandlerProgram, PublishProgram, PublishFailure.Compensated, Quiet, SwapIndex;
      AttemptState(d0, r, n);
      ghost var d := device.disk;
      var handled := HandleFailure(r, snapshotDir, swapped, Job(d, HandlerProgram(snapshotDir.Some?, d, r, swapped), device.steps));
      assert device.disk == PublishHandlerCrash.Interrupted(d0, r, n, device.steps - old(device.steps));
      return if handled.Down? then Down else Raised;
    }

    /** Publish a compiled tree: it lands, or it raises and is undone, or power is lost, in the try block with the
        publication in flight or somewhere in the except block. The ghost result tells whether that ran. */
    method Publish(r: Request) returns (o: Outcome, snapshot: Option<Path>, ghost handled: bool)
      requires Valid() && Quiet(device.disk, r)
      modifies this, device
      ensures Valid() && device.powerLossAt == old(device.powerLossAt)
      ensures (o.Down? ==> device.steps == device.powerLossAt) && (o.Raised? ==> device.faultAt == None)
      ensures !handled ==> device.Follows(Job(old(device.disk), PublishProgram(old(device.disk), r), old(device.steps)))
      ensures o.Done? ==> snapshot == Snap(old(device.disk), r)
      ensures o.Done? ==> !handled && device.steps == old(device.steps) + |PublishProgram(old(device.disk), r)|
      ensures o.Done? ==> Landed(old(device.disk), r, device.disk) && r.publishId !in device.disk.journals
      ensures o.Done? ==> IsPublished(old(device.disk), r, device.disk)
      ensures o.Down? && !handled ==> InFlight(old(device.disk), r, device.disk)
      ensures o.Raised? ==> PublishFailure.Compensated(old(device.disk), r, device.disk)
      ensures o.Down? && handled ==> PublishHandlerCrash.DuringUndo(old(device.disk), r, device.disk)
    {
      hide PublishHandlerCrash.DuringUndo, RunFor, Replay, IndexOf, Landed, InFlight, Quiet, Snap, PublishProgram, PublishFailure.Compensated, IsPublished;
      ghost var d0 := device.disk;
      ghost var job := Job(d0, PublishProgram(d0, r), device.steps);
      RunNone(d0, job.prog);
      var swapped;
      o, snapshot, swapped := Forward(r, job);
      handled := o.Raised?;
      if o.Raised? {
        o := Compensate(r, snapshot, swapped, d0, device.steps - job.base);
      } else {
        PrefixInFlight(d0, r, device.steps - job.base);
        if o.Done? { PublishedWhole(d0, r, device.disk); }
      }
    }

    // ---- rollback ----

    method FindLatest(name: string) returns (best: Option<Path>)
      ensures best == LatestSnapshot(device.disk, name)
    {
      var candidates := set q | q in device.disk.trees && q.Snapshot? && q.name == name;
      var rest := candidates;
      best := None;
      while rest != {}
        invariant rest <= candidates
        invariant best.Some? ==> best.value in candidates
        invariant forall q | q in candidates - rest :: best.Some? && q.at <= best.value.at
        decreases rest
      {
        var q :| q in rest;
        if best.None? || best.value.at < q.at { best := Some(q); }
        rest := rest - {q};
      }
    }

    /** Restore the latest snapshot; the current tree becomes a snapshot itself. */
    method RollbackLatest(name: string, now: Stamp, ghost job: Job) returns (o: Outcome)
      requires Valid() && device.Follows(job) && device.faultAt == None && SnapshotConservation.NewStamp(device.disk, now)
      requires LatestSnapshot(device.disk, name).Some? ==>
                 RollsBack(device.disk, name, now, LatestSnapshot(device.disk, name).value, job.prog, device.steps - job.base)
      modifies this, device
      ensures Valid() && device.Follows(job) && device.powerLossAt == old(device.powerLossAt) && device.faultAt == None
      ensures o.Raised? <==> LatestSnapshot(old(device.disk), name).None?
      ensures o.Raised? ==> device.disk == old(device.disk) && device.steps == old(device.steps)
      ensures o.Down? ==> device.steps == device.powerLossAt
      ensures o.Done? ==> device.steps == old(device.steps) + if Slot(name) in old(device.disk.trees) then 5 else 4
      ensures o.Done? ==> IsRolledBack(old(device.disk), name, now, device.disk)
    {
      hide IsRolledBack, RollbackDisk, RunFor, Replay, IndexOf, LatestSnapshot, RollbackEntry, RestoredPointer, RollsBack;
      var latest := FindLatest(name);
      if latest.None? {
        return Raised;
      }
      ghost var d := device.disk;
      o := RollbackTo(name, now, latest.value, job);
      RollbackIsRolledBack(d, name, now, latest.value);
    }

    method RollbackTo(name: string, now: Stamp, latest: Path, ghost job: Job) returns (o: Outcome)
      requires Valid() && device.Follows(job) && device.faultAt == None
      requires latest in device.disk.trees && latest != Slot(name) && Snapshot(name, now) !in device.disk.trees
      requires RollsBack(device.disk, name, now, latest, job.prog, device.steps - job.base)
      modifies this, device
      ensures Valid() && device.Follows(job) && device.powerLossAt == old(device.powerLossAt) && device.faultAt == None
      ensures o != Raised && (o.Down? ==> device.steps == device.powerLossAt)
      ensures o.Done? ==> device.steps == old(device.steps) + if Slot(name) in old(device.disk.trees) then 5 else 4
      ensures o.Done? ==> device.disk == RollbackDisk(old(device.disk), name, now, latest)
    {
      hide RunFor, Replay, IndexOf, RollbackEntry, RestoredPointer;
      var tree := device.disk.trees[latest];
      var newSnapshot := None;
      if Slot(name) in device.disk.trees {
        newSnapshot := Some(Snapshot(name, now));
        :- device.Do(Rename(Slot(name), Snapshot(name, now)), job);
      }
      o := FinishRollback(name, now, latest, newSnapshot, tree, job);
    }

    method FinishRollback(name: string, now: Stamp, latest: Path, newSnapshot: Option<Path>, tree: Tree, ghost job: Job) returns (o: Outcome)
      requires Valid() && device.Follows(job) && device.faultAt == None
      requires latest in device.disk.trees && Slot(name) !in device.disk.trees
      requires var entry := RollbackEntry(name, now, newSnapshot, tree);
               var n := device.steps - job.base;
               && n + 4 <= |job.prog|
               && job.prog[n] == Rename(latest, Slot(name)) && job.prog[n + 1] == PutPointer(name, RestoredPointer(tree, now))
               && job.prog[n + 2] == Append(entry) && job.prog[n + 3] == PutIndex(IndexOf(Replay(device.disk.log + [entry])))
      modifies this, device
      ensures Valid() && device.Follows(job) && device.powerLossAt == old(device.powerLossAt) && device.faultAt == None
      ensures o != Raised && (o.Down? ==> device.steps == device.powerLossAt)
      ensures o.Done? ==> device.steps == old(device.steps) + 4
      ensures o.Done? ==>
                var d, entry := old(device.disk), RollbackEntry(name, now, newSnapshot, tree);
                device.disk == d.(trees := (d.trees - {latest})[Slot(name) := d.trees[latest]],
                                  pointers := d.pointers[name := RestoredPointer(tree, now)],
                                  log := d.log + [entry], index := Some(IndexOf(Replay(d.log + [entry]))))
    {
      hide RunFor;
      :- device.Do(Rename(latest, Slot(name)), job);
      :- device.Do(PutPointer(name, RestoredPointer(tree, now)), job);
      o := LogAndIndex(RollbackEntry(name, now, newSnapshot, tree), job);
    }

    // ---- startup recovery ----

    method EnsureSuccessLog(tx: PublishTx, ghost job: Job) returns (o: Outcome)
      requires Valid() && device.Follows(job) && device.faultAt == None
      requires !Logged(device.disk.log, tx.publishId) ==>
                 device.steps < job.base + |job.prog| && job.prog[device.steps - job.base] == Append(SuccessEntry(tx))
      modifies this, device
      ensures Valid() && device.Follows(job) && device.powerLossAt == old(device.powerLossAt) && device.faultAt == None
      ensures o != Raised && (o.Down? ==> device.steps == device.powerLossAt)
      ensures o.Done? ==> var logged := Logged(old(device.disk.log), tx.publishId);
                          && device.steps == old(device.steps) + (if logged then 0 else 1)
                          && device.disk.log == if logged then old(device.disk.log) else old(device.disk.log) + [SuccessEntry(tx)]
      ensures !o.Done? ==> device.steps == old(device.steps)
    {
      if !Logged(device.disk.log, tx.publishId) {
        :- AppendLog(SuccessEntry(tx), job);
      }
      return Done;
    }

    method IndexAndDrop(id: Id, ghost job: Job) returns (o: Outcome)
      requires Valid() && device.Follows(job) && device.faultAt == None
      requires var n := device.steps - job.base;
               n + 2 <= |job.prog| && job.prog[n] == PutIndex(IndexOf(Replay(device.disk.log))) && job.prog[n + 1] == DropTx(id)
      modifies this, device
      ensures Valid() && device.Follows(job) && device.powerLossAt == old(device.powerLossAt) && device.faultAt == None
      ensures o != Raised && (o.Down? ==> device.steps == device.powerLossAt)
      ensures o.Done? <==> device.steps == old(device.steps) + 2
      ensures device.steps <= old(device.steps) + 2
    {
      hide RunFor;
      :- device.Do(PutIndex(IndexOf(history)), job);
      :- device.Do(DropTx(id), job);
      return Done;
    }

    /** The swapped branch of recovery once the tree in the slot has verified. */
    method RecordSuccess(tx: PublishTx, ghost job: Job) returns (o: Outcome)
      requires Valid() && device.Follows(job) && device.faultAt == None
      requires Recorded(device.disk.log, tx, job.prog, device.steps - job.base)
      modifies this, device
      ensures Valid() && device.Follows(job) && device.powerLossAt == old(device.powerLossAt) && device.faultAt == None
      ensures o != Raised && (o.Down? ==> device.steps == device.powerLossAt)
      ensures o.Done? <==> device.steps == old(device.steps) + if Logged(old(device.disk.log), tx.publishId) then 3 else 4
    {
      hide Replay, RunFor, IndexOf, Logged;
      :- device.Do(PutPointer(tx.name, Pointer(ArtifactVersion(tx.version), tx.txId)), job);
      :- EnsureSuccessLog(tx, job);
      o := IndexAndDrop(tx.publishId, job);
    }

    /** Finish or undo one journal; stuck means that it needs manual repair. */
    method RecoverJournal(tx: PublishTx, ghost job: Job) returns (o: Outcome, stuck: bool)
      requires Valid() && device.faultAt == None
      requires job == Job(device.disk, RecoverOne(device.disk, tx).cmds, device.steps)
      modifies this, device
      ensures Valid() && device.Follows(job) && device.powerLossAt == old(device.powerLossAt) && device.faultAt == None
      ensures o != Raised && (o.Down? ==> device.steps == device.powerLossAt)
      ensures o.Done? <==> device.steps == job.base + |job.prog|
      ensures o.Done? ==> stuck == !RecoverOne(job.start, tx).ok
    {
      hide RunFor, Replay, IndexOf, RecoverSwapped, RestoreSnapshot, Cleanup, Has;
      RunNone(device.disk, job.prog);
      HasWhole(job);
      stuck := tx.state.RollbackRequired?;
      if tx.state.RollbackRequired? {
        return Done, stuck;
      }
      if tx.state.Committed? {
        :- device.Do(DropTx(tx.publishId), job);
        return Done, stuck;
      }
      if tx.state.Swapped? {
        o, stuck := RecoverSwappedJournal(tx, job);
        return o, stuck;
      }
      var target := Slot(tx.name);
      if tx.snapshot.Some? && tx.snapshot.value in device.disk.trees && target !in device.disk.trees {
        if tx.staging in device.disk.trees {
          o, stuck := FinishSwapOf(tx, job);
        } else {
          o, stuck := PutBack(tx, job);
        }
      } else {
        o := ClearAndDrop(tx, job);
      }
    }

    method ClearAndDrop(tx: PublishTx, ghost job: Job) returns (o: Outcome)
      requires Valid() && device.faultAt == None
      requires job == Job(device.disk, Cleanup(device.disk, tx.staging) + [DropTx(tx.publishId)], device.steps)
      modifies this, device
      ensures Valid() && device.Follows(job) && device.powerLossAt == old(device.powerLossAt) && device.faultAt == None
      ensures o != Raised && (o.Down? ==> device.steps == device.powerLossAt)
      ensures o.Done? <==> device.steps == job.base + |job.prog|
    {
      hide Replay, RunFor, IndexOf, Cleanup, Has;
      ghost var first := Cleanup(device.disk, tx.staging);
      RunNone(device.disk, job.prog);
      CleanedFirst(job, first, DropTx(tx.publishId));
      :- CleanUp(tx.staging, job);
      :- device.Do(DropTx(tx.publishId), job);
      return Done;
    }

    method FinishSwapOf(tx: PublishTx, ghost job: Job) returns (o: Outcome, stuck: bool)
      requires Valid() && device.faultAt == None
      requires tx.staging in device.disk.trees && Slot(tx.name) !in device.disk.trees
      requires var finish := [Rename(tx.staging, Slot(tx.name)), PutTx(tx.(state := Swapped))];
               job == Job(device.disk, finish + RecoverSwapped(Run(device.disk, finish), tx.(state := Swapped)).cmds, device.steps)
      modifies this, device
      ensures Valid() && device.Follows(job) && device.powerLossAt == old(device.powerLossAt) && device.faultAt == None
      ensures o != Raised && (o.Down? ==> device.steps == device.powerLossAt)
      ensures o.Done? <==> device.steps == job.base + |job.prog|
      ensures var finish := [Rename(tx.staging, Slot(tx.name)), PutTx(tx.(state := Swapped))];
              o.Done? ==> stuck == !RecoverSwapped(Run(old(device.disk), finish), tx.(state := Swapped)).ok
    {
      stuck := false;
      RunTwo(device.disk, Rename(tx.staging, Slot(tx.name)), PutTx(tx.(state := Swapped)));
      :- device.Do(Rename(tx.staging, Slot(tx.name)), job);
      :- device.Do(PutTx(tx.(state := Swapped)), job);
      o, stuck := RecoverSwappedJournal(tx.(state := Swapped), job);
    }

    method RecoverSwappedJournal(tx: PublishTx, ghost job: Job) returns (o: Outcome, stuck: bool)
      requires Valid() && device.Follows(job) && device.faultAt == None
      requires Has(job, device.steps, RecoverSwapped(device.disk, tx).cmds)
      requires device.steps + |RecoverSwapped(device.disk, tx).cmds| == job.base + |job.prog|
      modifies this, device
      ensures Valid() && device.Follows(job) && device.powerLossAt == old(device.powerLossAt) && device.faultAt == None
      ensures o != Raised && (o.Down? ==> device.steps == device.powerLossAt)
      ensures o.Done? <==> device.steps == job.base + |job.prog|
      ensures o.Done? ==> stuck == !RecoverSwapped(old(device.disk), tx).ok
    {
      hide Replay, RunFor, IndexOf, Logged, Recorded, Has, Record, Verifies;
      stuck := false;
      if Slot(tx.name) in device.disk.trees {
        if Verifies(device.disk.trees[Slot(tx.name)], tx.artifact) {
          RecordedAt(device.disk.log, tx, job, device.steps);
          o := RecordSuccess(tx, job);
        } else {
          stuck := true;
          PointerFirst(device.disk.log, tx);
          o := RefuseSwapped(tx, job);
        }
      } else {
        o, stuck := PutBack(tx, job);
      }
    }

    /** The slot holds something else: the pointer is written, and the journal asks for manual repair. */
    method RefuseSwapped(tx: PublishTx, ghost job: Job) returns (o: Outcome)
      requires Valid() && device.Follows(job) && device.faultAt == None
      requires Has(job, device.steps, [PutPointer(tx.name, Pointer(ArtifactVersion(tx.version), tx.txId)), PutTx(tx.(state := RollbackRequired))])
      modifies this, device
      ensures Valid() && device.Follows(job) && device.powerLossAt == old(device.powerLossAt) && device.faultAt == None
      ensures o != Raised && (o.Down? ==> device.steps == device.powerLossAt)
      ensures o.Done? <==> device.steps == old(device.steps) + 2
    {
      hide Replay, RunFor, IndexOf, Has;
      TwoAt(job, device.steps, PutPointer(tx.name, Pointer(ArtifactVersion(tx.version), tx.txId)), PutTx(tx.(state := RollbackRequired)));
      :- device.Do(PutPointer(tx.name, Pointer(ArtifactVersion(tx.version), tx.txId)), job);
      :- device.Do(PutTx(tx.(state := RollbackRequired)), job);
      return Done;
    }

    /** No new tree to keep: put the snapshot back into the free slot. */
    method PutBack(tx: PublishTx, ghost job: Job) returns (o: Outcome, stuck: bool)
      requires Valid() && device.Follows(job) && device.faultAt == None && Slot(tx.name) !in device.disk.trees
      requires Has(job, device.steps, RestoreSnapshot(device.disk, tx).cmds)
      requires device.steps + |RestoreSnapshot(device.disk, tx).cmds| == job.base + |job.prog|
      modifies this, device
      ensures Valid() && device.Follows(job) && device.powerLossAt == old(device.powerLossAt) && device.faultAt == None
      ensures o != Raised && (o.Down? ==> device.steps == device.powerLossAt)
      ensures o.Done? <==> device.steps == job.base + |job.prog|
      ensures o.Done? ==> stuck == !RestoreSnapshot(old(device.disk), tx).ok
    {
      hide RunFor, Replay, IndexOf, Has;
      stuck := !(tx.snapshot.Some? && tx.snapshot.value in device.disk.trees);
      if stuck {
        OneAt(job, device.steps, PutTx(tx.(state := RollbackRequired)));
        :- device.Do(PutTx(tx.(state := RollbackRequired)), job);
      } else {
        ThreeAt(job, device.steps, Rename(tx.snapshot.value, Slot(tx.name)), DropPointer(tx.name), DropTx(tx.publishId));
        :- device.Do(Rename(tx.snapshot.value, Slot(tx.name)), job);
        :- device.Do(DropPointer(tx.name), job);
        :- device.Do(DropTx(tx.publishId), job);
      }
      return Done, stuck;
    }

    method Pending() returns (txs: seq<PublishTx>)
      requires forall id | id in device.disk.journals :: device.disk.journals[id].publishId == id
      ensures Lists(txs, device.disk.journals)
    {
      var journals := device.disk.journals;
      var rest := journals.Keys;
      txs := [];
      while rest != {}
        invariant rest <= journals.Keys && Lists(txs, journals - rest)
        decreases rest
      {
        var id :| id in rest;
        ListsSnoc(txs, journals, rest, id);
        txs := txs + [journals[id]];
        rest := rest - {id};
      }
      assert journals - {} == journals;
    }

    /** Startup recovery, until it is done, stuck, or out of power. */
    method Recover() returns (s: Startup, ghost txs: seq<PublishTx>)
      requires Valid() && device.faultAt == None
      requires forall id | id in device.disk.journals :: device.disk.journals[id].publishId == id
      modifies this, device
      ensures Valid() && device.powerLossAt == old(device.powerLossAt)
      ensures Lists(txs, old(device.disk.journals))
      ensures (device.disk, s) == RecoverAll(old(device.disk), txs, old(device.powerLossAt - device.steps))
    {
      hide Replay, RunFor, IndexOf, RecoverOne, Lists;
      var pending := Pending();
      txs := pending;
      for i := 0 to |pending|
        invariant Valid() && device.faultAt == None && device.powerLossAt == old(device.powerLossAt)
        invariant RecoverAll(device.disk, pending[i..], device.powerLossAt - device.steps)
               == RecoverAll(old(device.disk), pending, old(device.powerLossAt - device.steps))
      {
        assert pending[i..][0] == pending[i] && pending[i..][1..] == pending[i + 1..];
        var o, stuck := RecoverJournal(pending[i], Job(device.disk, RecoverOne(device.disk, pending[i]).cmds, device.steps));
        if o.Down? { return Crashed, txs; }
        if stuck { return Stuck, txs; }
      }
      return Ready, txs;
    }
  }

  /** From step n on, the program goes a, b, c. */
  ghost predicate Starts(prog: seq<Cmd>, n: nat, a: Cmd, b: Cmd, c: Cmd) {
    n + 3 <= |prog| && prog[n] == a && prog[n + 1] == b && prog[n + 2] == c
  }

  /** The next steps of the job are exactly these. */
  ghost predicate Has(job: Job, steps: nat, part: seq<Cmd>) {
    && job.base <= steps && steps - job.base + |part| <= |job.prog|
    && job.prog[steps - job.base..steps - job.base + |part|] == part
  }

  lemma PublishedWhole(d: Disk, r: Request, e: Disk)
    requires Quiet(d, r) && e == Run(d, PublishProgram(d, r))
    ensures IsPublished(d, r, e)
  {
    hide RunFor, PublishProgram, Quiet, Replay, IndexOf, IsPublished;
    PrefixAt(d, r, SwapIndex(d, r) + 7);
    LandedIsPublished(d, r, e);
  }

  lemma HasAt(job: Job, steps: nat, part: seq<Cmd>)
    requires Has(job, steps, part)
    ensures job.base <= steps && steps - job.base + |part| <= |job.prog|
    ensures forall i | 0 <= i < |part| :: job.prog[steps - job.base + i] == part[i]
  {
    forall i | 0 <= i < |part| ensures job.prog[steps - job.base + i] == part[i] {
      assert job.prog[steps - job.base..steps - job.base + |part|][i] == part[i];
    }
  }

  /** The three parts of the except block, each at its place. */
  lemma Parts(job: Job, had: bool, d: Disk, r: Request, swapped: bool)
    requires job.prog == HandlerProgram(had, d, r, swapped)
    ensures var n1 := job.base + |Cleanup(d, r.Staged())|;
            && Has(job, job.base, Cleanup(d, r.Staged()))
            && if r.Backup() in d.trees || swapped then
                 var n2 := n1 + |Undo(d, r)|;
                 Has(job, n1, Undo(d, r)) && Has(job, n2, Report(had, d, r)) && |job.prog| == n2 + 4 - job.base
               else |job.prog| == n1 - job.base
  {
    hide Cleanup, Undo, Has;
    var first, second, third := Cleanup(d, r.Staged()), Undo(d, r), Report(had, d, r);
    HasWhole(job);
    if r.Backup() in d.trees || swapped {
      HasSplit(job, job.base, first, second + third);
      HasSplit(job, job.base + |first|, second, third);
      assert |third| == 4;
    } else {
      assert job.prog == first;
    }
  }

  lemma HasSplit(job: Job, steps: nat, a: seq<Cmd>, b: seq<Cmd>)
    requires Has(job, steps, a + b)
    ensures Has(job, steps, a) && Has(job, steps + |a|, b)
  {
    var n := steps - job.base;
    assert job.prog[n..n + |a|] == job.prog[n..n + |a + b|][..|a|];
    assert job.prog[n + |a|..n + |a| + |b|] == job.prog[n..n + |a + b|][|a|..];
  }

  /** Whether the slot was taken matters to the except block only once it has something to undo. */
  lemma HandlerHad(d0: Disk, r: Request, d: Disk, n: nat)
    requires At(d0, r, d, n)
    ensures r.Backup() in d.trees ==> n >= 3 && r.Target() in d0.trees
    ensures HandlerProgram(n >= 3 && r.Target() in d0.trees, d, r, n > SwapIndex(d0, r)) ==
            HandlerProgram(r.Target() in d0.trees, d, r, n > SwapIndex(d0, r))
  {
  }

  lemma AtStaged(d0: Disk, r: Request, d: Disk)
    requires Quiet(d0, r) && d == RunFor(d0, PublishProgram(d0, r), 3)
    ensures (r.Target() in d.trees <==> r.Target() in d0.trees) && r.Backup() !in d.trees
  {
    hide RunFor, Frame, Quiet, PublishProgram, Replay, IndexOf;
    PrefixAt(d0, r, 3);
  }

  lemma AtSwapPoint(d0: Disk, r: Request, d: Disk)
    requires Quiet(d0, r) && d == RunFor(d0, PublishProgram(d0, r), SwapIndex(d0, r))
    ensures r.Staged() in d.trees && r.Target() !in d.trees && d.log == d0.log
  {
    hide RunFor, Frame, Quiet, PublishProgram, Replay, IndexOf;
    PrefixAt(d0, r, SwapIndex(d0, r));
  }

  /** Everything Publish has to know about the disk on which its try block ended. */
  lemma AttemptState(d0: Disk, r: Request, n: nat)
    requires Quiet(d0, r) && n <= |PublishProgram(d0, r)|
    ensures var d := RunFor(d0, PublishProgram(d0, r), n);
            var had := n >= 3 && r.Target() in d0.trees;
            && InFlight(d0, r, d)
            && (n == |PublishProgram(d0, r)| ==> Landed(d0, r, d) && r.publishId !in d.journals)
            && (r.Backup() in d.trees ==> had)
            && HandlerProgram(had, d, r, n > SwapIndex(d0, r)) == HandlerProgram(r.Target() in d0.trees, d, r, n > SwapIndex(d0, r))
            && (n < |PublishProgram(d0, r)| ==>
                  PublishFailure.Compensated(d0, r, Run(d, HandlerProgram(had, d, r, n > SwapIndex(d0, r)))))
  {
    PrefixInFlight(d0, r, n);
    PrefixAt(d0, r, n);
    HandlerHad(d0, r, RunFor(d0, PublishProgram(d0, r), n), n);
    if n < |PublishProgram(d0, r)| {
      PublishFailure.FailedPublishRestores(d0, r, n);
    }
  }

  lemma CleanedFirst(job: Job, first: seq<Cmd>, last: Cmd)
    requires job.prog == first + [last]
    ensures Has(job, job.base, first) && |job.prog| == |first| + 1 && job.prog[|first|] == last
  {
  }

  lemma PartAt(job: Job, steps: nat, part: seq<Cmd>, k: nat)
    requires Has(job, steps, part) && k < |part|
    ensures job.base <= steps && steps - job.base + |part| <= |job.prog| && job.prog[steps - job.base + k] == part[k]
  {
    HasAt(job, steps, part);
  }

  lemma OneAt(job: Job, steps: nat, a: Cmd)
    requires Has(job, steps, [a])
    ensures 0 <= steps - job.base < |job.prog| && job.prog[steps - job.base] == a
  {
    HasAt(job, steps, [a]);
  }

  lemma HasWhole(job: Job)
    ensures Has(job, job.base, job.prog)
  {
  }

  lemma TwoAt(job: Job, steps: nat, a: Cmd, b: Cmd)
    requires Has(job, steps, [a, b])
    ensures 0 <= steps - job.base <= |job.prog| - 2
    ensures job.prog[steps - job.base] == a && job.prog[steps - job.base + 1] == b
  {
    HasAt(job, steps, [a, b]);
  }

  lemma ThreeAt(job: Job, steps: nat, a: Cmd, b: Cmd, c: Cmd)
    requires Has(job, steps, [a, b, c])
    ensures 0 <= steps - job.base <= |job.prog| - 3
    ensures job.prog[steps - job.base] == a && job.prog[steps - job.base + 1] == b && job.prog[steps - job.base + 2] == c
  {
    HasAt(job, steps, [a, b, c]);
  }

  lemma FourAt(job: Job, steps: nat, a: Cmd, b: Cmd, c: Cmd, e: Cmd)
    requires Has(job, steps, [a, b, c, e])
    ensures var n := steps - job.base; 0 <= n <= |job.prog| - 4 && job.prog[n] == a && job.prog[n + 1] == b && job.prog[n + 2] == c && job.prog[n + 3] == e
  {
    HasAt(job, steps, [a, b, c, e]);
  }

  /** From step n on, the program rolls the slot back to that snapshot. */
  ghost predicate RollsBack(d: Disk, name: string, now: Stamp, latest: Path, prog: seq<Cmd>, n: int)
    requires latest in d.trees
  {
    var had := Slot(name) in d.trees;
    var entry := RollbackEntry(name, now, if had then Some(Snapshot(name, now)) else None, d.trees[latest]);
    var m := n + if had then 1 else 0;
    && 0 <= n && m + 4 <= |prog|
    && (had ==> prog[n] == Rename(Slot(name), Snapshot(name, now)))
    && prog[m] == Rename(latest, Slot(name)) && prog[m + 1] == PutPointer(name, RestoredPointer(d.trees[latest], now))
    && prog[m + 2] == Append(entry) && prog[m + 3] == PutIndex(IndexOf(Replay(d.log + [entry])))
  }

  lemma RollbackSteps(d: Disk, name: string, now: Stamp, job: Job, steps: nat)
    requires LatestSnapshot(d, name).Some? && Has(job, steps, RollbackProgram(d, name, now))
    ensures |RollbackProgram(d, name, now)| == if Slot(name) in d.trees then 5 else 4
    ensures RollsBack(d, name, now, LatestSnapshot(d, name).value, job.prog, steps - job.base)
  {
    hide LatestSnapshot, Replay, IndexOf, Has;
    var part := RollbackProgram(d, name, now);
    PartAt(job, steps, part, 0);
    PartAt(job, steps, part, 1);
    PartAt(job, steps, part, 2);
    PartAt(job, steps, part, 3);
    if Slot(name) in d.trees { PartAt(job, steps, part, 4); }
  }

  ghost predicate Recorded(log: seq<LogEntry>, tx: PublishTx, prog: seq<Cmd>, n: int) {
    var logged := Logged(log, tx.publishId);
    var m := n + if logged then 1 else 2;
    && 0 <= n && m + 2 <= |prog|
    && prog[n] == PutPointer(tx.name, Pointer(ArtifactVersion(tx.version), tx.txId))
    && (!logged ==> prog[n + 1] == Append(SuccessEntry(tx)))
    && prog[m] == PutIndex(IndexOf(Replay(if logged then log else log + [SuccessEntry(tx)]))) && prog[m + 1] == DropTx(tx.publishId)
  }

  lemma PointerFirst(log: seq<LogEntry>, tx: PublishTx)
    ensures Record(log, tx) != [] && Record(log, tx)[0] == PutPointer(tx.name, Pointer(ArtifactVersion(tx.version), tx.txId))
  {
    hide Logged, Replay, IndexOf;
  }

  lemma RecordedAt(log: seq<LogEntry>, tx: PublishTx, job: Job, steps: nat)
    requires Has(job, steps, Record(log, tx))
    ensures |Record(log, tx)| == if Logged(log, tx.publishId) then 3 else 4
    ensures Recorded(log, tx, job.prog, steps - job.base)
  {
    hide Has, Replay, IndexOf, Logged;
    var part := Record(log, tx);
    PartAt(job, steps, part, 0);
    PartAt(job, steps, part, 1);
    PartAt(job, steps, part, 2);
    if !Logged(log, tx.publishId) { PartAt(job, steps, part, 3); }
  }

  lemma ListsSnoc(txs: seq<PublishTx>, journals: map<Id, PublishTx>, rest: set<Id>, id: Id)
    requires id in rest && rest <= journals.Keys && Lists(txs, journals - rest) && journals[id].publishId == id
    ensures Lists(txs + [journals[id]], journals - (rest - {id}))
  {
    var all := txs + [journals[id]];
    var seen := journals - rest;
    assert forall x | x in seen :: exists i | 0 <= i < |txs| :: txs[i].publishId == x;
    forall x | x in journals - (rest - {id}) ensures exists i | 0 <= i < |all| :: all[i].publishId == x {
      if x == id {
        assert all[|txs|].publishId == x;
      } else {
        assert x in seen;
        var i :| 0 <= i < |txs| && txs[i].publishId == x;
        assert all[i].publishId == x;
      }
    }
  }

  lemma StagingSteps(d: Disk, r: Request)
    ensures var prog, n := PublishProgram(d, r), SwapIndex(d, r);
            && Starts(prog, 0, WriteTree(r.Staged(), Torn(None)), WriteTree(r.Staged(), r.Tree()), PutTx(r.Tx(Prepared, None)))
            && (n == 6 ==> Starts(prog, 3, PutTx(r.Tx(Prepared, Some(r.Backup()))), Rename(r.Target(), r.Backup()), PutTx(r.Tx(Snapshotted, Some(r.Backup())))))
  {
    hide Replay, IndexOf, SuccessEntry;
  }

  lemma RecordingSteps(d: Disk, r: Request)
    ensures var prog, n := PublishProgram(d, r), SwapIndex(d, r);
            var tx := r.Tx(Swapped, Snap(d, r));
            && prog[n] == Rename(r.Staged(), r.Target())
            && Starts(prog, n + 1, PutTx(tx), PutPointer(r.name, NewPointer(r)), Append(SuccessEntry(tx)))
            && Starts(prog, n + 4, PutIndex(IndexOf(Replay(d.log + [SuccessEntry(tx)]))), PutTx(tx.(state := Committed)), DropTx(tx.publishId))
  {
    hide Replay, IndexOf, SuccessEntry;
  }

  lemma Steps(d: Disk, r: Request)
    ensures var prog, n := PublishProgram(d, r), SwapIndex(d, r);
            var tx := r.Tx(Swapped, Snap(d, r));
            && Starts(prog, 0, WriteTree(r.Staged(), Torn(None)), WriteTree(r.Staged(), r.Tree()), PutTx(r.Tx(Prepared, None)))
            && (n == 6 ==> Starts(prog, 3, PutTx(r.Tx(Prepared, Some(r.Backup()))), Rename(r.Target(), r.Backup()), PutTx(r.Tx(Snapshotted, Some(r.Backup())))))
            && prog[n] == Rename(r.Staged(), r.Target())
            && Starts(prog, n + 1, PutTx(tx), PutPointer(r.name, NewPointer(r)), Append(SuccessEntry(tx)))
            && Starts(prog, n + 4, PutIndex(IndexOf(Replay(d.log + [SuccessEntry(tx)]))), PutTx(tx.(state := Committed)), DropTx(tx.publishId))
  {
    StagingSteps(d, r);
    RecordingSteps(d, r);
    hide Replay, IndexOf, SuccessEntry, PublishProgram, Starts;
  }
}
