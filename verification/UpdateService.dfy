/** The UpdateUseCase object: it performs the programs of module UpdateProtocol step by step, around the
    Publisher it owns. */
module UpdateService {
  import opened Knowledge
  import opened Storage
  import opened PublishProtocol
  import opened PublishAtomicity
  import opened PublisherService
  import opened UpdateProtocol
  import opened UpdateAtomicity
  import opened UpdateHandlerCrash
  import PublishFailure
  import PublishOutcome
  import PublishHandlerCrash
  import SnapshotConservation

  class UpdateUseCase {
    const publisher: Publisher
    const device: Device

    ghost predicate Valid()
      reads this, publisher, publisher.device
    {
      device == publisher.device && publisher.Valid()
    }

    constructor (publisher: Publisher)
      requires publisher.Valid()
      ensures this.publisher == publisher && Valid()
    {
      this.publisher, this.device := publisher, publisher.device;
    }

    /** Snapshot the history and open the journal. */
    method Begin(c: Change, ghost job: Job) returns (o: Outcome, tx: UpdateTx)
      requires Valid() && device.Follows(job) && device.steps == job.base && |job.prog| >= 2
      requires job.prog[0] == PutSchemaSnap(c.txId, HistoryOf(device.disk, c.coll))
      requires job.prog[1] == PutUpd(c.Begun(c.coll in device.disk.schema))
      modifies publisher, device
      ensures Valid() && device.Follows(job) && device.powerLossAt == old(device.powerLossAt)
      ensures o.Done? <==> device.steps == job.base + 2
      ensures device.steps <= job.base + 2 && (o.Raised? ==> device.faultAt == None) && (o.Down? ==> device.steps == device.powerLossAt)
      ensures o.Done? ==> tx == c.Begun(c.coll in old(device.disk.schema))
    {
      tx := c.Begun(c.coll in device.disk.schema);
      hide Replay, RunFor;
      o := device.Do(PutSchemaSnap(c.txId, HistoryOf(device.disk, c.coll)), job);
      if !o.Done? { return; }
      o := device.Do(PutUpd(tx), job);
    }

    /** One journal write, on the condition that the lifecycle permits it. */
    method Advance(from: UpdateTx, to: UpdateTx, ghost job: Job) returns (o: Outcome)
      requires Valid() && device.Follows(job) && device.steps < job.base + |job.prog|
      requires job.prog[device.steps - job.base] == PutUpd(to) && CanTransition(from.state, to.state)
      modifies publisher, device
      ensures Valid() && device.Follows(job) && device.powerLossAt == old(device.powerLossAt)
      ensures o.Done? ==> device.steps == old(device.steps) + 1 && device.disk == Apply(old(device.disk), PutUpd(to))
      ensures !o.Done? ==> device.steps == old(device.steps) && device.disk == old(device.disk)
      ensures (o.Done? || o.Down?) ==> device.faultAt == old(device.faultAt)
      ensures (o.Raised? ==> old(device.faultAt).Some? && device.faultAt == None) && (o.Down? ==> device.steps == device.powerLossAt)
    {
      o := device.Do(PutUpd(to), job);
    }

    /** Delete the journal, then the snapshot of the history. */
    method RemoveTx(tx: UpdateTx, ghost job: Job) returns (o: Outcome)
      requires Valid() && device.Follows(job) && device.steps + 2 <= job.base + |job.prog|
      requires job.prog[device.steps - job.base] == DropUpd(tx.txId) && job.prog[device.steps - job.base + 1] == DropSchemaSnap(tx.txId)
      modifies publisher, device
      ensures Valid() && device.Follows(job) && device.powerLossAt == old(device.powerLossAt)
      ensures o.Done? <==> device.steps == old(device.steps) + 2
      ensures old(device.steps) <= device.steps <= old(device.steps) + 2
      ensures o.Done? ==> device.disk == Apply(Apply(old(device.disk), DropUpd(tx.txId)), DropSchemaSnap(tx.txId))
      ensures (o.Raised? ==> old(device.faultAt).Some? && device.faultAt == None) && (o.Down? ==> device.steps == device.powerLossAt)
      ensures old(device.faultAt) == None ==> device.faultAt == None
    {
      hide Replay, RunFor;
      :- device.Do(DropUpd(tx.txId), job);
      o := device.Do(DropSchemaSnap(tx.txId), job);
    }

    /** Restore the history, bring the old tree back, and forget the transaction; or mark it for manual
        repair and raise. */
    method RollBackTx(tx: UpdateTx, now: Stamp, ghost job: Job) returns (o: Outcome)
      requires Valid() && device.faultAt == None && SnapshotConservation.NewStamp(device.disk, now)
      requires job == Job(device.disk, RollBack(device.disk, tx, now).cmds, device.steps)
      modifies publisher, device
      ensures Valid() && device.Follows(job) && device.powerLossAt == old(device.powerLossAt) && device.faultAt == None
      ensures o.Down? ==> device.steps == device.powerLossAt
      ensures !o.Down? ==> device.steps == job.base + |job.prog|
      ensures !o.Down? ==> (o.Done? <==> RollBack(job.start, tx, now).ok)
    {
      assert device.Follows(job);
      hide Replay, RunFor, LatestSnapshot, RollbackProgram, SnapshotConservation.NewStamp;
      if tx.txId !in device.disk.schemaSnaps {
        :- device.Do(GiveUp(tx), job);
        return Raised;
      }
      ghost var e := Apply(device.disk, RestoreSchema(device.disk, tx));
      RollBackAt(device.disk, tx, now);
      :- device.Do(RestoreSchema(device.disk, tx), job);
      if tx.snapshot.Some? {
        o := RollBackThroughSnapshot(tx, now, job);
      } else {
        o := RollBackByDeletion(tx, job);
      }
    }

    method RollBackThroughSnapshot(tx: UpdateTx, now: Stamp, ghost job: Job) returns (o: Outcome)
      requires Valid() && device.faultAt == None && SnapshotConservation.NewStamp(device.disk, now)
      requires device.Follows(job) && device.steps == job.base + 1
      requires ThroughSnapshot(device.disk, tx, now, job.prog)
      modifies publisher, device
      ensures Valid() && device.Follows(job) && device.powerLossAt == old(device.powerLossAt) && device.faultAt == None
      ensures o.Down? ==> device.steps == device.powerLossAt
      ensures !o.Down? ==> device.steps == job.base + |job.prog|
      ensures !o.Down? ==> (o.Done? <==> LatestSnapshot(old(device.disk), tx.name).Some?)
    {
      hide Replay, RunFor, LatestSnapshot, RollbackProgram, SnapshotConservation.NewStamp, RollsBack;
      o := publisher.RollbackLatest(tx.name, now, job);
      if o.Raised? {
        :- device.Do(GiveUp(tx), job);
        return Raised;
      } else if o.Done? {
        o := RemoveTx(tx, job);
      }
    }

    method RollBackByDeletion(tx: UpdateTx, ghost job: Job) returns (o: Outcome)
      requires Valid() && device.faultAt == None && device.Follows(job) && device.steps == job.base + 1
      requires if Carries(device.disk, tx.name, tx.txId)
               then |job.prog| == 6 && Starts(job.prog, 1, DropSlot(tx)[0], DropSlot(tx)[1], DropSlot(tx)[2])
                    && job.prog[4] == DropUpd(tx.txId) && job.prog[5] == DropSchemaSnap(tx.txId)
               else |job.prog| == 2 && job.prog[1] == GiveUp(tx)
      modifies publisher, device
      ensures Valid() && device.Follows(job) && device.powerLossAt == old(device.powerLossAt) && device.faultAt == None
      ensures o.Down? ==> device.steps == device.powerLossAt
      ensures !o.Down? ==> device.steps == job.base + |job.prog|
      ensures !o.Down? ==> (o.Done? <==> Carries(old(device.disk), tx.name, tx.txId))
    {
      hide Replay, RunFor;
      var slot := Slot(tx.name);
      if !(slot in device.disk.trees && device.disk.trees[slot].txId == Some(tx.txId)) {
        :- device.Do(GiveUp(tx), job);
        return Raised;
      }
      :- device.Do(WriteTree(slot, Torn(Some(tx.txId))), job);
      :- device.Do(WriteTree(slot, Torn(None)), job);
      :- device.Do(DropTree(slot), job);
      o := RemoveTx(tx, job);
    }

    // ---- execute ----

    /** No publication took place: forget the transaction and raise. */
    method Abandon(tx: UpdateTx) returns (o: Outcome)
      requires Valid() && device.faultAt == None
      modifies publisher, device
      ensures Valid() && device.powerLossAt == old(device.powerLossAt)
      ensures o != Done && (o.Down? ==> device.steps == device.powerLossAt)
      ensures o.Raised? ==> device.disk == old(device.disk).(updates := old(device.disk).updates - {tx.txId},
                                                             schemaSnaps := old(device.disk).schemaSnaps - {tx.txId})
      ensures device.steps >= old(device.steps) && (o.Down? ==> device.disk == RunFor(old(device.disk), Remove(tx), device.steps - old(device.steps)))
    {
      ghost var job := Job(device.disk, Remove(tx), device.steps);
      assert device.Follows(job);
      o := RemoveTx(tx, job);
      return if o.Down? then Down else Raised;
    }

    /** Append the records to the history; a failure rolls the publication back. */
    method Commit(c: Change, tx: UpdateTx, now: Stamp, ghost job: Job) returns (o: Outcome, ghost handled: bool)
      requires Valid() && Startable(job.start, c) && c.now < now
      requires job.prog == UpdateProgram(job.start, c) && device.Follows(job)
      requires device.steps == job.base + Tail(job.start, c) + 1 && tx == PublishedTx(job.start, c)
      modifies publisher, device
      ensures Valid() && device.powerLossAt == old(device.powerLossAt)
      ensures o.Down? ==> device.steps == device.powerLossAt
      ensures !handled ==> device.Follows(job)
      ensures o.Done? ==> !handled && device.steps == job.base + |job.prog|
      ensures o.Raised? && handled ==> Ends(job.start, c, device.disk, OldKept) && device.disk.updates == map[]
      ensures o.Down? && handled ==> RollingBack(job.start, c, now, device.disk)
    {
      hide UpdateProgram, PublishedTx, HistoryOf, RunFor, Replay, Tail, Ends, Startable, Recovered, RollBack;
      handled := false;
      ghost var n := Tail(job.start, c);
      ghost var e := device.disk;
      ClosingSteps(job.start, c, e);
      var history := HistoryOf(device.disk, c.coll) + c.pending;
      o := device.Do(PutSchema(c.coll, history), job);
      if o.Raised? {
        handled := true;
        RollBackEnds(job.start, c, e, now);
        var undo := RollBackTx(tx, now, Job(e, RollBack(e, tx, now).cmds, device.steps));
        assert device.disk == RunFor(e, RollBack(e, tx, now).cmds, device.steps - job.base - n - 1);
        return if undo.Down? then Down else Raised, handled;
      }
      if o.Down? { return; }
      o := Complete(tx, n, job);
    }

    /** The history has landed: journal that, and close the transaction. */
    method Complete(tx: UpdateTx, ghost n: nat, ghost job: Job) returns (o: Outcome)
      requires Valid() && device.Follows(job) && device.steps == job.base + n + 2 && |job.prog| == n + 6
      requires tx.coll in device.disk.schema && tx.state == UpdSkillPublished
      requires var history := device.disk.schema[tx.coll];
               && Starts(job.prog, n + 2, PutUpd(tx.(state := UpdSchemaCommitted, schemaSeen := Some(history))),
                                          PutUpd(tx.(state := UpdCommitted, schemaSeen := Some(history))), DropUpd(tx.txId))
               && job.prog[n + 5] == DropSchemaSnap(tx.txId)
      modifies publisher, device
      ensures Valid() && device.Follows(job) && device.powerLossAt == old(device.powerLossAt)
      ensures o.Down? ==> device.steps == device.powerLossAt
      ensures o.Done? ==> device.steps == job.base + |job.prog|
    {
      hide RunFor, Replay;
      var committed := tx.(state := UpdSchemaCommitted, schemaSeen := Some(device.disk.schema[tx.coll]));
      :- Advance(tx, committed, job);
      :- Advance(committed, committed.(state := UpdCommitted), job);
      o := RemoveTx(committed, job);
    }

    /** The publication, as part of the open transaction. A publication that raises is undone. */
    method PublishInside(c: Change, ghost job: Job) returns (o: Outcome, snapshot: Option<Path>, ghost handled: bool)
      requires Valid() && Startable(job.start, c)
      requires job.prog == UpdateProgram(job.start, c) && device.Follows(job) && device.steps == job.base + 3
      modifies publisher, device
      ensures Valid() && device.powerLossAt == old(device.powerLossAt)
      ensures (o.Down? ==> device.steps == device.powerLossAt) && (o.Raised? ==> device.faultAt == None)
      ensures !handled ==> device.Follows(job)
      ensures o.Done? ==> !handled && device.steps == job.base + Tail(job.start, c) && snapshot == Snap(job.start, c.Publication())
      ensures o.Raised? ==> Ends(job.start, c, device.disk, OldKept) && device.disk.updates - {c.txId} == map[]
      ensures o.Raised? ==> Withdrawable(job.start, c, device.disk, c.Begun(c.coll in job.start.schema).(state := UpdPublishing))
      ensures o.Down? && handled ==> PublishHandlerCrash.DuringUndo(Published3(job.start, c), c.Publication(), device.disk)
    {
      hide PublishHandlerCrash.DuringUndo, Withdrawable, UpdateProgram, Replay, RunFor, Quiet, Startable, PublishProgram, IndexOf, Landed, InFlight,
           PublishFailure.Compensated, Ends, Tail, Starts, SwapIndex, Base, Snap;
      ghost var d0, d3 := job.start, device.disk;
      PublicationOpens(d0, c, d3);
      o, snapshot, handled := publisher.Publish(c.Publication());
      if o.Raised? {
        UndoneIsOld(d0, c, d3, device.disk);
        WithdrawableAfterUndo(d0, c, device.disk);
        handled := true;
      } else if !handled {
        Nested(d0, c, device.steps - job.base - 3);
      }
    }

    /** Publish inside the open transaction, journal the record, and commit the history. */
    method PublishAndCommit(c: Change, tx: UpdateTx, now: Stamp, ghost job: Job) returns (o: Outcome, ghost handled: bool)
      requires Valid() && Startable(job.start, c) && c.now < now
      requires job.prog == UpdateProgram(job.start, c) && device.Follows(job) && device.steps == job.base + 3
      requires tx == c.Begun(c.coll in job.start.schema).(state := UpdPublishing)
      modifies publisher, device
      ensures Valid() && device.powerLossAt == old(device.powerLossAt)
      ensures o.Down? ==> device.steps == device.powerLossAt
      ensures !handled ==> device.Follows(job)
      ensures o.Done? ==> !handled && device.steps == job.base + |job.prog|
      ensures o.Raised? && handled ==> Ends(job.start, c, device.disk, OldKept) && device.disk.updates == map[]
      ensures o.Down? && handled ==> Undoing(job.start, c, now, device.disk)
    {
      var snapshot;
      hide RollingBack, PublishHandlerCrash.DuringUndo, Withdrawable, Withdrawing, Published3, UpdateProgram, Replay, RunFor, Startable, Tail, IndexOf, Snap;
      o, snapshot, handled := PublishInside(c, job);
      if o.Raised? {
        handled := true;
        ghost var d, before := device.disk, device.steps;
        o := Abandon(tx);
        if o.Down? { WithdrawingFrom(job.start, c, d, tx, device.steps - before); }
      } else if o.Done? {
        o, handled := JournalPublication(c, tx, snapshot, now, job);
      }
    }

    /** Journal the record that publish returned, with what the pointer and the index now say. */
    method JournalPublication(c: Change, tx: UpdateTx, snapshot: Option<Path>, now: Stamp, ghost job: Job) returns (o: Outcome, ghost handled: bool)
      requires Valid() && Startable(job.start, c) && c.now < now
      requires job.prog == UpdateProgram(job.start, c) && device.Follows(job) && device.steps == job.base + Tail(job.start, c)
      requires tx == c.Begun(c.coll in job.start.schema).(state := UpdPublishing) && snapshot == Snap(job.start, c.Publication())
      modifies publisher, device
      ensures Valid() && device.powerLossAt == old(device.powerLossAt)
      ensures o.Down? ==> device.steps == device.powerLossAt
      ensures !handled ==> device.Follows(job)
      ensures o.Done? ==> !handled && device.steps == job.base + |job.prog|
      ensures o.Raised? && handled ==> Ends(job.start, c, device.disk, OldKept) && device.disk.updates == map[]
      ensures o.Down? && handled ==> RollingBack(job.start, c, now, device.disk)
    {
      hide RollingBack;
      handled := false;
      PublishedAt(job.start, c, device.disk);
      hide UpdateProgram, Replay, RunFor, Startable, IndexOf, Tail, PublishedTx, Ends;
      var published := tx.(state := UpdSkillPublished, snapshot := snapshot, artifact := Some(c.artifact),
                           pointerSeen := Some(device.disk.pointers[c.name]), indexSeen := device.disk.index);
      o := Advance(tx, published, job);
      if !o.Done? { return; }
      o, handled := Commit(c, published, now, job);
    }

    /** Publish the change, then append its records to the history. An execute that raises has either
        undone the change or left a journal from which the next start resumes; the ghost result tells
        which. Power may also be lost while it undoes the change. */
    method Execute(c: Change, now: Stamp) returns (o: Outcome, ghost handled: bool)
      requires Valid() && Startable(device.disk, c) && c.now < now
      modifies publisher, device
      ensures Valid() && device.powerLossAt == old(device.powerLossAt)
      ensures o.Down? ==> device.steps == device.powerLossAt
      ensures !handled ==> device.Follows(Job(old(device.disk), UpdateProgram(old(device.disk), c), old(device.steps)))
      ensures o.Done? ==> Ends(old(device.disk), c, device.disk, BothNew) && device.disk.updates == map[]
      ensures o.Done? ==> PublishOutcome.IsPublished(old(device.disk), c.Publication(), device.disk)
      ensures o.Raised? && handled ==> Ends(old(device.disk), c, device.disk, OldKept) && device.disk.updates == map[]
      ensures o.Down? && handled ==> Undoing(old(device.disk), c, now, device.disk)
    {
      hide PublishOutcome.IsPublished, Undoing, Withdrawable, UpdateProgram, Replay, RunFor, Startable, IndexOf, Ends, HistoryOf, Tail;
      ghost var d0 := device.disk;
      ghost var job := Job(d0, UpdateProgram(d0, c), device.steps);
      RunNone(d0, UpdateProgram(d0, c));
      assert device.Follows(job);
      handled := false;
      Opening(d0, c);
      var tx;
      o, tx := Begin(c, job);
      if !o.Done? { return; }
      o := Advance(tx, tx.(state := UpdPublishing), job);
      if o.Down? { return; }
      if o.Raised? {
        handled := true;
        OpenedIsOld(d0, c, device.disk);
        WithdrawableAtTwo(d0, c, device.disk);
        ghost var d, before := device.disk, device.steps;
        o := Abandon(tx);
        if o.Down? { WithdrawnUndoes(d0, c, now, d, tx, device.steps - before); }
        return;
      }
      o, handled := PublishAndCommit(c, tx.(state := UpdPublishing), now, job);
      if o.Done? {
        ExecutedWhole(d0, c);
        ExecutedPublishes(d0, c);
      }
    }

    // ---- startup recovery ----

    /** One pending journal. */
    method RecoverTx(tx: UpdateTx, now: Stamp, ghost job: Job) returns (o: Outcome)
      requires Valid() && device.faultAt == None && SnapshotConservation.NewStamp(device.disk, now)
      requires job == Job(device.disk, RecoverUpdate(device.disk, tx, now).cmds, device.steps)
      modifies publisher, device
      ensures Valid() && device.Follows(job) && device.powerLossAt == old(device.powerLossAt) && device.faultAt == None
      ensures o.Down? ==> device.steps == device.powerLossAt
      ensures !o.Down? ==> device.steps == job.base + |job.prog|
      ensures !o.Down? ==> (o.Done? <==> RecoverUpdate(job.start, tx, now).ok)
    {
      assert device.Follows(job);
      hide Replay, RunFor, RollBack, SnapshotConservation.NewStamp;
      if tx.state == UpdRollbackRequired { return Raised; }
      if tx.state in {UpdCommitted, UpdPrepared} || (tx.state == UpdPublishing && !TransactionVisible(device.disk, tx)) {
        o := RemoveTx(tx, job);
      } else if SchemaVisible(device.disk, tx) {
        :- Advance(tx, tx.(state := UpdCommitted), job);
        o := RemoveTx(tx, job);
      } else {
        o := RollBackTx(tx, now, job);
      }
    }

    /** Reconcile the given journals in order; raise at the first that needs manual repair. */
    method RecoverPending(pending: seq<UpdateTx>, now: Stamp) returns (o: Outcome)
      requires Valid() && device.faultAt == None && SnapshotConservation.NewStamp(device.disk, now)
      modifies publisher, device
      ensures Valid() && device.powerLossAt == old(device.powerLossAt) && device.faultAt == None
      ensures o.Down? ==> device.steps == device.powerLossAt
      ensures !o.Down? ==> (device.disk, o.Done?) == RecoverUpdates(old(device.disk), pending, now)
    {
      hide Replay, RunFor, RecoverUpdate;
      for i := 0 to |pending|
        invariant Valid() && device.faultAt == None && device.powerLossAt == old(device.powerLossAt)
        invariant SnapshotConservation.NewStamp(device.disk, now + i)
        invariant RecoverUpdates(device.disk, pending[i..], now + i) == RecoverUpdates(old(device.disk), pending, now)
      {
        assert pending[i..][0] == pending[i] && pending[i..][1..] == pending[i + 1..];
        ghost var d := device.disk;
        RecoveryStamps(d, pending[i], now + i);
        o := RecoverTx(pending[i], now + i, Job(d, RecoverUpdate(d, pending[i], now + i).cmds, device.steps));
        if !o.Done? { return; }
      }
      return Done;
    }
  }

  /** From its second step on, a rollback through the latest snapshot goes like this. */
  ghost predicate ThroughSnapshot(e: Disk, tx: UpdateTx, now: Stamp, prog: seq<Cmd>) {
    if LatestSnapshot(e, tx.name).Some? then
      var n := 1 + if Slot(tx.name) in e.trees then 5 else 4;
      && |prog| == n + 2 && RollsBack(e, tx.name, now, LatestSnapshot(e, tx.name).value, prog, 1)
      && prog[n] == DropUpd(tx.txId) && prog[n + 1] == DropSchemaSnap(tx.txId)
    else |prog| == 2 && prog[1] == GiveUp(tx)
  }

  lemma RollBackAt(d: Disk, tx: UpdateTx, now: Stamp)
    requires tx.txId in d.schemaSnaps
    ensures var prog := RollBack(d, tx, now).cmds;
            var e := Apply(d, RestoreSchema(d, tx));
            && |prog| >= 2 && prog[0] == RestoreSchema(d, tx)
            && (tx.snapshot.Some? ==> ThroughSnapshot(e, tx, now, prog))
            && (tx.snapshot.None? && Carries(e, tx.name, tx.txId) ==>
                  |prog| == 6 && Starts(prog, 1, DropSlot(tx)[0], DropSlot(tx)[1], DropSlot(tx)[2])
                  && prog[4] == DropUpd(tx.txId) && prog[5] == DropSchemaSnap(tx.txId))
            && (tx.snapshot.None? && !Carries(e, tx.name, tx.txId) ==> |prog| == 2 && prog[1] == GiveUp(tx))
  {
    hide LatestSnapshot, Replay, IndexOf;
  }

  /** The disk on which execute begins to commit the history, and the six steps from there. */
  lemma ClosingSteps(d0: Disk, c: Change, e: Disk)
    requires Startable(d0, c) && e == RunFor(d0, UpdateProgram(d0, c), Tail(d0, c) + 1)
    ensures Recovered(d0, c, e, Tail(d0, c) + 1) && c.txId in e.updates && e.updates[c.txId] == PublishedTx(d0, c)
    ensures HistoryOf(e, c.coll) == HistoryOf(d0, c.coll)
    ensures ClosesWith(d0, c, UpdateProgram(d0, c), PublishedTx(d0, c))
  {
    hide Startable, RunFor, UpdateProgram, Tail, UpdateAt, Recovered, BooksAt, PublishedTx, HistoryOf, ClosesWith;
    UpdatePrefix(d0, c, Tail(d0, c) + 1);
    ClosingState(d0, c, e);
    SixSteps(d0, c);
  }

  lemma ClosingState(d0: Disk, c: Change, e: Disk)
    requires UpdateAt(d0, c, e, Tail(d0, c) + 1)
    ensures Recovered(d0, c, e, Tail(d0, c) + 1) && c.txId in e.updates && e.updates[c.txId] == PublishedTx(d0, c)
    ensures HistoryOf(e, c.coll) == HistoryOf(d0, c.coll)
  {
    hide At, Before, Between, Unjournalled, AfterSwap, Landed, Frame, PublishedTx, CommittedTx, SwapIndex, PublishStep, Entry, Snap;
    BaseSwap(d0, e, c.Publication());
    AtPhase(Base(d0, e), c.Publication(), e, PublishSteps(d0, c, Tail(d0, c) + 1));
    SwapPositive(d0, c);
  }

  lemma SwapPositive(d0: Disk, c: Change)
    ensures SwapIndex(d0, c.Publication()) >= 3 && FirstMove(d0, c) <= Tail(d0, c)
  {
  }

  ghost predicate ClosesWith(d0: Disk, c: Change, prog: seq<Cmd>, tx: UpdateTx) {
    var n, history := Tail(d0, c), HistoryOf(d0, c.coll) + c.pending;
    && tx.txId == c.txId && tx.coll == c.coll && tx.state == UpdSkillPublished
    && |prog| == n + 6
    && prog[n + 1] == PutSchema(c.coll, history)
    && Starts(prog, n + 2, PutUpd(tx.(state := UpdSchemaCommitted, schemaSeen := Some(history))),
                           PutUpd(tx.(state := UpdCommitted, schemaSeen := Some(history))), DropUpd(c.txId))
    && prog[n + 5] == DropSchemaSnap(c.txId)
  }

  lemma SixSteps(d0: Disk, c: Change)
    ensures ClosesWith(d0, c, UpdateProgram(d0, c), PublishedTx(d0, c))
  {
    hide PublishedIndex, NewPointer, Snap;
  }

  /** The disk before the publication starts, and how the transaction was opened. */
  lemma Opening(d0: Disk, c: Change)
    requires Startable(d0, c)
    ensures var prog, tx := UpdateProgram(d0, c), c.Begun(c.coll in d0.schema);
            var snaps := d0.schemaSnaps[c.txId := HistoryOf(d0, c.coll)];
            && |prog| > 3 && Starts(prog, 0, PutSchemaSnap(c.txId, HistoryOf(d0, c.coll)), PutUpd(tx), PutUpd(tx.(state := UpdPublishing)))
            && RunFor(d0, prog, 2) == d0.(updates := map[c.txId := tx], schemaSnaps := snaps)
            && RunFor(d0, prog, 3) == d0.(updates := map[c.txId := tx.(state := UpdPublishing)], schemaSnaps := snaps)
  {
    hide Startable, RunFor, UpdateProgram, HistoryOf;
    OpeningProgram(d0, c);
    var prog, tx := UpdateProgram(d0, c), c.Begun(c.coll in d0.schema);
    RunThree(d0, prog);
    NoUpdatesYet(d0, c);
    Overwrite(d0.updates, c.txId, tx, tx.(state := UpdPublishing));
  }

  lemma RunThree(d: Disk, prog: seq<Cmd>)
    requires |prog| > 3
    ensures RunFor(d, prog, 2) == Apply(Apply(d, prog[0]), prog[1]) && RunFor(d, prog, 3) == Apply(RunFor(d, prog, 2), prog[2])
  {
    hide RunFor, Apply;
    RunNone(d, prog);
    RunSnoc(d, prog, 0);
    RunSnoc(d, prog, 1);
    RunSnoc(d, prog, 2);
  }

  lemma Overwrite(m: map<Id, UpdateTx>, id: Id, a: UpdateTx, b: UpdateTx)
    requires m == map[]
    ensures m[id := a] == map[id := a] && map[id := a][id := b] == map[id := b]
  {
  }

  /** Forgetting a transaction that has just been opened leaves the old state. */
  lemma OpenedIsOld(d0: Disk, c: Change, d: Disk)
    requires Startable(d0, c) && d == RunFor(d0, UpdateProgram(d0, c), 2)
    ensures forall snaps | snaps == d.schemaSnaps - {c.txId} ::
              Ends(d0, c, d.(updates := d.updates - {c.txId}, schemaSnaps := snaps), OldKept)
    ensures d.updates - {c.txId} == map[]
  {
    hide Startable, RunFor, UpdateProgram, Tail;
    Opening(d0, c);
  }

  lemma WithdrawableAtTwo(d0: Disk, c: Change, d: Disk)
    requires Startable(d0, c) && d == RunFor(d0, UpdateProgram(d0, c), 2)
    ensures Withdrawable(d0, c, d, c.Begun(c.coll in d0.schema))
  {
    hide Startable, RunFor, UpdateProgram, HistoryOf;
    Opening(d0, c);
  }

  lemma WithdrawableAfterUndo(d0: Disk, c: Change, e: Disk)
    requires Startable(d0, c) && PublishFailure.Compensated(Published3(d0, c), c.Publication(), e)
    ensures Withdrawable(d0, c, e, c.Begun(c.coll in d0.schema).(state := UpdPublishing))
  {
    hide Startable, RunFor, UpdateProgram, Quiet, Replay, IndexOf, Published3;
    ReadyToPublish(d0, c);
    assert SameAt(Published3(d0, c), e, c.Target());
  }

  lemma WithdrawnUndoes(d0: Disk, c: Change, now: Stamp, d: Disk, tx: UpdateTx, j: nat)
    requires Withdrawable(d0, c, d, tx)
    ensures Undoing(d0, c, now, RunFor(d, Remove(tx), j))
  {
    hide Withdrawable, RunFor;
    WithdrawingFrom(d0, c, d, tx, j);
  }

  lemma OpeningProgram(d0: Disk, c: Change)
    ensures var prog, tx := UpdateProgram(d0, c), c.Begun(c.coll in d0.schema);
            |prog| > 3 && Starts(prog, 0, PutSchemaSnap(c.txId, HistoryOf(d0, c.coll)), PutUpd(tx), PutUpd(tx.(state := UpdPublishing)))
  {
    hide SwapIndex, PublishStep, HistoryOf;
  }

  lemma NoUpdatesYet(d0: Disk, c: Change)
    requires Startable(d0, c)
    ensures d0.updates == map[]
  {
    hide Quiet;
  }

  /** To the publication, the open transaction is invisible. */
  lemma PublishSame(d0: Disk, d3: Disk, c: Change)
    requires Startable(d0, c) && d3 == d0.(updates := d3.updates, schemaSnaps := d3.schemaSnaps)
    ensures Quiet(d3, c.Publication()) && d3.index == d0.index && d3.log == d0.log
  {
    assert Base(d0, d3) == d3;
    QuietBase(d0, d3, c.Publication());
  }

  lemma PublicationOpens(d0: Disk, c: Change, d3: Disk)
    requires Startable(d0, c) && d3 == RunFor(d0, UpdateProgram(d0, c), 3)
    ensures Quiet(d3, c.Publication()) && d3.index == d0.index && d3.log == d0.log && d3.trees == d0.trees && d3.schema == d0.schema
    ensures d3.updates - {c.txId} == map[]
    ensures |PublishProgram(d3, c.Publication())| == Tail(d0, c) - 3 && |UpdateProgram(d0, c)| == Tail(d0, c) + 6
    ensures Snap(d3, c.Publication()) == Snap(d0, c.Publication())
  {
    Opening(d0, c);
    hide RunFor, Startable, UpdateProgram, PublishProgram, Snap, Tail;
    PublishSame(d0, d3, c);
    PublicationLength(d0, c, d3);
    SnapSame(d0, d3, c.Publication());
  }

  lemma PublicationLength(d0: Disk, c: Change, d3: Disk)
    requires d3.trees == d0.trees
    ensures |PublishProgram(d3, c.Publication())| == Tail(d0, c) - 3 && |UpdateProgram(d0, c)| == Tail(d0, c) + 6
  {
  }

  lemma SnapSame(d0: Disk, d3: Disk, r: Request)
    requires d3.trees == d0.trees
    ensures Snap(d3, r) == Snap(d0, r)
  {
  }

  lemma UndoneIsOld(d0: Disk, c: Change, d3: Disk, e: Disk)
    requires PublishFailure.Compensated(d3, c.Publication(), e) && d3.trees == d0.trees && d3.schema == d0.schema
    requires d3.updates - {c.txId} == map[]
    ensures Ends(d0, c, e, OldKept)
    ensures e.updates - {c.txId} == map[]
  {
    assert SameAt(d3, e, c.Target());
  }

  lemma NestedStep(d0: Disk, c: Change, d3: Disk, m: nat)
    requires d3 == d0.(updates := d3.updates, schemaSnaps := d3.schemaSnaps) && m + 3 <= Tail(d0, c)
    ensures |PublishProgram(d3, c.Publication())| == Tail(d0, c) - 3 && |UpdateProgram(d0, c)| == Tail(d0, c) + 6
    ensures m > 0 ==> UpdateProgram(d0, c)[m + 2] == PublishProgram(d3, c.Publication())[m - 1]
  {
    hide PublishStep, SwapIndex, Entry;
    assert Base(d0, d3) == d3;
    BaseSwap(d0, d3, c.Publication());
  }

  /** The steps of the publication are steps of the update. */
  lemma {:induction false} Nested(d0: Disk, c: Change, m: nat)
    requires Startable(d0, c) && m + 3 <= Tail(d0, c)
    ensures var d3 := RunFor(d0, UpdateProgram(d0, c), 3);
            RunFor(d0, UpdateProgram(d0, c), m + 3) == RunFor(d3, PublishProgram(d3, c.Publication()), m)
            && |PublishProgram(d3, c.Publication())| == Tail(d0, c) - 3
  {
    hide RunFor, UpdateProgram, PublishProgram, Startable, Tail;
    var d3 := RunFor(d0, UpdateProgram(d0, c), 3);
    Opening(d0, c);
    NestedStep(d0, c, d3, m);
    if m == 0 {
      RunNone(d3, PublishProgram(d3, c.Publication()));
    } else {
      Nested(d0, c, m - 1);
      RunSnoc(d0, UpdateProgram(d0, c), m + 2);
      RunSnoc(d3, PublishProgram(d3, c.Publication()), m - 1);
    }
  }

  /** What publish left, and the step that journals it. */
  lemma PublishedAt(d0: Disk, c: Change, e: Disk)
    requires Startable(d0, c) && e == RunFor(d0, UpdateProgram(d0, c), Tail(d0, c))
    ensures c.name in e.pointers && e.index.Some?
    ensures |UpdateProgram(d0, c)| == Tail(d0, c) + 6
    ensures UpdateProgram(d0, c)[Tail(d0, c)] ==
              PutUpd(c.Begun(c.coll in d0.schema).(state := UpdSkillPublished, snapshot := Snap(d0, c.Publication()),
                artifact := Some(c.artifact), pointerSeen := Some(e.pointers[c.name]), indexSeen := e.index))
    ensures UpdateProgram(d0, c)[Tail(d0, c)] == PutUpd(PublishedTx(d0, c))
  {
    UpdatePrefix(d0, c, Tail(d0, c));
    BaseSwap(d0, e, c.Publication());
    AtPhase(Base(d0, e), c.Publication(), e, PublishSteps(d0, c, Tail(d0, c)));
    hide At, RunFor, Before, Between, Unjournalled, AfterSwap, Frame, Replay, IndexOf, Startable, BooksAt;
  }

  lemma ExecutedWhole(d0: Disk, c: Change)
    requires Startable(d0, c)
    ensures Ends(d0, c, Run(d0, UpdateProgram(d0, c)), BothNew) && Run(d0, UpdateProgram(d0, c)).updates == map[]
  {
    var n := Tail(d0, c) + 6;
    var e := Run(d0, UpdateProgram(d0, c));
    UpdatePrefix(d0, c, n);
    AtPhase(Base(d0, e), c.Publication(), e, PublishSteps(d0, c, n));
    BaseSwap(d0, e, c.Publication());
    hide At, RunFor, Before, Between, Unjournalled, AfterSwap, Frame, Replay, IndexOf, Startable;
  }

  /** A completed update leaves a completed publication: slot, snapshot, pointer, log line and index row. */
  lemma ExecutedPublishes(d0: Disk, c: Change)
    requires Startable(d0, c)
    ensures PublishOutcome.IsPublished(d0, c.Publication(), Run(d0, UpdateProgram(d0, c)))
  {
    var n, r := Tail(d0, c) + 6, c.Publication();
    var e := Run(d0, UpdateProgram(d0, c));
    UpdatePrefix(d0, c, n);
    var base := Base(d0, e);
    BaseSwap(d0, e, r);
    assert PublishSteps(d0, c, n) == SwapIndex(base, r) + 7;
    hide RunFor, UpdateProgram, Replay, IndexOf;
    AtLanded(base, r, e);
    QuietBase(d0, e, r);
    PublishOutcome.LandedIsPublished(base, r, e);
    SameDisk(d0, base, r, e);
  }

  lemma AtLanded(base: Disk, r: Request, e: Disk)
    requires At(base, r, e, SwapIndex(base, r) + 7)
    ensures Frame(base, r, e) && Landed(base, r, e)
  {
    hide Replay, IndexOf, Frame;
  }

  /** The publication does not look at the bookkeeping of the update. */
  lemma QuietBase(d0: Disk, e: Disk, r: Request)
    requires Quiet(d0, r)
    ensures Quiet(Base(d0, e), r)
  {
  }

  lemma SameDisk(d0: Disk, base: Disk, r: Request, e: Disk)
    requires base.trees == d0.trees && base.pointers == d0.pointers && base.log == d0.log && base.index == d0.index
    requires PublishOutcome.IsPublished(base, r, e)
    ensures PublishOutcome.IsPublished(d0, r, e)
  {
  }

  /** The program makes no snapshot later than that. */
  ghost predicate StampsUpTo(prog: seq<Cmd>, now: Stamp) {
    forall i | 0 <= i < |prog| ::
      && (prog[i].WriteTree? ==> !prog[i].path.Snapshot?)
      && (prog[i].Rename? && prog[i].dst.Snapshot? ==> prog[i].dst.at <= now)
  }

  lemma {:induction false} StampsKept(d: Disk, prog: seq<Cmd>, now: Stamp)
    requires SnapshotConservation.NewStamp(d, now + 1) && StampsUpTo(prog, now)
    ensures SnapshotConservation.NewStamp(Run(d, prog), now + 1)
    decreases |prog|
  {
    if prog != [] {
      assert prog[0].WriteTree? ==> !prog[0].path.Snapshot?;
      StampKept(d, prog[0], now);
      StampsKept(Apply(d, prog[0]), prog[1..], now);
    }
  }

  lemma StampKept(d: Disk, c: Cmd, now: Stamp)
    requires SnapshotConservation.NewStamp(d, now + 1)
    requires (c.WriteTree? ==> !c.path.Snapshot?) && (c.Rename? && c.dst.Snapshot? ==> c.dst.at <= now)
    ensures SnapshotConservation.NewStamp(Apply(d, c), now + 1)
  {
    var e := Apply(d, c);
    forall p | p in e.trees && p.Snapshot? ensures p.at < now + 1 {
      if p !in d.trees { assert c.Rename? && p == c.dst; }
    }
  }

  /** Recovery with one clock reading leaves only older stamps for the next. */
  lemma RecoveryStamps(d: Disk, tx: UpdateTx, now: Stamp)
    requires SnapshotConservation.NewStamp(d, now)
    ensures SnapshotConservation.NewStamp(Run(d, RecoverUpdate(d, tx, now).cmds), now + 1)
  {
    RollBackStamps(d, tx, now);
    hide SchemaVisible, TransactionVisible, RollBack, SnapshotConservation.NewStamp;
    assert SnapshotConservation.NewStamp(d, now + 1) by { StampsLater(d, now); }
    StampsKept(d, RecoverUpdate(d, tx, now).cmds, now);
  }

  lemma StampsLater(d: Disk, now: Stamp)
    requires SnapshotConservation.NewStamp(d, now)
    ensures SnapshotConservation.NewStamp(d, now + 1)
  {
  }

  lemma RollBackStamps(d: Disk, tx: UpdateTx, now: Stamp)
    ensures StampsUpTo(RollBack(d, tx, now).cmds, now)
  {
    if tx.txId in d.schemaSnaps && LatestSnapshot(Apply(d, RestoreSchema(d, tx)), tx.name).Some? {
      RollbackStamps(Apply(d, RestoreSchema(d, tx)), tx.name, now);
    }
    hide RollbackProgram, LatestSnapshot;
  }

  lemma RollbackStamps(d: Disk, name: string, now: Stamp)
    requires LatestSnapshot(d, name).Some?
    ensures StampsUpTo(RollbackProgram(d, name, now), now)
  {
  }
}
