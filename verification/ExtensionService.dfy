/** The ExtensionManager object over its registry: it performs the programs of module ExtensionProtocol
    step by step. */
module ExtensionService {
  import opened Knowledge
  import opened ExtensionProtocol
  import opened ExtensionAtomicity
  import opened ExtensionFailure

  /** Down is a power loss: no handler runs. Raised is a Python exception. */
  datatype Outcome = Done | Raised | Down {
    predicate IsFailure() { !Done? }
    function PropagateFailure(): Outcome requires IsFailure() { this }
  }

  datatype Job = Job(start: Store, prog: seq<Step>, base: nat)

  /** The files below the registry root, with an adversary that picks the step before which power is
      lost and the one step that fails with an I/O error. */
  class RegistryDevice {
    var store: Store
    var steps: nat
    var powerLossAt: nat
    var faultAt: Option<nat>

    constructor (s: Store, powerLossAt: nat, faultAt: Option<nat>)
      ensures store == s && steps == 0 && this.powerLossAt == powerLossAt && this.faultAt == faultAt
    {
      store, steps := s, 0;
      this.powerLossAt, this.faultAt := powerLossAt, faultAt;
    }

    ghost predicate Follows(job: Job)
      reads this
    {
      && job.base <= steps <= job.base + |job.prog| && steps <= powerLossAt
      && store == RunFor(job.start, job.prog, steps - job.base)
    }

    method Do(c: Step, ghost job: Job) returns (o: Outcome)
      requires Follows(job) && steps < job.base + |job.prog| && job.prog[steps - job.base] == c
      modifies this
      ensures Follows(job) && powerLossAt == old(powerLossAt)
      ensures o.Done? ==> steps == old(steps) + 1 && store == Apply(old(store), c) && faultAt == old(faultAt)
      ensures o.Down? ==> steps == old(steps) && store == old(store) && steps == powerLossAt && faultAt == old(faultAt)
      ensures o.Raised? ==> steps == old(steps) && store == old(store) && old(faultAt) == Some(steps) && faultAt == None
    {
      if steps == powerLossAt { return Down; }
      if faultAt == Some(steps) {
        faultAt := None;
        return Raised;
      }
      RunSnoc(job.start, job.prog, steps - job.base);
      store := Apply(store, c);
      steps := steps + 1;
      return Done;
    }
  }

  class ExtensionManager {
    const device: RegistryDevice
    var records: Registry

    /** Load the records; the startup repair and recovery follow. */
    constructor (device: RegistryDevice)
      ensures this.device == device && records == device.store.registry
    {
      this.device := device;
      records := device.store.registry;
    }

    // ---- directories ----

    /** rmtree of a payload directory, if there is one. */
    method RemoveTree(at: (string, Ver), ghost job: Job) returns (o: Outcome)
      requires device.Follows(job) && Has(job, device.steps, RemovePayload(device.store, at))
      modifies device
      ensures device.Follows(job) && device.powerLossAt == old(device.powerLossAt)
      ensures device.steps >= old(device.steps)
      ensures device.store.registry == old(device.store.registry) && device.store.backups == old(device.store.backups)
      ensures o.Done? ==> device.steps == old(device.steps) + |RemovePayload(old(device.store), at)|
      ensures o.Done? ==> device.store == old(device.store).(payloads := old(device.store).payloads - {at}) && device.faultAt == old(device.faultAt)
      ensures (o.Down? ==> device.steps == device.powerLossAt) && (o.Raised? ==> old(device.faultAt).Some? && device.faultAt == None)
      ensures old(device.faultAt) == None ==> device.faultAt == None && o != Raised
      ensures !o.Done? ==> device.steps < old(device.steps) + |RemovePayload(old(device.store), at)|
    {
      hide RunFor, Has;
      ghost var s := device.store;
      if at in device.store.payloads {
        HasTwo(job, device.steps, WritePayload(at, Torn), DropPayload(at));
        assert s.payloads[at := Torn] - {at} == s.payloads - {at};
        :- device.Do(WritePayload(at, Torn), job);
        :- device.Do(DropPayload(at), job);
      } else {
        assert s.payloads - {at} == s.payloads;
      }
      return Done;
    }

    /** copytree into a payload directory. */
    method CopyTree(at: (string, Ver), p: Payload, ghost job: Job) returns (o: Outcome)
      requires device.Follows(job) && Has(job, device.steps, CopyBack(at, p))
      modifies device
      ensures device.Follows(job) && device.powerLossAt == old(device.powerLossAt)
      ensures device.steps >= old(device.steps)
      ensures device.store.registry == old(device.store.registry) && device.store.backups == old(device.store.backups)
      ensures o.Done? <==> device.steps == old(device.steps) + 2
      ensures o.Done? ==> device.store == old(device.store).(payloads := old(device.store).payloads[at := p]) && device.faultAt == old(device.faultAt)
      ensures (o.Down? ==> device.steps == device.powerLossAt) && (o.Raised? ==> old(device.faultAt).Some? && device.faultAt == None)
      ensures old(device.faultAt) == None ==> device.faultAt == None && o != Raised
      ensures device.steps <= old(device.steps) + 2
    {
      hide RunFor, Has;
      HasTwo(job, device.steps, WritePayload(at, Torn), WritePayload(at, p));
      :- device.Do(WritePayload(at, Torn), job);
      :- device.Do(WritePayload(at, p), job);
      return Done;
    }

    /** rmtree of the transaction's backup, if it has one. */
    method CleanUp(tx: Tx, ghost job: Job) returns (o: Outcome)
      requires device.Follows(job) && Has(job, device.steps, CleanBackup(device.store, tx))
      modifies device
      ensures device.Follows(job) && device.powerLossAt == old(device.powerLossAt)
      ensures device.steps >= old(device.steps)
      ensures o.Done? ==> device.steps == old(device.steps) + |CleanBackup(old(device.store), tx)| && device.faultAt == old(device.faultAt)
      ensures (o.Down? ==> device.steps == device.powerLossAt) && (o.Raised? ==> old(device.faultAt).Some? && device.faultAt == None)
      ensures old(device.faultAt) == None ==> device.faultAt == None && o != Raised
      ensures !o.Done? ==> device.steps < old(device.steps) + |CleanBackup(old(device.store), tx)|
    {
      hide RunFor, Has;
      if tx.backup && tx.id in device.store.backups {
        HasTwo(job, device.steps, WriteBackup(tx.id, Torn), DropBackup(tx.id));
        :- device.Do(WriteBackup(tx.id, Torn), job);
        :- device.Do(DropBackup(tx.id), job);
      }
      return Done;
    }

    // ---- rollback ----

    method UndoTree(tx: Tx, ghost job: Job) returns (o: Outcome)
      requires device.Follows(job) && device.faultAt == None && Has(job, device.steps, UndoPayload(device.store, tx))
      modifies device
      ensures device.Follows(job) && device.powerLossAt == old(device.powerLossAt) && device.faultAt == None
      ensures o != Raised && (o.Down? ==> device.steps == device.powerLossAt)
      ensures device.store.registry == old(device.store.registry) && device.store.backups == old(device.store.backups)
      ensures if o.Done? then device.steps == old(device.steps) + |UndoPayload(old(device.store), tx)|
              else device.steps < old(device.steps) + |UndoPayload(old(device.store), tx)|
    {
      var at := (tx.ext, tx.ver);
      if tx.backup && tx.id in device.store.backups {
        var backup := device.store.backups[tx.id];
        HasParts(job, device.steps, RemovePayload(device.store, at), CopyBack(at, backup));
        hide RunFor, Has, RemovePayload;
        :- RemoveTree(at, job);
        o := CopyTree(at, backup, job);
      } else if tx.previous.Some? && tx.ver in tx.previous.value.versions {
        return Done;
      } else {
        hide RunFor, Has, RemovePayload;
        o := RemoveTree(at, job);
      }
    }

    /** Bring payload and record back, and close the journal as rolled back. The lock reloads the records. */
    method Rollback(tx: Tx, ghost job: Job) returns (o: Outcome)
      requires device.Follows(job) && device.faultAt == None && Has(job, device.steps, RollbackSteps(device.store, tx))
      modifies this, device
      ensures device.Follows(job) && device.powerLossAt == old(device.powerLossAt) && device.faultAt == None
      ensures o != Raised && (o.Down? ==> device.steps == device.powerLossAt)
      ensures if o.Done? then device.steps == old(device.steps) + |RollbackSteps(old(device.store), tx)|
              else device.steps < old(device.steps) + |RollbackSteps(old(device.store), tx)|
      ensures o.Done? ==> records == device.store.registry && device.store.backups == old(device.store.backups)
    {
      hide RunFor, UndoPayload, Has, With;
      records := device.store.registry;
      HasParts(job, device.steps, UndoPayload(device.store, tx), [Save(With(records, tx.ext, tx.previous)), PutTx(tx.(state := RolledBack))]);
      :- UndoTree(tx, job);
      HasTwo(job, device.steps, Save(With(records, tx.ext, tx.previous)), PutTx(tx.(state := RolledBack)));
      records := With(records, tx.ext, tx.previous);
      :- device.Do(Save(records), job);
      :- device.Do(PutTx(tx.(state := RolledBack)), job);
      return Done;
    }

    /** The except block of an install. */
    method FailAndRollback(tx: Tx, ghost job: Job) returns (o: Outcome)
      requires device.faultAt == None && device.steps <= device.powerLossAt
      requires job == Job(device.store, FailureSteps(device.store, tx), device.steps)
      modifies this, device
      ensures device.Follows(job) && device.powerLossAt == old(device.powerLossAt) && device.faultAt == None
      ensures o != Raised && (o.Down? ==> device.steps == device.powerLossAt)
      ensures o.Done? ==> device.steps == job.base + |job.prog|
    {
      ghost var s := device.store;
      assert device.Follows(job);
      var marked := tx.(state := RollbackRequired);
      FailureParts(job, s, tx);
      hide RunFor, Has, RollbackSteps, CleanBackup, FailureSteps;
      :- device.Do(PutTx(marked), job);
      MarkedParts(s, device.store, tx);
      :- Rollback(marked, job);
      CleanSame(s, device.store, tx, marked);
      o := CleanUp(marked, job);
    }

    // ---- install and upgrade ----

    /** Copy the payload that is about to be replaced, and journal the copy. */
    method BackUp(q: Request, tx: Tx, ghost job: Job) returns (o: Outcome, held: Tx)
      requires device.Follows(job) && device.steps == job.base + 3 && |job.prog| >= 6
      requires q.At() in device.store.payloads ==>
                 && job.prog[3] == WriteBackup(q.id, Torn) && job.prog[4] == WriteBackup(q.id, device.store.payloads[q.At()])
                 && job.prog[5] == PutTx(tx.(backup := true)) && tx.id == q.id
      modifies device
      ensures device.Follows(job) && device.powerLossAt == old(device.powerLossAt)
      ensures (o.Down? ==> device.steps == device.powerLossAt) && (o.Raised? ==> old(device.faultAt).Some? && device.faultAt == None)
      ensures o.Done? ==> device.faultAt == old(device.faultAt)
      ensures o.Done? ==> device.steps == job.base + 3 + if q.At() in old(device.store.payloads) then 3 else 0
      ensures device.steps <= job.base + 6 && (!o.Done? ==> device.steps < job.base + 6)
      ensures held == if q.At() in old(device.store.payloads) && device.steps - job.base >= 5 then tx.(backup := true) else tx
      ensures device.steps >= old(device.steps)
    {
      hide RunFor;
      held := tx;
      o := Done;
      if q.At() in device.store.payloads {
        var current := device.store.payloads[q.At()];
        :- device.Do(WriteBackup(q.id, Torn), job);
        :- device.Do(WriteBackup(q.id, current), job);
        held := held.(backup := true);
        :- device.Do(PutTx(held), job);
      }
    }

    /** Put the payload in its place, then record the version. */
    method AddVersion(q: Request, ghost job: Job) returns (o: Outcome)
      requires device.Follows(job) && records == device.store.registry
      requires Has(job, device.steps, RemovePayload(device.store, q.At()) + CopyBack(q.At(), Whole(q.content)))
      requires var n := device.steps - job.base + |RemovePayload(device.store, q.At())| + 2;
               n < |job.prog| && job.prog[n] == Save(records[q.ext := Added(records, q)])
      modifies this, device
      ensures device.Follows(job) && device.powerLossAt == old(device.powerLossAt)
      ensures (o.Down? ==> device.steps == device.powerLossAt) && (o.Raised? ==> old(device.faultAt).Some? && device.faultAt == None)
      ensures o.Done? ==> device.faultAt == old(device.faultAt)
      ensures o.Done? ==> device.steps == old(device.steps) + |RemovePayload(old(device.store), q.At())| + 3
      ensures o.Done? ==> records == old(records)[q.ext := Added(old(records), q)] && device.store.registry == records
      ensures o.Done? ==>
                var prior := if q.ext in old(records) then Some(old(records)[q.ext]) else None;
                Recorded(records[q.ext], prior, q) && records[q.ext].active == if prior.Some? then prior.value.active else q.ver
      ensures !o.Done? ==> device.steps < old(device.steps) + |RemovePayload(old(device.store), q.At())| + 3
      ensures device.steps >= old(device.steps)
    {
      HasParts(job, device.steps, RemovePayload(device.store, q.At()), CopyBack(q.At(), Whole(q.content)));
      hide RunFor, Has, RemovePayload, Added;
      :- RemoveTree(q.At(), job);
      :- CopyTree(q.At(), Whole(q.content), job);
      records := records[q.ext := Added(records, q)];
      :- device.Do(Save(records), job);
      AddedIs(old(records), q);
      return Done;
    }

    /** Switch the active version, journal it, run the callback, and journal its success. */
    method Activate(q: Request, tx: Tx, activates: bool, ghost n: nat, ghost job: Job) returns (o: Outcome)
      requires device.Follows(job) && device.steps == job.base + n && n + 4 <= |job.prog| && q.ext in records
      requires !activates ==> device.faultAt == None
      requires job.prog[n] == Save(records[q.ext := records[q.ext].(active := q.ver)])
      requires job.prog[n + 1] == PutTx(tx.(state := ActiveSwitched)) && job.prog[n + 2] == PutTx(tx.(state := Activated))
      requires job.prog[n + 3] == PutTx(tx.(state := Committed))
      modifies this, device
      ensures device.Follows(job) && device.powerLossAt == old(device.powerLossAt)
      ensures (o.Down? ==> device.steps == device.powerLossAt) && (o.Raised? ==> device.faultAt == None)
      ensures o.Done? ==> device.faultAt == old(device.faultAt) && activates
      ensures o.Done? <==> device.steps == job.base + n + 4
      ensures old(device.steps) <= device.steps <= job.base + n + 4 && (o.Raised? && !activates ==> device.steps == job.base + n + 2)
    {
      hide RunFor;
      records := records[q.ext := records[q.ext].(active := q.ver)];
      :- device.Do(Save(records), job);
      :- device.Do(PutTx(tx.(state := ActiveSwitched)), job);
      if !activates { return Raised; }
      :- device.Do(PutTx(tx.(state := Activated)), job);
      :- device.Do(PutTx(tx.(state := Committed)), job);
      return Done;
    }

    method Finish(tx: Tx, ghost job: Job) returns (o: Outcome)
      requires device.Follows(job) && Has(job, device.steps, CleanBackup(device.store, tx) + [DropTx(tx.id)])
      requires device.steps + |CleanBackup(device.store, tx)| + 1 == job.base + |job.prog|
      modifies device
      ensures device.Follows(job) && device.powerLossAt == old(device.powerLossAt)
      ensures (o.Down? ==> device.steps == device.powerLossAt) && (o.Raised? ==> old(device.faultAt).Some? && device.faultAt == None)
      ensures o.Done? <==> device.steps == job.base + |job.prog|
      ensures device.steps >= old(device.steps) && (old(device.faultAt) == None ==> device.faultAt == None && o != Raised)
    {
      hide RunFor, Has, CleanBackup;
      HasLast(job, device.steps, CleanBackup(device.store, tx), DropTx(tx.id));
      :- CleanUp(tx, job);
      :- device.Do(DropTx(tx.id), job);
      return Done;
    }

    /** The part of the try block under the registry lock, and the closing of the journal. */
    method Register(q: Request, tx: Tx, activates: bool, ghost job: Job) returns (o: Outcome)
      requires Ready(job.start, q) && job.prog == InstallProgram(job.start, q)
      requires device.Follows(job) && device.steps == job.base + Start(job.start, q) && records == job.start.registry
      requires tx == Opened(job.start, q) && (!activates ==> device.faultAt == None)
      modifies this, device
      ensures device.Follows(job) && device.powerLossAt == old(device.powerLossAt)
      ensures (o.Down? ==> device.steps == device.powerLossAt) && (o.Raised? ==> device.faultAt == None)
      ensures o.Done? <==> device.steps == job.base + |job.prog|
      ensures device.steps >= old(device.steps) && (o.Done? ==> activates)
      ensures o.Raised? && !activates ==> device.steps <= job.base + Success(job.start, q)
    {
      hide RunFor, Ready, InstallProgram, Success, Start, RemovalSteps, Replaces, Has, At, Added, CleanBackup, RemovePayload, CopyBack, Opened, InstallStep;
      ghost var s := job.start;
      InstallLength(s, q);
      RegistrationAt(s, q, job, device.store);
      :- device.Do(PutTx(tx.(state := ActivationStarted)), job);
      :- AddVersion(q, job);
      :- Activate(q, tx, activates, Copy(s, q) + 3, job);
      FinishAt(s, q, job, device.store);
      o := Finish(tx, job);
    }

    /** The try block. The second result is the journal as the except block will see it. */
    method Attempt(q: Request, tx: Tx, activates: bool, ghost job: Job) returns (o: Outcome, held: Tx)
      requires Ready(job.start, q) && job.prog == InstallProgram(job.start, q)
      requires device.Follows(job) && device.steps == job.base + 1 && records == job.start.registry
      requires tx == q.Begun(job.start) && (!activates ==> device.faultAt == None)
      modifies this, device
      ensures device.Follows(job) && device.powerLossAt == old(device.powerLossAt)
      ensures (o.Down? ==> device.steps == device.powerLossAt) && (o.Raised? ==> device.faultAt == None)
      ensures o.Done? <==> device.steps == job.base + |job.prog|
      ensures o.Raised? ==> held == Held(job.start, q, device.steps - job.base)
      ensures device.steps >= job.base + 1 && (o.Done? ==> activates)
      ensures o.Raised? && !activates ==> device.steps <= job.base + Success(job.start, q)
    {
      hide RunFor, Ready, InstallProgram, Success, Start, RemovalSteps, Replaces, Has, At, InstallStep, Held;
      ghost var s := job.start;
      InstallLength(s, q);
      StagingAt(s, q, job, device.store);
      held := tx;
      o := device.Do(PutTx(tx.(state := Staged)), job);
      if !o.Done? { HeldIs(s, q, device.steps - job.base); return; }
      o := device.Do(PutTx(tx.(state := Validated)), job);
      if !o.Done? { HeldIs(s, q, device.steps - job.base); return; }
      BackupAt3(s, q, job, device.store);
      o, held := BackUp(q, tx.(state := Validated), job);
      held := held.(state := Prepared);
      HeldIs(s, q, device.steps - job.base);
      if !o.Done? { return; }
      o := Register(q, held, activates, job);
      HeldIs(s, q, device.steps - job.base);
    }

    /** Install or upgrade. The ghost results tell whether the except block ran, and after which step. */
    method InstallTransaction(q: Request, activates: bool) returns (o: Outcome, ghost handled: bool, ghost at: nat)
      requires Ready(device.store, q) && records == device.store.registry && device.steps <= device.powerLossAt
      requires !activates ==> device.faultAt == None
      modifies this, device
      ensures device.powerLossAt == old(device.powerLossAt) && (o.Down? ==> device.steps == device.powerLossAt)
      ensures !handled ==> device.Follows(Job(old(device.store), InstallProgram(old(device.store), q), old(device.steps)))
      ensures o.Done? ==> activates && device.store == Run(old(device.store), InstallProgram(old(device.store), q))
      ensures o.Done? ==> AllAfter(old(device.store), q, device.store)
      ensures handled ==> 1 <= at < |InstallProgram(old(device.store), q)|
      ensures o.Raised? && handled ==>
                device.store == Handled(old(device.store), q, RunFor(old(device.store), InstallProgram(old(device.store), q), at), at)
      ensures o.Raised? && handled ==>
                AllBefore(Target(old(device.store), q, at), q, device.store, Orphan(old(device.store), q) && at <= 4)
      ensures o.Down? && handled ==>
                Stopped(old(device.store), q, at, device.steps - old(device.steps) - at, device.store)
      ensures !activates ==> o != Done && (handled ==> at <= Success(old(device.store), q))
    {
      ghost var s := device.store;
      ghost var job := Job(s, InstallProgram(s, q), device.steps);
      assert device.Follows(job);
      hide RunFor, Ready, InstallProgram, Success, Start, RemovalSteps, Has, At, InstallStep, Held, AllBefore, AllAfter, Orphan, FailureSteps, Target, Stopped, Handled;
      Opening(s, q);
      InstalledWhole(s, q);
      handled, at := false, 0;
      var tx := Tx(q.id, q.ext, q.ver, RecordOf(records, q.ext), Prepared, false);
      o := device.Do(PutTx(tx), job);
      if !o.Done? { return; }
      var held;
      o, held := Attempt(q, tx, activates, job);
      if o.Raised? {
        handled, at := true, device.steps - job.base;
        o := Compensate(q, held, s, at);
      }
    }

    /** The except block, after step i raised. */
    method Compensate(q: Request, held: Tx, ghost s: Store, ghost i: nat) returns (o: Outcome)
      requires device.faultAt == None && device.steps <= device.powerLossAt
      requires Ready(s, q) && 1 <= i < |InstallProgram(s, q)|
      requires device.store == RunFor(s, InstallProgram(s, q), i) && held == Held(s, q, i)
      modifies this, device
      ensures device.powerLossAt == old(device.powerLossAt) && !o.Done? && (o.Down? ==> device.steps == device.powerLossAt)
      ensures o.Raised? ==> device.store == Handled(s, q, old(device.store), i)
      ensures o.Raised? ==> AllBefore(Target(s, q, i), q, device.store, Orphan(s, q) && i <= 4)
      ensures o.Down? ==> Stopped(s, q, i, device.steps - old(device.steps), device.store)
    {
      hide RunFor, Ready, InstallProgram, Held, AllBefore, Orphan, FailureSteps, Target, Stopped, Handled;
      ghost var d := device.store;
      var undone := FailAndRollback(held, Job(d, FailureSteps(d, held), device.steps));
      Interruption(s, q, i, d, device.steps - old(device.steps), device.store);
      UndoneBy(s, q, i);
      return if undone.Down? then Down else Raised;
    }

    // ---- startup ----

    /** Drop the versions without payload from the records, and the records without versions. */
    method RepairRecords(ghost job: Job) returns (o: Outcome)
      requires records == device.store.registry && device.faultAt == None && device.steps <= device.powerLossAt
      requires job == Job(device.store, RepairSteps(device.store), device.steps)
      modifies this, device
      ensures device.Follows(job) && device.powerLossAt == old(device.powerLossAt) && device.faultAt == None
      ensures o != Raised && (o.Down? ==> device.steps == device.powerLossAt)
      ensures if o.Done? then device.steps == job.base + |job.prog| else device.steps < job.base + |job.prog|
      ensures if o.Done? then records == device.store.registry else device.store == old(device.store)
      ensures o.Done? ==> IsRepaired(old(device.store), records)
    {
      hide IsRepaired, Available, RepairedRecord;
      ghost var s := device.store;
      var changed := false;
      var rest := records.Keys;
      while rest != {}
        invariant rest <= s.registry.Keys && device.store == s && records.Keys <= s.registry.Keys
        invariant forall ext | ext in rest :: ext in records && records[ext] == s.registry[ext]
        invariant forall ext | ext in s.registry && ext !in rest ::
                    if Available(s, ext, s.registry[ext]) == {} then ext !in records
                    else ext in records && records[ext] == RepairedRecord(s, ext, s.registry[ext])
        invariant changed <==> records != s.registry
        invariant device.steps == job.base && device.powerLossAt == old(device.powerLossAt) && device.faultAt == None && device.steps <= device.powerLossAt
        decreases rest
      {
        var ext :| ext in rest;
        rest := rest - {ext};
        var repaired := RepairRecord(ext, records[ext]);
        if repaired.None? {
          records, changed := records - {ext}, true;
        } else if repaired != Some(records[ext]) {
          records, changed := records[ext := repaired.value], true;
        }
      }
      assert records == Repaired(s);
      RepairedIs(s);
      assert device.Follows(job);
      if changed {
        :- device.Do(Save(records), job);
      }
      return Done;
    }

    /** The record without its missing versions, if any version is left. */
    method RepairRecord(ext: string, record: Record) returns (repaired: Option<Record>)
      ensures repaired == if Available(device.store, ext, record) == {} then None else Some(RepairedRecord(device.store, ext, record))
    {
      var available := set v | v in record.versions && (ext, v) in device.store.payloads;
      assert available == Available(device.store, ext, record);
      if available == {} { return None; }
      var active := record.active;
      if active !in available { active := Newest(available); }
      return Some(record.(versions := available, active := active));
    }

    method Newest(available: set<Ver>) returns (m: Ver)
      requires available != {}
      ensures m == MaxOf(available)
    {
      m :| m in available;
      var rest := available - {m};
      while rest != {}
        invariant rest <= available && m in available && m !in rest
        invariant forall v | v in available && v !in rest :: v <= m
        decreases rest
      {
        var v :| v in rest;
        if v > m { m := v; }
        rest := rest - {v};
      }
    }

    /** One journal. */
    method RecoverJournal(tx: Tx, ghost job: Job) returns (o: Outcome)
      requires device.faultAt == None && device.steps <= device.powerLossAt && job == Job(device.store, RecoverTx(device.store, tx), device.steps)
      modifies this, device
      ensures device.Follows(job) && device.powerLossAt == old(device.powerLossAt) && device.faultAt == None
      ensures o != Raised && (o.Down? ==> device.steps == device.powerLossAt)
      ensures if o.Done? then device.steps == job.base + |job.prog| else device.steps < job.base + |job.prog|
    {
      assert device.Follows(job);
      assert job.prog[0..|job.prog|] == job.prog;
      assert Has(job, device.steps, job.prog);
      hide RunFor, Has, CleanBackup, RollbackSteps;
      match tx.state {
        case Committed | Activated => o := Finish(tx, job);
        case RolledBack => o := CleanUp(tx, job);
        case _ => o := Rollback(tx, job);
      }
    }

    /** Startup: repair the records, then recover the journals in the given order. */
    method Startup(txs: seq<Tx>) returns (o: Outcome)
      requires records == device.store.registry && device.faultAt == None && device.steps <= device.powerLossAt
      modifies this, device
      ensures device.powerLossAt == old(device.powerLossAt) && device.faultAt == None
      ensures (device.store, o.Done?) == ExtensionProtocol.Startup(old(device.store), txs, old(device.powerLossAt - device.steps))
    {
      hide RunFor, RepairSteps, RecoverTx;
      ghost var s, power := device.store, device.powerLossAt - device.steps;
      o := RepairRecords(Job(s, RepairSteps(s), device.steps));
      if o.Down? { return; }
      for i := 0 to |txs|
        invariant device.faultAt == None && device.powerLossAt == old(device.powerLossAt) && device.steps <= device.powerLossAt
        invariant RecoverTxs(device.store, txs[i..], device.powerLossAt - device.steps) == ExtensionProtocol.Startup(s, txs, power)
      {
        assert txs[i..][0] == txs[i] && txs[i..][1..] == txs[i + 1..];
        o := RecoverJournal(txs[i], Job(device.store, RecoverTx(device.store, txs[i]), device.steps));
        if o.Down? { return; }
      }
      return Done;
    }
  }

  ghost predicate Has(job: Job, steps: nat, part: seq<Step>) {
    && job.base <= steps && steps - job.base + |part| <= |job.prog|
    && job.prog[steps - job.base..steps - job.base + |part|] == part
  }

  lemma AddedIs(r: Registry, q: Request)
    ensures var prior := if q.ext in r then Some(r[q.ext]) else None;
            Recorded(Added(r, q), prior, q) && Added(r, q).active == if prior.Some? then prior.value.active else q.ver
  {
  }

  lemma HasAt(job: Job, steps: nat, part: seq<Step>)
    requires Has(job, steps, part)
    ensures job.base <= steps && steps - job.base + |part| <= |job.prog|
    ensures forall i | 0 <= i < |part| :: job.prog[steps - job.base + i] == part[i]
  {
    forall i | 0 <= i < |part| ensures job.prog[steps - job.base + i] == part[i] {
      assert job.prog[steps - job.base..steps - job.base + |part|][i] == part[i];
    }
  }

  lemma HasTwo(job: Job, steps: nat, a: Step, b: Step)
    requires Has(job, steps, [a, b])
    ensures var n := steps - job.base; 0 <= n && n + 2 <= |job.prog| && job.prog[n] == a && job.prog[n + 1] == b
  {
    HasAt(job, steps, [a, b]);
  }

  lemma HasParts(job: Job, steps: nat, a: seq<Step>, b: seq<Step>)
    requires Has(job, steps, a + b)
    ensures Has(job, steps, a) && Has(job, steps + |a|, b)
  {
    var n := steps - job.base;
    assert job.prog[n..n + |a|] == job.prog[n..n + |a + b|][..|a|];
    assert job.prog[n + |a|..n + |a| + |b|] == job.prog[n..n + |a + b|][|a|..];
    assert (a + b)[..|a|] == a && (a + b)[|a|..] == b;
  }

  lemma HasLast(job: Job, steps: nat, a: seq<Step>, last: Step)
    requires Has(job, steps, a + [last])
    ensures Has(job, steps, a) && steps >= job.base
    ensures var n := steps + |a| - job.base; n < |job.prog| && job.prog[n] == last
  {
    HasParts(job, steps, a, [last]);
    HasAt(job, steps + |a|, [last]);
    assert [last][0] == last;
  }

  lemma FailureParts(job: Job, s: Store, tx: Tx)
    requires job.prog == FailureSteps(s, tx)
    ensures var marked := tx.(state := RollbackRequired);
            && |job.prog| == 1 + |RollbackSteps(s, marked)| + |CleanBackup(s, tx)|
            && job.prog[0] == PutTx(marked)
            && Has(job, job.base + 1, RollbackSteps(s, marked))
            && Has(job, job.base + 1 + |RollbackSteps(s, marked)|, CleanBackup(s, tx))
  {
    var marked := tx.(state := RollbackRequired);
    assert job.prog == [PutTx(marked)] + (RollbackSteps(s, marked) + CleanBackup(s, tx));
    assert job.prog[0..|job.prog|] == job.prog;
    HasParts(job, job.base, [PutTx(marked)], RollbackSteps(s, marked) + CleanBackup(s, tx));
    HasParts(job, job.base + 1, RollbackSteps(s, marked), CleanBackup(s, tx));
  }

  lemma MarkedParts(s: Store, e: Store, tx: Tx)
    requires e == Apply(s, PutTx(tx.(state := RollbackRequired)))
    ensures RollbackSteps(e, tx.(state := RollbackRequired)) == RollbackSteps(s, tx.(state := RollbackRequired))
    ensures e.backups == s.backups
  {
  }

  lemma CleanSame(s: Store, e: Store, tx: Tx, marked: Tx)
    requires e.backups == s.backups && marked == tx.(state := marked.state)
    ensures CleanBackup(e, marked) == CleanBackup(s, tx)
  {
  }

  lemma InstallLength(s: Store, q: Request)
    ensures |InstallProgram(s, q)| == Success(s, q) + RemovalSteps(s, q) + 3 && Start(s, q) >= 3 && |InstallProgram(s, q)| >= 12
    ensures Start(s, q) + 6 <= Success(s, q)
  {
  }

  lemma StagingAt(s: Store, q: Request, job: Job, d: Store)
    requires job.prog == InstallProgram(s, q)
    ensures |job.prog| >= 9 && job.prog[1] == PutTx(q.Begun(s).(state := Staged)) && job.prog[2] == PutTx(q.Begun(s).(state := Validated))
  {
  }

  /** What the except block leaves, complete or not. */
  lemma Interruption(s: Store, q: Request, i: nat, d: Store, k: nat, e: Store)
    requires d == RunFor(s, InstallProgram(s, q), i) && e == RunFor(d, FailureSteps(d, Held(s, q, i)), k)
    ensures Stopped(s, q, i, k, e)
    ensures k == |FailureSteps(d, Held(s, q, i))| ==> e == Handled(s, q, d, i)
  {
    hide FailureSteps, Held, RunFor;
  }

  lemma UndoneBy(s: Store, q: Request, i: nat)
    requires Ready(s, q) && 1 <= i < |InstallProgram(s, q)|
    ensures AllBefore(Target(s, q, i), q, Handled(s, q, RunFor(s, InstallProgram(s, q), i), i), Orphan(s, q) && i <= 4)
  {
    hide Ready, At, AllBefore, RunFor, Final, Target;
    PrefixAt(s, q, i);
    FailedInstallRestores(s, q, RunFor(s, InstallProgram(s, q), i), i);
  }

  lemma Opening(s: Store, q: Request)
    ensures |InstallProgram(s, q)| >= 9 && InstallProgram(s, q)[0] == PutTx(q.Begun(s))
  {
  }

  lemma BackupAt3(s: Store, q: Request, job: Job, d: Store)
    requires Ready(s, q) && job.prog == InstallProgram(s, q) && d == RunFor(s, job.prog, 3)
    ensures q.At() in d.payloads <==> Replaces(s, q)
    ensures Start(s, q) == 3 + if Replaces(s, q) then 3 else 0
    ensures q.At() in d.payloads ==>
              && job.prog[3] == WriteBackup(q.id, Torn) && job.prog[4] == WriteBackup(q.id, d.payloads[q.At()])
              && job.prog[5] == PutTx(q.Begun(s).(state := Validated, backup := true))
  {
    PrefixAt(s, q, 3);
    hide Ready, RunFor;
  }

  /** What the except block would be given after i steps. */
  lemma HeldIs(s: Store, q: Request, i: nat)
    ensures Held(s, q, i) == if Replaces(s, q) && i >= 5 then q.Begun(s).(backup := true) else q.Begun(s)
    ensures i >= Start(s, q) ==> Held(s, q, i) == Opened(s, q)
  {
  }

  /** The steps under the lock, seen from the disk on which they begin. */
  lemma AtStart(s: Store, q: Request, d: Store)
    requires At(s, q, d, Start(s, q))
    ensures d.registry == s.registry && (q.At() in d.payloads <==> Replaces(s, q))
    ensures Opened(s, q).id == q.id
    ensures InstallStep(s, q, Start(s, q)) == PutTx(Opened(s, q).(state := ActivationStarted))
  {
    hide Added, Switched;
  }

  lemma RegistrationAt(s: Store, q: Request, job: Job, d: Store)
    requires Ready(s, q) && job.prog == InstallProgram(s, q) && d == RunFor(s, job.prog, Start(s, q))
    ensures var n, tx := Start(s, q), Opened(s, q);
            var e := Apply(d, PutTx(tx.(state := ActivationStarted)));
            && job.prog[n] == PutTx(tx.(state := ActivationStarted)) && tx.id == q.id
            && e.registry == s.registry
            && Has(job, job.base + n + 1, RemovePayload(e, q.At()) + CopyBack(q.At(), Whole(q.content)))
            && n + 1 + |RemovePayload(e, q.At())| + 2 == Copy(s, q) + 2
    ensures SwitchAt(s, q, job.prog, Copy(s, q) + 3, s.registry[q.ext := Added(s.registry, q)])
  {
    hide Ready, RunFor, Added, SwitchAt, At, Opened;
    var n := Start(s, q);
    PrefixAt(s, q, n);
    AtStart(s, q, d);
    SwitchSteps(s, q);
    var e := Apply(d, PutTx(Opened(s, q).(state := ActivationStarted)));
    var part := RemovePayload(e, q.At()) + CopyBack(q.At(), Whole(q.content));
    assert |part| == RemovalSteps(s, q) + 2;
    forall i | 0 <= i < |part| ensures job.prog[n + 1..n + 1 + |part|][i] == part[i] {
      assert job.prog[n + 1 + i] == InstallStep(s, q, n + 1 + i);
    }
    assert job.prog[n + 1..n + 1 + |part|] == part;
  }

  ghost predicate SwitchAt(s: Store, q: Request, prog: seq<Step>, n: nat, added: Registry) {
    var tx := Opened(s, q);
    && n >= 1 && n + 4 <= |prog| && n + 4 == Success(s, q) + 2 && q.ext in added
    && prog[n - 1] == Save(added)
    && prog[n] == Save(added[q.ext := added[q.ext].(active := q.ver)])
    && prog[n + 1] == PutTx(tx.(state := ActiveSwitched)) && prog[n + 2] == PutTx(tx.(state := Activated))
    && prog[n + 3] == PutTx(tx.(state := Committed))
  }

  lemma SwitchSteps(s: Store, q: Request)
    ensures SwitchAt(s, q, InstallProgram(s, q), Copy(s, q) + 3, s.registry[q.ext := Added(s.registry, q)])
  {
    hide Added;
    assert s.registry[q.ext := Added(s.registry, q)][q.ext := Switched(s.registry, q)] == s.registry[q.ext := Switched(s.registry, q)];
  }

  /** The closing steps, seen from the disk on which they begin. */
  lemma FinishAt(s: Store, q: Request, job: Job, d: Store)
    requires Ready(s, q) && job.prog == InstallProgram(s, q) && d == RunFor(s, job.prog, Success(s, q) + 2)
    ensures var tx := Opened(s, q);
            && Has(job, job.base + Success(s, q) + 2, CleanBackup(d, tx) + [DropTx(tx.id)])
            && Success(s, q) + 2 + |CleanBackup(d, tx)| + 1 == |job.prog|
  {
    var n, tx := Success(s, q) + 2, Opened(s, q);
    PrefixAt(s, q, n);
    assert q.id in d.backups <==> Replaces(s, q);
    hide Ready, RunFor, At;
    var part := CleanBackup(d, tx) + [DropTx(tx.id)];
    assert |part| == RemovalSteps(s, q) + 1;
    forall i | 0 <= i < |part| ensures job.prog[n..n + |part|][i] == part[i] {
      assert job.prog[n + i] == InstallStep(s, q, n + i);
    }
    assert job.prog[n..n + |part|] == part;
  }
}
