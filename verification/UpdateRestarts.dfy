/** Power losses while startup recovery rolls an update back, any number of them: the rollback is not
    idempotent, and these are exactly the steps at which that shows. */
module UpdateRestarts {
  import opened Knowledge
  import opened Storage
  import opened PublishProtocol
  import opened PublishAtomicity
  import opened UpdateProtocol
  import opened UpdateAtomicity
  import opened SnapshotConservation

  // ---- interrupted restarts ----

  /** A restart that loses power before a step of the rollback, and the clock that it read. */
  datatype Restart = Restart(at: nat, now: Stamp)

  ghost function Interrupt(d: Disk, id: Id, r: Restart): Disk {
    if id in d.updates then RunFor(d, RecoverUpdate(d, d.updates[id], r.now).cmds, r.at) else d
  }

  /** The disk after these restarts, one after the other. */
  ghost function Interrupted(d: Disk, id: Id, rs: seq<Restart>): Disk
    decreases |rs|
  {
    if rs == [] then d else Interrupted(Interrupt(d, id, rs[0]), id, rs[1..])
  }

  /** Each restart reads a later clock than the one before. */
  predicate Clocks(rs: seq<Restart>, now: Stamp) {
    rs == [] || (now <= rs[0].now && Clocks(rs[1..], rs[0].now + 1))
  }

  /** The first clock value that no restart has read. */
  function ClockAfter(rs: seq<Restart>, now: Stamp): Stamp { if rs == [] then now else ClockAfter(rs[1..], rs[0].now + 1) }

  /** How many of the restarts stop behind their first rename with the journal still there. */
  ghost function Halfway(d: Disk, id: Id, rs: seq<Restart>): nat
    decreases |rs|
  {
    if rs == [] then 0
    else
      var e := Interrupt(d, id, rs[0]);
      (if rs[0].at >= 2 && id in e.updates then 1 else 0) + Halfway(e, id, rs[1..])
  }

  // ---- through a snapshot ----

  /** The situation: the publication is journalled, the history is not committed, and the old tree
      waits in the snapshot. */
  ghost predicate Uncommitted(d0: Disk, c: Change, e: Disk, now: Stamp) {
    && Startable(d0, c) && Recovered(d0, c, e, Tail(d0, c) + 1) && !KeysStale(d0, c) && c.now < now
    && c.Target() in d0.trees
  }

  /** The new tree or the old one. */
  function Side(d0: Disk, c: Change, isNew: bool): Tree
    requires c.Target() in d0.trees
  {
    if isNew then c.Publication().Tree() else d0.trees[c.Target()]
  }

  ghost predicate NewestIs(trees: map<Path, Tree>, name: string, p: Path) {
    && p in trees && p.Snapshot? && p.name == name
    && forall q: Path | q in trees && q.Snapshot? && q.name == name :: q.at <= p.at
  }

  lemma NewestIsLatest(f: Disk, name: string, p: Path)
    ensures NewestIs(f.trees, name, p) <==> LatestSnapshot(f, name) == Some(p)
  {
  }

  /** One side in the slot, the other in the newest snapshot. */
  ghost predicate Taken(d0: Disk, c: Change, f: Disk, isNew: bool)
    requires c.Target() in d0.trees
  {
    && c.Target() in f.trees && f.trees[c.Target()] == Side(d0, c, isNew)
    && exists p :: NewestIs(f.trees, c.name, p) && f.trees[p] == Side(d0, c, !isNew)
  }

  /** The slot is free, one side is in the newest snapshot and the other in the next one. */
  ghost predicate Free(d0: Disk, c: Change, f: Disk, isNew: bool)
    requires c.Target() in d0.trees
  {
    && c.Target() !in f.trees
    && exists p, q :: NewestIs(f.trees, c.name, p) && f.trees[p] == Side(d0, c, isNew)
                      && NewestIs(f.trees - {p}, c.name, q) && f.trees[q] == Side(d0, c, !isNew)
  }

  /** The journal of the publication is there, and so is the snapshot of the history. */
  ghost predicate Journalled(d0: Disk, c: Change, f: Disk, now: Stamp) {
    && f.updates == map[c.txId := PublishedTx(d0, c)] && f.schema == d0.schema && NewStamp(f, now)
    && c.txId in f.schemaSnaps && f.schemaSnaps[c.txId] == HistoryOf(d0, c.coll)
  }

  /** If the next restart is not interrupted, this side will be in the slot. */
  ghost predicate Promises(d0: Disk, c: Change, f: Disk, now: Stamp, isNew: bool)
    requires c.Target() in d0.trees
  {
    if c.txId in f.updates then
      Journalled(d0, c, f, now) && (Taken(d0, c, f, !isNew) || Free(d0, c, f, isNew))
    else
      f.updates == map[] && f.schema == d0.schema && c.Target() in f.trees && f.trees[c.Target()] == Side(d0, c, isNew)
  }

  /** The steps of the rollback. Restoring the history changes nothing; a taken slot is moved aside first. */
  ghost predicate RollbackShape(c: Change, f: Disk, latest: Path, now: Stamp, prog: seq<Cmd>) {
    var h := if c.Target() in f.trees then 1 else 0;
    && |prog| == 7 + h && Apply(f, prog[0]) == f && (prog[0].PutSchema? || prog[0].DropSchema?)
    && (h == 1 ==> prog[1] == Rename(c.Target(), Snapshot(c.name, now)))
    && prog[1 + h] == Rename(latest, c.Target())
    && prog[2 + h].PutPointer? && prog[3 + h].Append? && prog[4 + h].PutIndex?
    && prog[5 + h] == DropUpd(c.txId) && prog[6 + h] == DropSchemaSnap(c.txId)
  }

  lemma RestoreKind(e: Disk, tx: UpdateTx)
    requires tx.txId in e.schemaSnaps
    ensures RestoreSchema(e, tx).PutSchema? || RestoreSchema(e, tx).DropSchema?
  {
  }

  /** Every restart that finds the journal starts over from wherever the slot is. */
  lemma StartsOver(d0: Disk, c: Change, f: Disk, now: Stamp, latest: Path)
    requires Startable(d0, c) && !KeysStale(d0, c) && c.Target() in d0.trees
    requires Journalled(d0, c, f, now) && NewestIs(f.trees, c.name, latest)
    ensures var rec := RecoverUpdate(f, PublishedTx(d0, c), now);
            rec.ok && RollbackShape(c, f, latest, now, rec.cmds)
  {
    hide RollbackShape, RecoverUpdate, RollbackProgram, Startable, PublishedTx, KeysStale;
    RollsBack(d0, c, f, now, latest);
    PublishedId(d0, c);
    ProgramShape(c, f, PublishedTx(d0, c), latest, now);
  }

  lemma RollsBack(d0: Disk, c: Change, f: Disk, now: Stamp, latest: Path)
    requires Startable(d0, c) && !KeysStale(d0, c) && c.Target() in d0.trees
    requires Journalled(d0, c, f, now) && NewestIs(f.trees, c.name, latest)
    ensures var tx := PublishedTx(d0, c);
            && tx.txId == c.txId && Apply(f, RestoreSchema(f, tx)) == f && LatestSnapshot(f, c.name) == Some(latest)
            && RecoverUpdate(f, tx, now) == Recovery([RestoreSchema(f, tx)] + RollbackProgram(f, c.name, now) + Remove(tx), true)
  {
    var tx := PublishedTx(d0, c);
    SchemaRestored(d0, c, f, tx);
    assert Apply(f, RestoreSchema(f, tx)) == f;
    NewestIsLatest(f, c.name, latest);
    assert tx.pending == Keys(c.pending) && |Keys(c.pending)| == |c.pending|;
    hide NewHistory, LatestSnapshot, Quiet, NewestIs, RollbackProgram, RestoreSchema;
  }

  lemma ProgramShape(c: Change, f: Disk, tx: UpdateTx, latest: Path, now: Stamp)
    requires tx.txId == c.txId && tx.txId in f.schemaSnaps && Apply(f, RestoreSchema(f, tx)) == f && LatestSnapshot(f, c.name) == Some(latest)
    ensures RollbackShape(c, f, latest, now, [RestoreSchema(f, tx)] + RollbackProgram(f, c.name, now) + Remove(tx))
  {
    hide LatestSnapshot, Apply, Replay, IndexOf, RestoredPointer, RollbackEntry;
    RestoreKind(f, tx);
  }

  /** The trees after j of the steps. */
  ghost function TreesAfter(c: Change, f: Disk, latest: Path, now: Stamp, j: nat): map<Path, Tree>
    requires latest in f.trees
  {
    var h := if c.Target() in f.trees then 1 else 0;
    var aside := if h == 1 then (f.trees - {c.Target()})[Snapshot(c.name, now) := f.trees[c.Target()]] else f.trees;
    if j <= 1 then f.trees else if j <= 1 + h then aside else (aside - {latest})[c.Target() := f.trees[latest]]
  }

  /** The journal and the history after j of the steps. */
  ghost predicate BooksAfter(c: Change, f: Disk, g: Disk, j: nat) {
    var h := if c.Target() in f.trees then 1 else 0;
    && g.schema == f.schema
    && g.updates == (if j <= 5 + h then f.updates else f.updates - {c.txId})
    && (j <= 5 + h ==> g.schemaSnaps == f.schemaSnaps)
  }

  lemma RestoreAgain(f: Disk, g: Disk, cmd: Cmd)
    requires Apply(f, cmd) == f && (cmd.PutSchema? || cmd.DropSchema?) && g.schema == f.schema
    ensures Apply(g, cmd) == g
  {
    assert Apply(f, cmd).schema == f.schema;
  }

  /** What the steps behind the first are. */
  lemma StepKind(c: Change, f: Disk, latest: Path, now: Stamp, prog: seq<Cmd>, j: nat)
    requires RollbackShape(c, f, latest, now, prog) && 0 < j < |prog|
    ensures var h := if c.Target() in f.trees then 1 else 0;
            && |prog| == 7 + h
            && (j < 5 + h ==> !Bookkeeping(prog[j]))
            && (j == 5 + h ==> prog[j] == DropUpd(c.txId)) && (j == 6 + h ==> prog[j] == DropSchemaSnap(c.txId))
            && (j > 1 + h ==> !prog[j].Rename? && !prog[j].WriteTree? && !prog[j].DropTree?)
            && (j == 1 + h ==> prog[j] == Rename(latest, c.Target()))
            && (j == h ==> prog[j] == Rename(c.Target(), Snapshot(c.name, now)))
  {
  }

  lemma TreesMove(c: Change, f: Disk, latest: Path, now: Stamp, prog: seq<Cmd>, g: Disk, j: nat)
    requires RollbackShape(c, f, latest, now, prog) && 0 < j < |prog|
    requires latest in f.trees && latest.Snapshot? && latest.at < now && g.trees == TreesAfter(c, f, latest, now, j)
    ensures Apply(g, prog[j]).trees == TreesAfter(c, f, latest, now, j + 1)
  {
    hide RollbackShape;
    StepKind(c, f, latest, now, prog, j);
    if j > (if c.Target() in f.trees then 2 else 1) {
      hide Apply;
      TreesStay(g, prog[j]);
    } else {
      assert Apply(g, prog[j]).trees == (g.trees - {prog[j].src})[prog[j].dst := g.trees[prog[j].src]];
      hide Apply;
    }
  }

  lemma BooksMove(c: Change, f: Disk, latest: Path, now: Stamp, prog: seq<Cmd>, g: Disk, j: nat)
    requires RollbackShape(c, f, latest, now, prog) && 0 < j < |prog| && BooksAfter(c, f, g, j)
    ensures BooksAfter(c, f, Apply(g, prog[j]), j + 1)
  {
    hide RollbackShape, Apply;
    StepKind(c, f, latest, now, prog, j);
    if !Bookkeeping(prog[j]) { BooksStay(g, prog[j]); } else { DropsApply(g, c.txId); }
  }

  lemma DropsApply(g: Disk, id: Id)
    ensures Apply(g, DropUpd(id)) == g.(updates := g.updates - {id})
    ensures Apply(g, DropSchemaSnap(id)) == g.(schemaSnaps := g.schemaSnaps - {id})
  {
  }

  lemma TreesStay(g: Disk, cmd: Cmd)
    requires !cmd.Rename? && !cmd.WriteTree? && !cmd.DropTree?
    ensures Apply(g, cmd).trees == g.trees
  {
  }

  lemma FirstIsNothing(c: Change, f: Disk, latest: Path, now: Stamp, prog: seq<Cmd>)
    requires RollbackShape(c, f, latest, now, prog)
    ensures Apply(f, prog[0]) == f
  {
  }

  lemma {:induction false} StepsPrefix(c: Change, f: Disk, latest: Path, now: Stamp, prog: seq<Cmd>, j: nat)
    requires RollbackShape(c, f, latest, now, prog) && j <= |prog|
    requires latest in f.trees && latest.Snapshot? && latest.at < now
    ensures RunFor(f, prog, j).trees == TreesAfter(c, f, latest, now, j) && BooksAfter(c, f, RunFor(f, prog, j), j)
  {
    hide RunFor, RollbackShape;
    RunNone(f, prog);
    if j == 1 {
      RunSnoc(f, prog, 0);
      FirstIsNothing(c, f, latest, now, prog);
    } else if j > 1 {
      hide BooksAfter, TreesAfter;
      StepsPrefix(c, f, latest, now, prog, j - 1);
      RunSnoc(f, prog, j - 1);
      TreesMove(c, f, latest, now, prog, RunFor(f, prog, j - 1), j - 1);
      BooksMove(c, f, latest, now, prog, RunFor(f, prog, j - 1), j - 1);
    }
  }

  /** From a taken slot: aside after two steps, swapped after three. */
  lemma TakenMoves(d0: Disk, c: Change, f: Disk, latest: Path, now: Stamp, g: Disk, j: nat, isNew: bool)
    requires c.Target() in d0.trees && Taken(d0, c, f, isNew) && NewStamp(f, now)
    requires NewestIs(f.trees, c.name, latest) && g.trees == TreesAfter(c, f, latest, now, j)
    ensures if j <= 1 then Taken(d0, c, g, isNew) else if j == 2 then Free(d0, c, g, isNew) else Taken(d0, c, g, !isNew)
    ensures NewStamp(g, now + 1)
  {
    var aside := Snapshot(c.name, now);
    if j == 2 {
      assert g.trees - {aside} == f.trees - {c.Target()};
      assert NewestIs(g.trees, c.name, aside) && NewestIs(g.trees - {aside}, c.name, latest);
    } else if j > 2 {
      assert NewestIs(g.trees, c.name, aside);
    }
  }

  /** From a free slot: filled after two steps. */
  lemma FreeMoves(d0: Disk, c: Change, f: Disk, latest: Path, now: Stamp, g: Disk, j: nat, isNew: bool)
    requires c.Target() in d0.trees && Free(d0, c, f, isNew) && NewStamp(f, now)
    requires NewestIs(f.trees, c.name, latest) && g.trees == TreesAfter(c, f, latest, now, j)
    ensures if j <= 1 then Free(d0, c, g, isNew) else Taken(d0, c, g, isNew)
    ensures NewStamp(g, now + 1)
  {
    var p, q :| NewestIs(f.trees, c.name, p) && f.trees[p] == Side(d0, c, isNew)
                && NewestIs(f.trees - {p}, c.name, q) && f.trees[q] == Side(d0, c, !isNew);
    assert p == latest;
    if j > 1 { assert NewestIs(g.trees, c.name, q); }
  }

  lemma NewestExists(d0: Disk, c: Change, f: Disk, now: Stamp, isNew: bool) returns (latest: Path)
    requires c.Target() in d0.trees && c.txId in f.updates && Promises(d0, c, f, now, isNew)
    ensures NewestIs(f.trees, c.name, latest)
  {
    if Taken(d0, c, f, !isNew) {
      latest :| NewestIs(f.trees, c.name, latest);
    } else {
      latest :| NewestIs(f.trees, c.name, latest);
    }
  }

  lemma PublishedId(d0: Disk, c: Change)
    ensures PublishedTx(d0, c).txId == c.txId
  {
  }

  /** One restart, stopped before step j or complete: the outcome is reversed exactly when it stops behind its first
      rename with the journal still there. */
  lemma OneRestart(d0: Disk, c: Change, f: Disk, now: Stamp, j: nat, isNew: bool)
    requires Startable(d0, c) && !KeysStale(d0, c) && c.Target() in d0.trees
    requires c.txId in f.updates && Promises(d0, c, f, now, isNew)
    ensures var rec := RecoverUpdate(f, PublishedTx(d0, c), now);
            var g := RunFor(f, rec.cmds, j);
            && rec.ok && (j >= |rec.cmds| - 1 <==> c.txId !in g.updates)
            && |rec.cmds| == (if c.Target() in f.trees then 8 else 7)
            && Promises(d0, c, g, now + 1, isNew != (j >= 2 && c.txId in g.updates))
  {
    hide RunFor, RecoverUpdate, RollbackShape, Startable, KeysStale, PublishedTx, Taken, Free, NewStamp, NewestIs;
    var latest := NewestExists(d0, c, f, now, isNew);
    StartsOver(d0, c, f, now, latest);
    var prog := RecoverUpdate(f, PublishedTx(d0, c), now).cmds;
    var n := if j <= |prog| then j else |prog|;
    if j > |prog| { RunBeyond(f, prog, j); }
    LatestBefore(f, c.name, latest, now);
    StepsPrefix(c, f, latest, now, prog, n);
    ShapeLength(c, f, latest, now, prog);
    var g := RunFor(f, prog, n);
    assert map[c.txId := PublishedTx(d0, c)] - {c.txId} == map[];
    SlotWhen(d0, c, f, isNew);
    if Taken(d0, c, f, !isNew) {
      TakenMoves(d0, c, f, latest, now, g, n, !isNew);
      SlotWhen(d0, c, g, isNew);
    } else {
      FreeMoves(d0, c, f, latest, now, g, n, isNew);
      SlotWhen(d0, c, g, !isNew);
    }
  }

  lemma ShapeLength(c: Change, f: Disk, latest: Path, now: Stamp, prog: seq<Cmd>)
    requires RollbackShape(c, f, latest, now, prog)
    ensures |prog| == if c.Target() in f.trees then 8 else 7
  {
  }

  lemma LatestBefore(f: Disk, name: string, latest: Path, now: Stamp)
    requires NewestIs(f.trees, name, latest) && NewStamp(f, now)
    ensures latest in f.trees && latest.Snapshot? && latest.at < now
  {
  }

  lemma SlotWhen(d0: Disk, c: Change, f: Disk, isNew: bool)
    requires c.Target() in d0.trees
    ensures Taken(d0, c, f, !isNew) ==> c.Target() in f.trees && f.trees[c.Target()] == Side(d0, c, !isNew)
    ensures Free(d0, c, f, isNew) ==> c.Target() !in f.trees
    ensures Taken(d0, c, f, isNew) ==> c.Target() in f.trees && f.trees[c.Target()] == Side(d0, c, isNew)
  {
  }

  lemma {:induction false} RestartsPromise(d0: Disk, c: Change, f: Disk, now: Stamp, rs: seq<Restart>, isNew: bool)
    requires Startable(d0, c) && !KeysStale(d0, c) && c.Target() in d0.trees && Clocks(rs, now)
    requires Promises(d0, c, f, now, isNew)
    ensures Promises(d0, c, Interrupted(f, c.txId, rs), ClockAfter(rs, now), isNew != (Halfway(f, c.txId, rs) % 2 == 1))
    decreases |rs|
  {
    hide RunFor, RecoverUpdate, Startable, KeysStale, PublishedTx, Promises;
    if rs != [] {
      var t := rs[0].now;
      LaterClock(d0, c, f, now, t, isNew);
      var g := Interrupt(f, c.txId, rs[0]);
      if c.txId in f.updates {
        JournalIs(d0, c, f, t, isNew);
        OneRestart(d0, c, f, t, rs[0].at, isNew);
      } else {
        LaterClock(d0, c, f, t, t + 1, isNew);
      }
      RestartsPromise(d0, c, g, t + 1, rs[1..], isNew != (rs[0].at >= 2 && c.txId in g.updates));
    }
  }

  lemma LaterClock(d0: Disk, c: Change, f: Disk, now: Stamp, later: Stamp, isNew: bool)
    requires c.Target() in d0.trees && Promises(d0, c, f, now, isNew) && now <= later
    ensures Promises(d0, c, f, later, isNew)
  {
    hide Taken, Free, PublishedTx;
  }

  lemma JournalIs(d0: Disk, c: Change, f: Disk, now: Stamp, isNew: bool)
    requires c.Target() in d0.trees && c.txId in f.updates && Promises(d0, c, f, now, isNew)
    ensures f.updates == map[c.txId := PublishedTx(d0, c)] && f.schema == d0.schema
  {
    hide Taken, Free, PublishedTx;
  }

  /** What the first restart finds: the new tree in the slot, the old one in the newest snapshot. */
  lemma PromisesOld(d0: Disk, c: Change, e: Disk, now: Stamp)
    requires Uncommitted(d0, c, e, now)
    ensures e.updates == map[c.txId := PublishedTx(d0, c)] && Promises(d0, c, e, now, false)
  {
    hide PublishedTx, CommittedTx, NewHistory, LatestSnapshot, Frame, Before, Unjournalled, KeysStale, Replay, IndexOf, Quiet;
    OnlyJournal(d0, c, e, Tail(d0, c) + 1);
    SlotOf(d0, c, e, Tail(d0, c) + 1);
    StampsBefore(d0, c, e);
    LatestIsBackup(d0, c, e, e);
    NewestIsLatest(e, c.name, c.Publication().Backup());
    PublishedId(d0, c);
    assert NewestIs(e.trees, c.name, c.Publication().Backup());
  }

  lemma OldIsNotNew(d0: Disk, c: Change)
    requires Startable(d0, c) && c.Target() in d0.trees
    ensures d0.trees[c.Target()] != c.Publication().Tree()
  {
    hide Quiet;
  }

  /** However often power is lost during the rollback: the rejected tree is back exactly when an odd number of the
      interrupted restarts stopped behind their first rename with the journal still there. Each of them toggles the
      slot. The history is the old one in every case. */
  lemma RestartsToggle(d0: Disk, c: Change, e: Disk, now: Stamp, rs: seq<Restart>, later: Stamp, updates: seq<UpdateTx>)
    requires Uncommitted(d0, c, e, now) && Clocks(rs, now) && ClockAfter(rs, now) <= later
    requires ListsUpdates(updates, Interrupted(e, c.txId, rs).updates)
    ensures var (f, ok) := RecoverUpdates(Interrupted(e, c.txId, rs), updates, later);
            && ok && f.schema == d0.schema && f.updates == map[]
            && (HoldsNew(c, f) <==> Halfway(e, c.txId, rs) % 2 == 1)
            && (!HoldsNew(c, f) ==> SameAt(d0, f, c.Target()))
  {
    hide RunFor, Recovered, Startable, KeysStale, ListsUpdates, RecoverUpdate, PublishedTx, Promises;
    PromisesOld(d0, c, e, now);
    OldIsNotNew(d0, c);
    RestartsPromise(d0, c, e, now, rs, false);
    var d, isNew := Interrupted(e, c.txId, rs), Halfway(e, c.txId, rs) % 2 == 1;
    LaterClock(d0, c, d, ClockAfter(rs, now), later, isNew);
    Settles(d0, c, d, later, isNew, updates);
  }

  /** A restart that is not interrupted keeps the promise. */
  lemma Settles(d0: Disk, c: Change, d: Disk, later: Stamp, isNew: bool, updates: seq<UpdateTx>)
    requires Startable(d0, c) && !KeysStale(d0, c) && c.Target() in d0.trees && Promises(d0, c, d, later, isNew)
    requires ListsUpdates(updates, d.updates)
    ensures var (f, ok) := RecoverUpdates(d, updates, later);
            ok && f.schema == d0.schema && f.updates == map[] && c.Target() in f.trees && f.trees[c.Target()] == Side(d0, c, isNew)
  {
    hide RunFor, Startable, KeysStale, ListsUpdates, RecoverUpdate, PublishedTx, Taken, Free;
    if c.txId in d.updates {
      PublishedId(d0, c);
      SingleUpdate(updates, d.updates, c.txId);
      OneRestart(d0, c, d, later, |RecoverUpdate(d, PublishedTx(d0, c), later).cmds|, isNew);
      RecoverSingle(d, PublishedTx(d0, c), later);
    } else {
      NoUpdates(updates, d.updates);
    }
  }

  /** One interrupted restart brings the rejected tree back exactly when it stops at one of five steps. */
  lemma OneRestartToggles(d0: Disk, c: Change, e: Disk, now: Stamp, r: Restart)
    requires Uncommitted(d0, c, e, now) && now <= r.now
    ensures Halfway(e, c.txId, [r]) == if 2 <= r.at <= 6 then 1 else 0
  {
    hide RunFor, Recovered, RecoverUpdate, PublishedTx, Promises, KeysStale, Startable;
    PromisesOld(d0, c, e, now);
    LaterClock(d0, c, e, now, r.now, false);
    OneRestart(d0, c, e, r.now, r.at, false);
    NewInTheSlot(d0, c, e);
    assert [r][1..] == [];
  }

  lemma NewInTheSlot(d0: Disk, c: Change, e: Disk)
    requires Startable(d0, c) && Recovered(d0, c, e, Tail(d0, c) + 1)
    ensures c.Target() in e.trees
  {
    SlotOf(d0, c, e, Tail(d0, c) + 1);
  }

  // ---- without a snapshot ----

  /** A journal that names no snapshot, while its tree is in the slot: rollback deletes that tree. */
  ghost predicate Deletes(c: Change, e: Disk, tx: UpdateTx) {
    && tx.txId == c.txId && tx.name == c.name && tx.state in {UpdPublishing, UpdSkillPublished} && tx.snapshot == None
    && e.updates == map[c.txId := tx] && tx.txId in e.schemaSnaps
    && Apply(e, RestoreSchema(e, tx)) == e
    && HoldsNew(c, e) && !SchemaVisible(e, tx)
    && (tx.state == UpdPublishing ==> tx.artifact == None && tx.pointerSeen == None && tx.indexSeen == None)
    && tx.pending != [] && !AllPresent(tx.pending, HistoryOf(e, tx.coll))
  }

  ghost function SixSteps(d: Disk, tx: UpdateTx): seq<Cmd>
    requires tx.txId in d.schemaSnaps
  {
    [RestoreSchema(d, tx)] + DropSlot(tx) + Remove(tx)
  }

  /** The deletion as it may start: all of it, or again behind an interruption. */
  ghost predicate Deletable(c: Change, d: Disk, tx: UpdateTx) {
    && tx.txId == c.txId && tx.name == c.name && d.updates == map[c.txId := tx]
    && tx.txId in d.schemaSnaps && Apply(d, RestoreSchema(d, tx)) == d
  }

  ghost predicate AfterDrop(c: Change, d: Disk, g: Disk, j: nat) {
    && g.schema == d.schema
    && g.updates == (if j <= 4 then d.updates else map[])
    && (j <= 4 ==> g.schemaSnaps == d.schemaSnaps)
    && g.trees == if j <= 1 then d.trees
                  else if j == 2 then d.trees[c.Target() := Torn(Some(c.txId))]
                  else if j == 3 then d.trees[c.Target() := Torn(None)]
                  else d.trees - {c.Target()}
  }

  lemma SlotTwice(m: map<Path, Tree>, p: Path, t: Tree, u: Tree)
    ensures m[p := t][p := u] == m[p := u] && m[p := u] - {p} == m - {p}
  {
  }

  lemma DropStep(c: Change, d: Disk, tx: UpdateTx, g: Disk, j: nat)
    requires Deletable(c, d, tx) && AfterDrop(c, d, g, j) && j < 6
    ensures AfterDrop(c, d, Apply(g, SixSteps(d, tx)[j]), j + 1)
  {
    hide RestoreSchema;
    RestoreKind(d, tx);
    if j == 0 {
      RestoreAgain(d, g, RestoreSchema(d, tx));
    } else if j < 4 {
      SlotTwice(d.trees, c.Target(), Torn(Some(c.txId)), Torn(None));
    } else {
      assert map[c.txId := tx] - {c.txId} == map[];
    }
  }

  lemma {:induction false} DropPrefix(c: Change, d: Disk, tx: UpdateTx, j: nat)
    requires Deletable(c, d, tx) && j <= 6
    ensures AfterDrop(c, d, RunFor(d, SixSteps(d, tx), j), j)
  {
    if j > 0 {
      hide RunFor, Deletable, AfterDrop;
      DropPrefix(c, d, tx, j - 1);
      RunSnoc(d, SixSteps(d, tx), j - 1);
      DropStep(c, d, tx, RunFor(d, SixSteps(d, tx), j - 1), j - 1);
    }
  }

  /** The first restart that comes past the readable metadata, by the step at which it stops; 0 if none does. */
  function FirstBeyond(rs: seq<Restart>): nat {
    if rs == [] then 0 else if rs[0].at >= 3 then rs[0].at else FirstBeyond(rs[1..])
  }

  /** Where the interrupted restarts leave slot and journal. */
  ghost predicate Left(c: Change, e: Disk, tx: UpdateTx, d: Disk, m: nat) {
    && d.schema == e.schema
    && (d.updates == e.updates ==> d.schemaSnaps == e.schemaSnaps)
    && (m == 0 ==> d.updates == e.updates && Carries(d, c.name, c.txId))
    && (m == 3 ==> c.Target() in d.trees && d.trees[c.Target()] == Torn(None))
    && (m >= 4 ==> c.Target() !in d.trees)
    && (3 <= m <= 4 ==> d.updates == e.updates || d.updates == Settled(tx))
    && (m >= 5 ==> d.updates == map[])
  }

  /** The journal once a slot without readable metadata was found: forgotten, or given up. */
  function Settled(tx: UpdateTx): map<Id, UpdateTx> {
    if tx.state == UpdPublishing then map[] else map[tx.txId := tx.(state := UpdRollbackRequired)]
  }

  /** What a restart decides while the journal is as it was. */
  lemma DropDecision(c: Change, e: Disk, tx: UpdateTx, d: Disk, m: nat, now: Stamp)
    requires Deletes(c, e, tx) && Left(c, e, tx, d, m) && m in {0, 3, 4} && d.updates == e.updates
    ensures Deletable(c, d, tx)
    ensures RecoverUpdate(d, tx, now) ==
              if m == 0 then Recovery(SixSteps(d, tx), true)
              else if tx.state == UpdPublishing then Recovery(Remove(tx), true)
              else Recovery([RestoreSchema(d, tx), GiveUp(tx)], false)
    ensures m == 0 ==> |RecoverUpdate(d, tx, now).cmds| == 6
  {
    SameHistory(e, d, tx);
    assert !SchemaVisible(d, tx);
    hide SchemaVisible, AllPresent, HistoryOf;
    assert Carries(d, c.name, c.txId) <==> m == 0;
  }

  lemma SameHistory(e: Disk, d: Disk, tx: UpdateTx)
    requires d.schema == e.schema && d.schemaSnaps == e.schemaSnaps && tx.txId in e.schemaSnaps && Apply(e, RestoreSchema(e, tx)) == e
    ensures HistoryOf(d, tx.coll) == HistoryOf(e, tx.coll) && Apply(d, RestoreSchema(d, tx)) == d
  {
    assert Apply(e, RestoreSchema(e, tx)).schema == e.schema;
    assert Apply(d, RestoreSchema(d, tx)).schema == d.schema;
  }

  lemma DropFromStart(c: Change, e: Disk, tx: UpdateTx, d: Disk, j: nat)
    requires Deletes(c, e, tx) && Left(c, e, tx, d, 0) && Deletable(c, d, tx)
    ensures Left(c, e, tx, RunFor(d, SixSteps(d, tx), j), if j >= 3 then j else 0)
  {
    hide RunFor, SixSteps, Deletes, RestoreSchema, Apply;
    NotAsBefore(c, e, tx);
    SixLong(d, tx);
    if j > 6 { RunBeyond(d, SixSteps(d, tx), j); }
    DropPrefix(c, d, tx, if j <= 6 then j else 6);
  }

  lemma SixLong(d: Disk, tx: UpdateTx)
    requires tx.txId in d.schemaSnaps
    ensures |SixSteps(d, tx)| == 6
  {
  }

  lemma TwoSteps(d: Disk, tx: UpdateTx)
    requires tx.txId in d.schemaSnaps && Apply(d, RestoreSchema(d, tx)) == d && d.updates == map[tx.txId := tx]
    requires tx.state == UpdPublishing || tx.state == UpdSkillPublished
    ensures tx.state == UpdPublishing ==> Apply(d, DropUpd(tx.txId)) == d.(updates := Settled(tx))
    ensures tx.state == UpdSkillPublished ==> Apply(d, GiveUp(tx)) == d.(updates := Settled(tx))
  {
    assert map[tx.txId := tx] - {tx.txId} == map[];
    assert map[tx.txId := tx][tx.txId := tx.(state := UpdRollbackRequired)] == map[tx.txId := tx.(state := UpdRollbackRequired)];
  }

  lemma ForgetOrGiveUp(c: Change, e: Disk, tx: UpdateTx, d: Disk, m: nat, j: nat)
    requires Deletes(c, e, tx) && Left(c, e, tx, d, m) && m in {3, 4} && Deletable(c, d, tx) && d.updates == e.updates
    ensures var cmds := if tx.state == UpdPublishing then Remove(tx) else [RestoreSchema(d, tx), GiveUp(tx)];
            Left(c, e, tx, RunFor(d, cmds, j), m) && (j >= 2 ==> RunFor(d, cmds, j).updates == Settled(tx))
  {
    hide RunFor, RestoreSchema;
    NotAsBefore(c, e, tx);
    TwoSteps(d, tx);
    hide Deletes, Apply, GiveUp, Settled;
    if tx.state == UpdPublishing {
      TwoPrefix(d, DropUpd(tx.txId), DropSchemaSnap(tx.txId), j);
      DropsApply(Apply(d, DropUpd(tx.txId)), tx.txId);
    } else {
      TwoPrefix(d, RestoreSchema(d, tx), GiveUp(tx), j);
    }
  }

  lemma TwoPrefix(d: Disk, a: Cmd, b: Cmd, j: nat)
    ensures RunFor(d, [a, b], j) == if j == 0 then d else if j == 1 then Apply(d, a) else Apply(Apply(d, a), b)
  {
    hide RunFor, Apply;
    RunNone(d, [a, b]);
    RunTwo(d, a, b);
    if j > 2 { RunBeyond(d, [a, b], j); }
  }

  lemma NotAsBefore(c: Change, e: Disk, tx: UpdateTx)
    requires Deletes(c, e, tx)
    ensures e.updates != map[] && e.updates != Settled(tx)
    ensures tx.txId == c.txId && e.updates == map[c.txId := tx] && (tx.state == UpdPublishing || tx.state == UpdSkillPublished)
  {
    hide SchemaVisible, AllPresent, RestoreSchema, HistoryOf, HoldsNew;
    assert c.txId in e.updates && e.updates[c.txId] == tx;
    assert c.txId in Settled(tx) ==> Settled(tx)[c.txId] != tx;
  }

  lemma OneDrop(c: Change, e: Disk, tx: UpdateTx, d: Disk, m: nat, r: Restart)
    requires Deletes(c, e, tx) && Left(c, e, tx, d, m) && (m == 0 || m >= 3)
    ensures Left(c, e, tx, Interrupt(d, c.txId, r), if m == 0 && r.at >= 3 then r.at else m)
    ensures 3 <= m <= 4 && r.at >= 2 ==> Interrupt(d, c.txId, r).updates == Settled(tx)
  {
    hide RunFor, Deletes, Deletable, SixSteps, RestoreSchema;
    NotAsBefore(c, e, tx);
    if d.updates == e.updates {
      if m < 5 {
        hide RecoverUpdate;
        DropDecision(c, e, tx, d, m, r.now);
        if m == 0 { DropFromStart(c, e, tx, d, r.at); } else { ForgetOrGiveUp(c, e, tx, d, m, r.at); }
      }
    } else {
      RunNothing(d, r.at);
    }
  }

  lemma RunNothing(d: Disk, k: nat)
    ensures RunFor(d, [], k) == d
  {
  }

  lemma {:induction false} RestartsLeave(c: Change, e: Disk, tx: UpdateTx, d: Disk, m: nat, rs: seq<Restart>)
    requires Deletes(c, e, tx) && Left(c, e, tx, d, m) && (m == 0 || m >= 3)
    ensures Left(c, e, tx, Interrupted(d, c.txId, rs), if m == 0 then FirstBeyond(rs) else m)
    decreases |rs|
  {
    hide Deletes, Left, Interrupt;
    if rs != [] {
      OneDrop(c, e, tx, d, m, rs[0]);
      RestartsLeave(c, e, tx, Interrupt(d, c.txId, rs[0]), if m == 0 && rs[0].at >= 3 then rs[0].at else m, rs[1..]);
    }
  }

  /** However often power is lost while the tree is being deleted, the first restart that comes past the readable
      metadata decides. If it stops at once behind it, a torn tree stays in the slot for good; if the journal says
      skill_published, recovery then refuses to go on, and also when that restart stops before the journal is
      removed. Otherwise the deletion is finished. */
  lemma RestartsWhileDeleting(c: Change, e: Disk, tx: UpdateTx, rs: seq<Restart>, later: Stamp, updates: seq<UpdateTx>)
    requires Deletes(c, e, tx)
    requires ListsUpdates(updates, Interrupted(e, c.txId, rs).updates)
    ensures var (f, ok) := RecoverUpdates(Interrupted(e, c.txId, rs), updates, later);
            var m := FirstBeyond(rs);
            && f.schema == e.schema
            && (ok <==> !(tx.state == UpdSkillPublished && 3 <= m <= 4))
            && (c.Target() in f.trees <==> m == 3)
            && (c.Target() in f.trees ==> f.trees[c.Target()] == Torn(None))
            && (ok ==> f.updates == map[])
  {
    hide RunFor, Deletes, ListsUpdates, RecoverUpdate, Left, Interrupted;
    StartsWhole(c, e, tx);
    NotAsBefore(c, e, tx);
    RestartsLeave(c, e, tx, e, 0, rs);
    BeyondIs(rs);
    var d, m := Interrupted(e, c.txId, rs), FirstBeyond(rs);
    JournalLeft(c, e, tx, d, m);
    if d.updates == map[] {
      NoUpdates(updates, d.updates);
      LeftIs(c, e, tx, d, m);
    } else {
      LastRestart(c, e, tx, d, m, updates, later);
      LeftIs(c, e, tx, RecoverUpdates(d, updates, later).0, if m == 0 then 6 else m);
    }
  }

  lemma {:induction false} BeyondIs(rs: seq<Restart>)
    ensures FirstBeyond(rs) == 0 || FirstBeyond(rs) >= 3
  {
    if rs != [] { BeyondIs(rs[1..]); }
  }

  lemma StartsWhole(c: Change, e: Disk, tx: UpdateTx)
    requires Deletes(c, e, tx)
    ensures Left(c, e, tx, e, 0)
  {
    hide SchemaVisible, AllPresent, RestoreSchema, HistoryOf;
  }

  lemma JournalLeft(c: Change, e: Disk, tx: UpdateTx, d: Disk, m: nat)
    requires Left(c, e, tx, d, m) && (m == 0 || m >= 3)
    ensures d.updates == map[] || d.updates == e.updates || (3 <= m <= 4 && d.updates == Settled(tx))
    ensures d.updates == map[] ==> m >= 3 || e.updates == map[]
    ensures d.updates == e.updates && e.updates != map[] ==> m <= 4
  {
  }

  lemma LeftIs(c: Change, e: Disk, tx: UpdateTx, f: Disk, m: nat)
    requires Left(c, e, tx, f, m) && m >= 3
    ensures f.schema == e.schema && (c.Target() in f.trees <==> m == 3)
    ensures c.Target() in f.trees ==> f.trees[c.Target()] == Torn(None)
    ensures m >= 5 ==> f.updates == map[]
    ensures 3 <= m <= 4 && f.updates == map[] && e.updates != map[] ==> tx.state == UpdPublishing
  {
    assert tx.state != UpdPublishing ==> tx.txId in Settled(tx);
  }

  /** The restart that is not interrupted, on a disk that still has a journal. */
  lemma LastRestart(c: Change, e: Disk, tx: UpdateTx, d: Disk, m: nat, updates: seq<UpdateTx>, later: Stamp)
    requires Deletes(c, e, tx) && Left(c, e, tx, d, m) && (m == 0 || m >= 3) && d.updates != map[]
    requires ListsUpdates(updates, d.updates)
    ensures var (f, ok) := RecoverUpdates(d, updates, later);
            && Left(c, e, tx, f, if m == 0 then 6 else m)
            && (ok <==> !(tx.state == UpdSkillPublished && 3 <= m <= 4))
            && (ok ==> f.updates == map[])
  {
    hide RunFor, Deletes, ListsUpdates, Left, Deletable, SixSteps, RestoreSchema, RecoverUpdate;
    NotAsBefore(c, e, tx);
    JournalLeft(c, e, tx, d, m);
    SingleUpdate(updates, d.updates, c.txId);
    var rec := RecoverUpdate(d, d.updates[c.txId], later);
    assert [d.updates[c.txId]][1..] == [];
    OneDrop(c, e, tx, d, m, Restart(|rec.cmds|, later));
    if d.updates == e.updates {
      DropDecision(c, e, tx, d, m, later);
      if m == 0 { LeftIs(c, e, tx, Run(d, rec.cmds), 6); }
    } else {
      GivenUp(d, d.updates[c.txId], later);
      LeftIs(c, e, tx, d, m);
    }
  }

  lemma GivenUp(d: Disk, tx: UpdateTx, now: Stamp)
    requires tx.state == UpdRollbackRequired
    ensures RecoverUpdate(d, tx, now) == Recovery([], false) && Run(d, []) == d
  {
  }

  lemma TailLate(d0: Disk, c: Change)
    ensures FirstMove(d0, c) >= 6 && Tail(d0, c) > FirstMove(d0, c)
  {
  }

  lemma Unsnapshotted(d0: Disk, c: Change, k: nat, tx: UpdateTx)
    requires JournalAt(d0, c, k) == Some(tx)
    requires FirstMove(d0, c) < k <= Tail(d0, c) || (k == Tail(d0, c) + 1 && c.Target() !in d0.trees)
    ensures tx.txId == c.txId && tx.name == c.name && tx.coll == c.coll && tx.snapshot == None && tx.pending == Keys(c.pending)
    ensures tx.state == if k <= Tail(d0, c) then UpdPublishing else UpdSkillPublished
    ensures tx.state == UpdPublishing ==> tx.artifact == None && tx.pointerSeen == None && tx.indexSeen == None
  {
    hide PublishedIndex, Keys;
  }

  /** Both kinds of journal arise: a crash after the swap leaves one that says publishing, and a first
      publication that is journalled but not committed leaves the other. */
  lemma DeletesArises(d0: Disk, c: Change, e: Disk, k: nat)
    requires Startable(d0, c) && Recovered(d0, c, e, k) && !KeysStale(d0, c)
    requires FirstMove(d0, c) < k <= Tail(d0, c) || (k == Tail(d0, c) + 1 && c.Target() !in d0.trees)
    ensures Deletes(c, e, e.updates[c.txId])
  {
    hide AllPresent, JournalAt, Frame, Before, Unjournalled, Landed, Quiet, Carries, RestoreSchema, SwapIndex;
    OnlyJournal(d0, c, e, k);
    SlotOf(d0, c, e, k);
    TailLate(d0, c);
    JournalHeld(d0, c, k);
    var tx := e.updates[c.txId];
    assert JournalAt(d0, c, k) == Some(tx) && e.schema == d0.schema && c.txId in e.schemaSnaps && e.schemaSnaps[c.txId] == HistoryOf(d0, c.coll);
    Unsnapshotted(d0, c, k, tx);
    SchemaRestored(d0, c, e, tx);
    RestoreKind(e, tx);
    assert Apply(e, RestoreSchema(e, tx)) == e;
    assert |Keys(c.pending)| == |c.pending|;
  }
}
