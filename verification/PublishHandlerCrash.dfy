/** Power loss inside the except block of publish: for every step that may have failed and every step of the
    except block before which power may be lost, what the next startup decides and what the slot then holds. */
module PublishHandlerCrash {
  import opened Knowledge
  import opened Storage
  import opened PublishProtocol
  import opened PublishAtomicity
  import opened PublishFailure
  import PublishRecovery

  // ---- what recovery decides, on any disk ----

  function TreeAt(d: Disk, p: Path): Option<Tree> { if p in d.trees then Some(d.trees[p]) else None }

  /** Whether recovery goes through, and the tree it leaves in the slot. */
  datatype Verdict = Verdict(ok: bool, slot: Option<Tree>)

  function Decide(e: Disk, tx: PublishTx): Verdict {
    var slot, snap, staged := TreeAt(e, Slot(tx.name)), if tx.snapshot.Some? then TreeAt(e, tx.snapshot.value) else None, TreeAt(e, tx.staging);
    match tx.state
    case RollbackRequired => Verdict(false, slot)
    case Committed => Verdict(true, slot)
    case Swapped =>
      if slot.Some? then Verdict(Verifies(slot.value, tx.artifact), slot) else Verdict(snap.Some?, snap)
    case _ =>
      if snap.None? || slot.Some? then Verdict(true, slot)
      else if staged.Some? then Verdict(Verifies(staged.value, tx.artifact), staged)
      else Verdict(true, snap)
  }

  /** A tree that is in neither place that recovery may take it from stays where it is, the one in the snapshot stays
      there or goes to the slot, and no other place is filled. */
  ghost predicate Conserves(e: Disk, tx: PublishTx, f: Disk) {
    && (forall p | p in f.trees && p != Slot(tx.name) :: p in e.trees)
    && (forall p: Path | p in e.trees && !p.Staging? && p != Slot(tx.name) && Some(p) != tx.snapshot :: p in f.trees && f.trees[p] == e.trees[p])
    && (tx.snapshot.Some? && tx.snapshot.value in e.trees ==>
          || (tx.snapshot.value in f.trees && f.trees[tx.snapshot.value] == e.trees[tx.snapshot.value])
          || (Slot(tx.name) in f.trees && f.trees[Slot(tx.name)] == e.trees[tx.snapshot.value]))
  }

  ghost predicate WellNamed(tx: PublishTx) {
    tx.staging.Staging? && (tx.snapshot.Some? ==> tx.snapshot.value.Snapshot?)
  }

  /** No step of the list moves a tree. */
  predicate Still(prog: seq<Cmd>) {
    forall i | 0 <= i < |prog| :: !prog[i].WriteTree? && !prog[i].DropTree? && !prog[i].Rename?
  }

  lemma StillStep(d: Disk, c: Cmd)
    requires !c.WriteTree? && !c.DropTree? && !c.Rename?
    ensures Apply(d, c).trees == d.trees
  {
  }

  lemma {:induction false} StillKeepsTrees(d: Disk, prog: seq<Cmd>, k: nat)
    requires Still(prog)
    ensures RunFor(d, prog, k).trees == d.trees
    decreases |prog|
  {
    if prog != [] && k > 0 {
      StillStep(d, prog[0]);
      hide Apply;
      StillKeepsTrees(Apply(d, prog[0]), prog[1..], k - 1);
    }
  }

  lemma RecordIsStill(log: seq<LogEntry>, tx: PublishTx)
    ensures Still(Record(log, tx))
  {
    hide Replay, IndexOf, Logged;
  }

  lemma RestoreDecides(e: Disk, tx: PublishTx)
    requires WellNamed(tx) && Slot(tx.name) !in e.trees
    ensures var rec := RestoreSnapshot(e, tx);
            var f := Run(e, rec.cmds);
            var snap := if tx.snapshot.Some? then TreeAt(e, tx.snapshot.value) else None;
            && rec.ok == snap.Some? && TreeAt(f, Slot(tx.name)) == snap && Conserves(e, tx, f)
  {
    var prog := RestoreSnapshot(e, tx).cmds;
    if tx.snapshot.Some? && tx.snapshot.value in e.trees {
      var g := Apply(e, prog[0]);
      assert prog[1..] == [DropPointer(tx.name), DropTx(tx.publishId)];
      StillKeepsTrees(g, prog[1..], 2);
    } else {
      StillKeepsTrees(e, prog, 1);
    }
  }

  lemma SwappedDecides(e: Disk, tx: PublishTx)
    requires WellNamed(tx) && tx.state == Swapped
    ensures var rec := RecoverSwapped(e, tx);
            var f := Run(e, rec.cmds);
            rec.ok == Decide(e, tx).ok && TreeAt(f, Slot(tx.name)) == Decide(e, tx).slot && Conserves(e, tx, f)
  {
    hide RunFor, Record, RestoreSnapshot;
    if Slot(tx.name) in e.trees {
      RecordIsStill(e.log, tx);
      RecordHead(e.log, tx);
      StillKeepsTrees(e, RecoverSwapped(e, tx).cmds, |RecoverSwapped(e, tx).cmds|);
    } else {
      RestoreDecides(e, tx);
    }
  }

  lemma RecordHead(log: seq<LogEntry>, tx: PublishTx)
    ensures Record(log, tx)[0].PutPointer?
  {
  }

  lemma FinishDecides(e: Disk, tx: PublishTx)
    requires WellNamed(tx) && tx.state in {Prepared, Snapshotted} && tx.staging in e.trees && Slot(tx.name) !in e.trees
    requires tx.snapshot.Some? && tx.snapshot.value in e.trees
    ensures var rec := RecoverOne(e, tx);
            var f := Run(e, rec.cmds);
            rec.ok == Decide(e, tx).ok && TreeAt(f, Slot(tx.name)) == Decide(e, tx).slot && Conserves(e, tx, f)
  {
    hide RecoverSwapped, Verifies;
    var swapped := tx.(state := Swapped);
    var finish := [Rename(tx.staging, Slot(tx.name)), PutTx(swapped)];
    RunTwo(e, finish[0], finish[1]);
    var g := Run(e, finish);
    var rest := RecoverSwapped(g, swapped);
    assert RecoverOne(e, tx) == Recovery(finish + rest.cmds, rest.ok);
    RunConcat(e, finish, rest.cmds, |finish + rest.cmds|);
    hide RunFor, Run;
    SwappedDecides(g, swapped);
  }

  /** What recovery of one journal does to the slot, whatever is on the disk. */
  lemma RecoverDecides(e: Disk, tx: PublishTx)
    requires WellNamed(tx)
    ensures var rec := RecoverOne(e, tx);
            var f := Run(e, rec.cmds);
            rec.ok == Decide(e, tx).ok && TreeAt(f, Slot(tx.name)) == Decide(e, tx).slot && Conserves(e, tx, f)
  {
    hide RecoverSwapped, RestoreSnapshot, RunFor, Verifies;
    var prog := RecoverOne(e, tx).cmds;
    if tx.state == RollbackRequired || tx.state == Committed {
      StillKeepsTrees(e, prog, |prog|);
    } else if tx.state == Swapped {
      SwappedDecides(e, tx);
    } else if tx.snapshot.Some? && tx.snapshot.value in e.trees && Slot(tx.name) !in e.trees {
      if tx.staging in e.trees { FinishDecides(e, tx); } else { RestoreDecides(e, tx); }
    } else {
      ClearDecides(e, tx);
    }
  }

  lemma ClearDecides(e: Disk, tx: PublishTx)
    requires WellNamed(tx)
    ensures var f := Run(e, Cleanup(e, tx.staging) + [DropTx(tx.publishId)]);
            TreeAt(f, Slot(tx.name)) == TreeAt(e, Slot(tx.name)) && Conserves(e, tx, f)
  {
    var clean, drop := Cleanup(e, tx.staging), [DropTx(tx.publishId)];
    RunConcat(e, clean, drop, |clean + drop|);
    RunCleanup(e, tx.staging);
    StillKeepsTrees(Run(e, clean), drop, 1);
  }

  // ---- where the except block stands ----

  /** Its steps before it removes the journal. */
  function UndoSteps(d0: Disk, r: Request, n: nat): nat {
    if n > SwapIndex(d0, r) && r.Target() !in d0.trees then 3 else 4
  }

  predicate StillOpen(d0: Disk, r: Request, n: nat, k: nat) { n >= 3 && (Undoes(d0, r, n) ==> k <= UndoSteps(d0, r, n)) }

  /** Recovery will refuse: the staged tree is half deleted while the slot is free, or the journal says swapped and the
      slot holds neither the new tree nor can be filled from a snapshot. */
  predicate Blocked(d0: Disk, r: Request, n: nat, k: nat) {
    var swap := SwapIndex(d0, r);
    || (n <= swap && Undoes(d0, r, n) && 1 <= k <= 2)
    || (swap + 2 <= n <= swap + 5 &&
        if r.Target() in d0.trees then k >= 2 && !Verifies(d0.trees[r.Target()], Some(r.artifact)) else k >= 1)
  }

  /** A torn tree may still carry its metadata. */
  datatype SlotFate = AsBefore | NewTree | TornReadable | TornTree | Emptied

  /** What the slot holds once recovery is through or has given up. */
  function FateOf(d0: Disk, r: Request, n: nat, k: nat): SlotFate {
    if !Undoes(d0, r, n) then AsBefore
    else if k == 0 then NewTree
    else if n <= SwapIndex(d0, r) || r.Target() !in d0.trees then
      if k == 1 then TornReadable else if k == 2 then TornTree else AsBefore
    else if k == 1 && n == SwapIndex(d0, r) + 6 then Emptied
    else AsBefore
  }

  predicate SlotIs(d0: Disk, r: Request, fate: SlotFate, slot: Option<Tree>) {
    match fate
    case AsBefore => slot == TreeAt(d0, r.Target())
    case NewTree => slot == Some(r.Tree())
    case TornReadable => slot == Some(Torn(r.txId))
    case TornTree => slot == Some(Torn(None))
    case Emptied => slot == None && r.Target() in d0.trees
  }

  /** No tree is lost: the old one is in the slot or in its snapshot, and every other one is where it was. */
  ghost predicate NothingLost(d0: Disk, r: Request, f: Disk) {
    && (r.Target() in d0.trees ==> TreeAt(f, r.Target()) == TreeAt(d0, r.Target()) || TreeAt(f, r.Backup()) == TreeAt(d0, r.Target()))
    && forall p: Path | p in d0.trees && !p.Staging? && p != r.Target() :: p in f.trees && f.trees[p] == d0.trees[p]
  }

  /** The disk when power is lost before step k of the except block that the failure of step n has started. */
  function Interrupted(d0: Disk, r: Request, n: nat, k: nat): Disk {
    var d := RunFor(d0, PublishProgram(d0, r), n);
    RunFor(d, HandlerProgram(r.Target() in d0.trees, d, r, n > SwapIndex(d0, r)), k)
  }

  /** Power was lost in the except block of some failing publish. */
  ghost predicate DuringUndo(d0: Disk, r: Request, e: Disk) {
    exists n: nat, k: nat :: n < |PublishProgram(d0, r)| && e == Interrupted(d0, r, n, k)
  }

  /** The states a journal may be in after n steps of publish. */
  function StatesAt(d0: Disk, r: Request, n: nat): set<PublishState> {
    var swap := SwapIndex(d0, r);
    if n < 3 then {}
    else if n <= swap + 1 then {Prepared, Snapshotted}
    else if n <= swap + 5 then {Swapped}
    else {Committed}
  }

  ghost predicate Shows(d0: Disk, r: Request, e: Disk, slot: Option<Tree>, backup: Option<Tree>) {
    TreeAt(e, r.Target()) == slot && TreeAt(e, r.Backup()) == backup && Around(d0, r, e.trees)
  }

  /** Outside the publication every tree is where it was, and there is no new snapshot. */
  ghost predicate Around(d0: Disk, r: Request, trees: map<Path, Tree>) {
    && (forall p: Path | p in d0.trees && !p.Staging? && p != r.Target() :: p in trees && trees[p] == d0.trees[p])
    && forall p: Path | p in trees && p.Snapshot? && p != r.Backup() :: p in d0.trees
  }

  lemma AroundFailed(d0: Disk, r: Request, d: Disk)
    requires Quiet(d0, r) && Frame(d0, r, d)
    ensures Around(d0, r, d.trees) && r.Backup() !in d0.trees
  {
    hide StaleJournal, Logged;
    assert r.Backup() !in d0.trees;
    assert forall p: Path | p in d0.trees && !p.Staging? && p != r.Target() :: SameAt(d0, d, p);
    assert forall p: Path | p in d.trees && p.Snapshot? && p != r.Backup() :: SameAt(d0, d, p);
  }

  lemma AroundPut(d0: Disk, r: Request, trees: map<Path, Tree>, p: Path, t: Tree)
    requires Around(d0, r, trees) && (p == r.Target() || p.Staging? || (p !in d0.trees && (p == r.Backup() || p.Displaced?)))
    ensures Around(d0, r, trees[p := t]) && Around(d0, r, trees - {p})
  {
  }

  lemma FreshSibling(d0: Disk, r: Request, d: Disk, p: Path)
    requires Frame(d0, r, d) && p.Displaced? && p !in d.trees
    ensures p !in d0.trees
  {
    assert SameAt(d0, d, p);
  }

  /** The published tree after k steps of its removal. */
  function RemovedTree(r: Request, k: nat): Option<Tree> {
    if k == 0 then Some(r.Tree()) else if k == 1 then Some(Torn(r.txId)) else if k == 2 then Some(Torn(None)) else None
  }

  /** Between the two renames. */
  lemma GapScene(d0: Disk, r: Request, d: Disk, k: nat)
    requires Quiet(d0, r) && Frame(d0, r, d) && Between(d0, r, d) && k <= 4
    ensures var e := RunFor(d, HandlerProgram(true, d, r, false), k);
            var old_ := TreeAt(d0, r.Target());
            && e.journals == d.journals
            && (if k == 4 then Shows(d0, r, e, old_, None) else Shows(d0, r, e, None, old_))
            && TreeAt(e, r.Staged()) == RemovedTree(r, k)
  {
    hide Quiet, Frame, Around, HandlerProgram, RunFor, Open, PointerSame;
    AroundFailed(d0, r, d);
    GapHandlerPrefix(d0, r, d, k);
    var clean := d.trees - {r.Staged()};
    AroundPut(d0, r, d.trees, r.Staged(), Torn(r.txId));
    AroundPut(d0, r, d.trees, r.Staged(), Torn(None));
    AroundPut(d0, r, clean, r.Backup(), Torn(None));
    AroundPut(d0, r, clean - {r.Backup()}, r.Target(), d.trees[r.Backup()]);
  }

  /** Behind the swap, with an old tree to put back. */
  lemma TakenScene(d0: Disk, r: Request, d: Disk, k: nat)
    requires Quiet(d0, r) && Frame(d0, r, d) && NewInSlot(d0, r, d) && r.Target() in d0.trees && k <= 4
    ensures var e := RunFor(d, HandlerProgram(true, d, r, true), k);
            var old_ := TreeAt(d0, r.Target());
            && e.journals == d.journals && TreeAt(e, r.Staged()) == None
            && if k == 0 then Shows(d0, r, e, Some(r.Tree()), old_)
               else if k == 1 then Shows(d0, r, e, None, old_)
               else Shows(d0, r, e, old_, None)
  {
    hide Quiet, Frame, Around, HandlerProgram, RunFor, UniqueSibling, Report;
    AroundFailed(d0, r, d);
    var aside := UniqueSibling(d, r.name);
    var part := [Rename(r.Target(), aside), Rename(r.Backup(), r.Target()), WriteTree(aside, Torn(None)), DropTree(aside)];
    FreshSibling(d0, r, d, aside);
    TakenProgram(d, r);
    RunConcat(d, part, Report(true, d, r), k);
    MoveAsidePrefix(d, r.Target(), aside, r.Backup(), k);
    var moved := (d.trees - {r.Target()})[aside := d.trees[r.Target()]];
    var back := (moved - {r.Backup()})[r.Target() := d.trees[r.Backup()]];
    AroundPut(d0, r, d.trees, r.Target(), Torn(None));
    AroundPut(d0, r, d.trees - {r.Target()}, aside, d.trees[r.Target()]);
    AroundPut(d0, r, moved, r.Backup(), Torn(None));
    AroundPut(d0, r, moved - {r.Backup()}, r.Target(), d.trees[r.Backup()]);
    AroundPut(d0, r, back, aside, Torn(None));
    AroundPut(d0, r, back[aside := Torn(None)], aside, Torn(None));
  }

  lemma MoveAsidePrefix(d: Disk, target: Path, aside: Path, snap: Path, k: nat)
    requires target in d.trees && snap in d.trees && aside !in d.trees && target != snap && k <= 4
    ensures RunFor(d, [Rename(target, aside), Rename(snap, target), WriteTree(aside, Torn(None)), DropTree(aside)], k) ==
            d.(trees :=
              var moved := (d.trees - {target})[aside := d.trees[target]];
              var back := (moved - {snap})[target := d.trees[snap]];
              if k == 0 then d.trees else if k == 1 then moved else if k == 2 then back
              else if k == 3 then back[aside := Torn(None)] else back[aside := Torn(None)] - {aside})
  {
    hide RunFor;
    var part := [Rename(target, aside), Rename(snap, target), WriteTree(aside, Torn(None)), DropTree(aside)];
    RunNone(d, part);
    if k >= 1 { RunSnoc(d, part, 0); }
    if k >= 2 { RunSnoc(d, part, 1); }
    if k >= 3 { RunSnoc(d, part, 2); }
    if k >= 4 { RunSnoc(d, part, 3); }
  }

  lemma TakenProgram(d: Disk, r: Request)
    requires r.Staged() !in d.trees && r.Target() in d.trees && r.Backup() in d.trees
    ensures var aside := UniqueSibling(d, r.name);
            HandlerProgram(true, d, r, true) ==
            [Rename(r.Target(), aside), Rename(r.Backup(), r.Target()), WriteTree(aside, Torn(None)), DropTree(aside)] + Report(true, d, r)
  {
    hide Report, UniqueSibling;
  }

  /** Behind the swap of a first publish. */
  lemma FirstScene(d0: Disk, r: Request, d: Disk, k: nat)
    requires Quiet(d0, r) && Frame(d0, r, d) && NewInSlot(d0, r, d) && r.Target() !in d0.trees && k <= 3
    ensures var e := RunFor(d, HandlerProgram(false, d, r, true), k);
            && e.journals == d.journals && TreeAt(e, r.Staged()) == None
            && Shows(d0, r, e, RemovedTree(r, k), None)
  {
    hide Quiet, Frame, Around, HandlerProgram, RunFor, Report;
    AroundFailed(d0, r, d);
    AroundPut(d0, r, d.trees, r.Target(), Torn(r.txId));
    AroundPut(d0, r, d.trees, r.Target(), Torn(None));
    var part := RemoveTree(r.Target(), r.Tree());
    FirstProgram(d, r);
    RunConcat(d, part, Report(false, d, r), k);
    RunRemoveTree(d, r.Target(), r.Tree(), k);
  }

  lemma FirstProgram(d: Disk, r: Request)
    requires r.Staged() !in d.trees && r.Target() in d.trees && d.trees[r.Target()] == r.Tree() && r.Backup() !in d.trees
    ensures HandlerProgram(false, d, r, true) == RemoveTree(r.Target(), r.Tree()) + Report(false, d, r)
  {
    hide Report;
  }

  /** With nothing to undo. */
  lemma IdleScene(d0: Disk, r: Request, d: Disk, had: bool, k: nat)
    requires Quiet(d0, r) && Frame(d0, r, d) && Before(d0, r, d)
    ensures var e := RunFor(d, HandlerProgram(had, d, r, false), k);
            e.journals == d.journals && Shows(d0, r, e, TreeAt(d0, r.Target()), None)
  {
    hide Quiet, Frame, Around, RunFor, Undo, Report, Open, PointerSame;
    AroundFailed(d0, r, d);
    var prog := Cleanup(d, r.Staged());
    assert HandlerProgram(had, d, r, false) == prog + [] == prog;
    RunNone(d, prog);
    if k > |prog| { RunBeyond(d, prog, k); }
    if |prog| > 0 {
      var t := d.trees[r.Staged()];
      AroundPut(d0, r, d.trees, r.Staged(), Torn(t.txId));
      AroundPut(d0, r, d.trees, r.Staged(), Torn(None));
      RunRemoveTree(d, r.Staged(), t, if k <= 3 then k else 3);
    }
  }

  /** From the removal of the journal on, no tree moves any more. */
  lemma ReportScene(had: bool, d: Disk, d2: Disk, r: Request, j: nat)
    requires j >= 1
    ensures var e := RunFor(d2, Report(had, d, r), j);
            e.trees == d2.trees && e.journals == d2.journals - {r.publishId}
  {
    hide Replay, IndexOf;
    var rest := Report(had, d, r)[1..];
    assert Still(Report(had, d, r)) && Still(rest);
    StillKeepsTrees(d2, Report(had, d, r), j);
    JournalsKept(Apply(d2, DropTx(r.publishId)), rest, j - 1);
  }

  lemma {:induction false} JournalsKept(d: Disk, prog: seq<Cmd>, k: nat)
    requires forall i | 0 <= i < |prog| :: !prog[i].PutTx? && !prog[i].DropTx?
    ensures RunFor(d, prog, k).journals == d.journals
    decreases |prog|
  {
    if prog != [] && k > 0 {
      JournalStep(d, prog[0]);
      hide Apply;
      JournalsKept(Apply(d, prog[0]), prog[1..], k - 1);
    }
  }

  lemma JournalStep(d: Disk, c: Cmd)
    requires !c.PutTx? && !c.DropTx?
    ensures Apply(d, c).journals == d.journals
  {
  }

  // ---- the disk of every interruption ----

  function SlotScene(d0: Disk, r: Request, n: nat, k: nat): Option<Tree> {
    var old_ := TreeAt(d0, r.Target());
    if !Undoes(d0, r, n) then old_
    else if n <= SwapIndex(d0, r) then if k >= 4 then old_ else None
    else if old_.None? then RemovedTree(r, k)
    else if k == 0 then Some(r.Tree()) else if k == 1 then None else old_
  }

  function BackupScene(d0: Disk, r: Request, n: nat, k: nat): Option<Tree> {
    if !Undoes(d0, r, n) || k > (if n <= SwapIndex(d0, r) then 3 else 1) then None else TreeAt(d0, r.Target())
  }

  function StagedScene(d0: Disk, r: Request, n: nat, k: nat): Option<Tree> {
    if n > SwapIndex(d0, r) then None else RemovedTree(r, k)
  }

  ghost predicate JournalIs(d0: Disk, r: Request, e: Disk, n: nat) {
    r.publishId in e.journals && exists s | s in StatesAt(d0, r, n) ::
      e.journals[r.publishId] == r.Tx(s, Snap(d0, r)) || (!Undoes(d0, r, n) && e.journals[r.publishId] == r.Tx(s, None))
  }

  /** What publish had done when its step n failed. */
  lemma FailedAt(d0: Disk, r: Request, n: nat)
    requires Quiet(d0, r) && n < |PublishProgram(d0, r)|
    ensures var d := RunFor(d0, PublishProgram(d0, r), n);
            && Frame(d0, r, d)
            && (!Undoes(d0, r, n) ==> Before(d0, r, d))
            && (Undoes(d0, r, n) && n <= SwapIndex(d0, r) ==> Between(d0, r, d))
            && (n > SwapIndex(d0, r) ==> NewInSlot(d0, r, d))
            && (n >= 3 ==> JournalIs(d0, r, d, n)) && (n < 3 ==> r.publishId !in d.journals)
  {
    hide RunFor, Frame, Replay, IndexOf, Entry, Quiet;
    PrefixAt(d0, r, n);
    var d := RunFor(d0, PublishProgram(d0, r), n);
    if 3 <= n <= 4 && n <= SwapIndex(d0, r) {
      assert Prepared in StatesAt(d0, r, n);
    }
  }

  lemma SceneAt(d0: Disk, r: Request, n: nat, k: nat)
    requires Quiet(d0, r) && n < |PublishProgram(d0, r)| && (Undoes(d0, r, n) ==> k <= UndoSteps(d0, r, n))
    ensures var e := Interrupted(d0, r, n, k);
            && e.journals == RunFor(d0, PublishProgram(d0, r), n).journals
            && Shows(d0, r, e, SlotScene(d0, r, n, k), BackupScene(d0, r, n, k))
            && (Undoes(d0, r, n) ==> TreeAt(e, r.Staged()) == StagedScene(d0, r, n, k))
  {
    hide RunFor, PublishProgram, HandlerProgram, Quiet, Frame, Before, Between, NewInSlot, JournalIs, Shows, SwapIndex;
    FailedAt(d0, r, n);
    var d := RunFor(d0, PublishProgram(d0, r), n);
    if !Undoes(d0, r, n) {
      IdleScene(d0, r, d, r.Target() in d0.trees, k);
    } else if n <= SwapIndex(d0, r) {
      GapScene(d0, r, d, k);
    } else if r.Target() in d0.trees {
      TakenScene(d0, r, d, k);
    } else {
      FirstScene(d0, r, d, k);
    }
  }

  /** Once the journal is gone, nothing changes any more. */
  lemma SceneAfter(d0: Disk, r: Request, n: nat, k: nat)
    requires Quiet(d0, r) && n < |PublishProgram(d0, r)| && Undoes(d0, r, n) && k > UndoSteps(d0, r, n)
    ensures var e, f := Interrupted(d0, r, n, k), Interrupted(d0, r, n, UndoSteps(d0, r, n));
            e.journals == f.journals - {r.publishId} && e.trees == f.trees
  {
    hide RunFor, PublishProgram, Quiet, Frame, Before, JournalIs, Report, Replay, IndexOf, Entry;
    FailedAt(d0, r, n);
    var d := RunFor(d0, PublishProgram(d0, r), n);
    var had := r.Target() in d0.trees;
    var part := Cleanup(d, r.Staged()) + Undo(d, r);
    UndoLength(d0, r, d, n);
    assert HandlerProgram(had, d, r, n > SwapIndex(d0, r)) == part + Report(had, d, r);
    RunConcat(d, part, Report(had, d, r), k);
    RunConcat(d, part, Report(had, d, r), |part|);
    RunNone(Run(d, part), Report(had, d, r));
    ReportScene(had, d, Run(d, part), r, k - |part|);
  }

  lemma UndoLength(d0: Disk, r: Request, d: Disk, n: nat)
    requires Undoes(d0, r, n) && (n <= SwapIndex(d0, r) ==> Between(d0, r, d)) && (n > SwapIndex(d0, r) ==> NewInSlot(d0, r, d))
    ensures |Cleanup(d, r.Staged()) + Undo(d, r)| == UndoSteps(d0, r, n)
    ensures r.Backup() in d.trees || n > SwapIndex(d0, r)
  {
    hide UniqueSibling, Open, PointerSame;
  }

  // ---- theorem ----

  /** Power loss in the except block, complete: whichever step n of publish failed and before whichever step k of the
      except block power is lost. Recovery of the journal, if it is still there, refuses exactly when Blocked says so;
      the slot then holds exactly what FateOf says, and no tree is lost. */
  lemma HandlerPowerLoss(d0: Disk, r: Request, n: nat, k: nat)
    requires Quiet(d0, r) && n < |PublishProgram(d0, r)|
    ensures var e := Interrupted(d0, r, n, k);
            && (r.publishId in e.journals <==> StillOpen(d0, r, n, k))
            && (StillOpen(d0, r, n, k) ==>
                  var rec := RecoverOne(e, e.journals[r.publishId]);
                  var f := Run(e, rec.cmds);
                  && (rec.ok <==> !Blocked(d0, r, n, k))
                  && SlotIs(d0, r, FateOf(d0, r, n, k), TreeAt(f, r.Target())) && NothingLost(d0, r, f))
            && (!StillOpen(d0, r, n, k) ==>
                  SlotIs(d0, r, FateOf(d0, r, n, k), TreeAt(e, r.Target())) && NothingLost(d0, r, e))
  {
    hide RunFor, PublishProgram, Quiet, Frame, Before, Between, NewInSlot, RecoverOne, Interrupted, Decide;
    FailedAt(d0, r, n);
    var m := if Undoes(d0, r, n) && k > UndoSteps(d0, r, n) then UndoSteps(d0, r, n) else k;
    SceneAt(d0, r, n, m);
    if m < k {
      SceneAfter(d0, r, n, k);
    }
    if StillOpen(d0, r, n, k) {
      OpenDecides(d0, r, n, k, Interrupted(d0, r, n, k));
    } else {
      ClosedKeeps(d0, r, n, m, Interrupted(d0, r, n, k));
    }
  }

  lemma ClosedKeeps(d0: Disk, r: Request, n: nat, m: nat, e: Disk)
    requires Quiet(d0, r) && Shows(d0, r, e, SlotScene(d0, r, n, m), BackupScene(d0, r, n, m))
    requires if Undoes(d0, r, n) then m == UndoSteps(d0, r, n) else n < 3
    ensures forall k | k >= m && (Undoes(d0, r, n) ==> k > m) :: SlotIs(d0, r, FateOf(d0, r, n, k), TreeAt(e, r.Target()))
    ensures NothingLost(d0, r, e)
  {
    hide Quiet, SwapIndex;
  }

  lemma OpenDecides(d0: Disk, r: Request, n: nat, k: nat, e: Disk)
    requires Quiet(d0, r) && n < |PublishProgram(d0, r)| && StillOpen(d0, r, n, k) && JournalIs(d0, r, e, n)
    requires Shows(d0, r, e, SlotScene(d0, r, n, k), BackupScene(d0, r, n, k))
    requires Undoes(d0, r, n) ==> TreeAt(e, r.Staged()) == StagedScene(d0, r, n, k)
    ensures var rec := RecoverOne(e, e.journals[r.publishId]);
            var f := Run(e, rec.cmds);
            && (rec.ok <==> !Blocked(d0, r, n, k))
            && SlotIs(d0, r, FateOf(d0, r, n, k), TreeAt(f, r.Target())) && NothingLost(d0, r, f)
  {
    hide RunFor, RecoverOne, PublishProgram, StaleJournal, Logged;
    var tx := e.journals[r.publishId];
    RecoverDecides(e, tx);
    hide Conserves;
    Verdicts(d0, r, n, k, e, tx);
    var f := Run(e, RecoverOne(e, tx).cmds);
    Survives(d0, r, n, k, e, tx, f);
  }

  lemma Verdicts(d0: Disk, r: Request, n: nat, k: nat, e: Disk, tx: PublishTx)
    requires n < SwapIndex(d0, r) + 7 && StillOpen(d0, r, n, k) && JournalIs(d0, r, e, n) && tx == e.journals[r.publishId]
    requires Shows(d0, r, e, SlotScene(d0, r, n, k), BackupScene(d0, r, n, k))
    requires Undoes(d0, r, n) ==> TreeAt(e, r.Staged()) == StagedScene(d0, r, n, k)
    ensures Decide(e, tx).ok <==> !Blocked(d0, r, n, k)
    ensures SlotIs(d0, r, FateOf(d0, r, n, k), Decide(e, tx).slot)
  {
  }

  lemma Survives(d0: Disk, r: Request, n: nat, k: nat, e: Disk, tx: PublishTx, f: Disk)
    requires Quiet(d0, r) && JournalIs(d0, r, e, n) && tx == e.journals[r.publishId]
    requires Shows(d0, r, e, SlotScene(d0, r, n, k), BackupScene(d0, r, n, k)) && Conserves(e, tx, f)
    requires SlotIs(d0, r, FateOf(d0, r, n, k), TreeAt(f, r.Target()))
    ensures NothingLost(d0, r, f)
  {
    hide StaleJournal, Logged;
    assert r.Backup() !in d0.trees;
  }

  // ---- the whole restart ----

  /** The journals of other attempts are leftovers of earlier failures that moved nothing. */
  ghost predicate OthersStale(r: Request, e: Disk) {
    forall id | id in e.journals && id != r.publishId :: StaleJournal(e, id, r.now)
  }

  ghost predicate IsOwn(r: Request, tx: PublishTx) {
    tx.name == r.name && tx.staging == r.Staged() && (tx.snapshot.Some? ==> tx.snapshot.value == r.Backup()) && tx.publishId == r.publishId
  }

  /** Recovery has let go of a journal and touched nothing that another one names. */
  lemma StaleRecovery(r: Request, e: Disk, tx: PublishTx)
    requires OthersStale(r, e) && tx.publishId in e.journals && e.journals[tx.publishId] == tx && tx.publishId != r.publishId
    ensures var rec := RecoverOne(e, tx);
            rec.ok && |rec.cmds| <= 4
            && Run(e, rec.cmds) == e.(trees := e.trees - {tx.staging}, journals := e.journals - {tx.publishId})
            && tx.staging.Staging? && tx.staging != r.Staged()
  {
    assert StaleJournal(e, tx.publishId, r.now);
    var clean, drop := Cleanup(e, tx.staging), [DropTx(tx.publishId)];
    assert RecoverOne(e, tx) == Recovery(clean + drop, true);
    RunConcat(e, clean, drop, |clean + drop|);
    RunCleanup(e, tx.staging);
    RunSnoc(Run(e, clean), drop, 0);
  }

  lemma FewerStale(r: Request, e: Disk, f: Disk, gone: Id)
    requires OthersStale(r, e) && f.journals - {gone} == e.journals - {gone} && (gone == r.publishId || gone !in f.journals)
    requires forall p | p in f.trees && p.Snapshot? :: p in e.trees
    ensures OthersStale(r, f)
  {
    forall id | id in f.journals && id != r.publishId ensures StaleJournal(f, id, r.now) {
      assert id in f.journals - {gone} && id in e.journals - {gone};
      assert f.journals[id] == (f.journals - {gone})[id] == e.journals[id];
      assert StaleJournal(e, id, r.now);
    }
  }

  lemma SameVerdict(r: Request, e: Disk, f: Disk, own: PublishTx)
    requires IsOwn(r, own) && TreeAt(f, r.Target()) == TreeAt(e, r.Target())
    requires TreeAt(f, r.Backup()) == TreeAt(e, r.Backup()) && TreeAt(f, r.Staged()) == TreeAt(e, r.Staged())
    ensures Decide(f, own) == Decide(e, own)
  {
  }

  lemma OwnDropped(e: Disk, tx: PublishTx)
    requires RecoverOne(e, tx).ok
    ensures tx.publishId !in Run(e, RecoverOne(e, tx).cmds).journals && |RecoverOne(e, tx).cmds| <= 6
  {
    hide Replay, IndexOf, Logged, RunFor, Verifies;
    var prog := RecoverOne(e, tx).cmds;
    LastDrops(e, tx);
    RunSnoc(e, prog, |prog| - 1);
  }

  lemma LastDrops(e: Disk, tx: PublishTx)
    ensures var prog := RecoverOne(e, tx).cmds;
            |prog| <= 6 && (RecoverOne(e, tx).ok ==> prog != [] && prog[|prog| - 1] == DropTx(tx.publishId))
  {
    hide Replay, IndexOf, Logged, RunFor, Verifies;
  }

  /** No tree of e but staged ones and the slot's has gone, unless it is now in the slot. */
  ghost predicate Keeps(r: Request, e: Disk, f: Disk) {
    && (forall p: Path | p in e.trees && !p.Staging? && p != r.Target() && p != r.Backup() :: p in f.trees && f.trees[p] == e.trees[p])
    && (r.Backup() in e.trees ==> TreeAt(f, r.Backup()) == TreeAt(e, r.Backup()) || TreeAt(f, r.Target()) == TreeAt(e, r.Backup()))
  }

  /** With the own journal gone, or before its turn, the other journals change nothing that matters. */
  lemma {:induction false} StaleOnly(r: Request, e: Disk, txs: seq<PublishTx>, power: nat)
    requires Lists(txs, e.journals) && OthersStale(r, e) && r.publishId !in e.journals && power >= 6 * |txs|
    ensures var (f, s) := RecoverAll(e, txs, power);
            s == Ready && f.journals == map[]
            && forall p: Path | !p.Staging? :: TreeAt(f, p) == TreeAt(e, p)
    decreases |txs|
  {
    hide RunFor, RecoverOne, OthersStale, Lists;
    if txs == [] {
      NothingListed(e.journals);
    } else {
      PublishRecovery.ListsFirst(txs, e.journals);
      var g := Run(e, RecoverOne(e, txs[0]).cmds);
      StaleRecovery(r, e, txs[0]);
      FewerStale(r, e, g, txs[0].publishId);
      PublishRecovery.ListsTail(txs, e.journals);
      StaleOnly(r, g, txs[1..], power - |RecoverOne(e, txs[0]).cmds|);
    }
  }

  lemma NothingListed(journals: map<Id, PublishTx>)
    requires Lists([], journals)
    ensures journals == map[]
  {
  }

  /** A whole restart decides as the recovery of the one journal does. */
  lemma {:induction false} RestartDecides(r: Request, e: Disk, txs: seq<PublishTx>, power: nat)
    requires Lists(txs, e.journals) && OthersStale(r, e) && power >= 6 * |txs|
    requires r.publishId in e.journals && IsOwn(r, e.journals[r.publishId])
    ensures var own := e.journals[r.publishId];
            var (f, s) := RecoverAll(e, txs, power);
            && s == (if Decide(e, own).ok then Ready else Stuck) && (s == Ready ==> f.journals == map[])
            && TreeAt(f, r.Target()) == Decide(e, own).slot && Keeps(r, e, f)
    decreases |txs|
  {
    hide RunFor, RecoverOne, OthersStale, Lists, Decide, Conserves, Keeps;
    if txs == [] {
      NothingListed(e.journals);
    } else {
      var own := e.journals[r.publishId];
      PublishRecovery.ListsFirst(txs, e.journals);
      PublishRecovery.ListsTail(txs, e.journals);
      var rec := RecoverOne(e, txs[0]);
      var g := Run(e, rec.cmds);
      if txs[0].publishId == r.publishId {
        OwnFirst(r, e, txs, power);
      } else {
        StaleRecovery(r, e, txs[0]);
        FewerStale(r, e, g, txs[0].publishId);
        SameVerdict(r, e, g, own);
        RestartDecides(r, g, txs[1..], power - |rec.cmds|);
        StaleKeeps(r, e, txs[0], g, RecoverAll(g, txs[1..], power - |rec.cmds|).0);
      }
    }
  }

  lemma StaleKeeps(r: Request, e: Disk, tx: PublishTx, g: Disk, f: Disk)
    requires g == e.(trees := e.trees - {tx.staging}, journals := e.journals - {tx.publishId}) && tx.staging.Staging?
    requires Keeps(r, g, f)
    ensures Keeps(r, e, f)
  {
  }

  lemma OwnFirst(r: Request, e: Disk, txs: seq<PublishTx>, power: nat)
    requires txs != [] && Lists(txs, e.journals) && OthersStale(r, e) && power >= 6 * |txs|
    requires txs[0].publishId == r.publishId && r.publishId in e.journals && IsOwn(r, e.journals[r.publishId])
    ensures var own := e.journals[r.publishId];
            var (f, s) := RecoverAll(e, txs, power);
            && s == (if Decide(e, own).ok then Ready else Stuck) && (s == Ready ==> f.journals == map[])
            && TreeAt(f, r.Target()) == Decide(e, own).slot && Keeps(r, e, f)
  {
    hide RunFor, RecoverOne, OthersStale, Lists, Decide;
    var own := e.journals[r.publishId];
    PublishRecovery.ListsFirst(txs, e.journals);
    PublishRecovery.ListsTail(txs, e.journals);
    var rec := RecoverOne(e, own);
    var g := Run(e, rec.cmds);
    RecoverDecides(e, own);
    LastDrops(e, own);
    if rec.ok {
      OwnDropped(e, own);
      PublishRecovery.RecoverOneTouches(e, own);
      PublishRecovery.OtherJournalsKept(e, rec.cmds, r.publishId);
      assert g.journals == g.journals - {r.publishId};
      FewerStale(r, e, g, r.publishId);
      StaleOnly(r, g, txs[1..], power - |rec.cmds|);
    }
  }

  lemma OthersAtCrash(d0: Disk, r: Request, n: nat, k: nat)
    requires Quiet(d0, r) && n < |PublishProgram(d0, r)|
    ensures var e := Interrupted(d0, r, n, k);
            OthersStale(r, e) && (r.publishId in e.journals ==> IsOwn(r, e.journals[r.publishId]))
  {
    hide RunFor, PublishProgram, Before, Between, NewInSlot, Interrupted, SlotScene, BackupScene, StaleJournal, Logged;
    FailedAt(d0, r, n);
    var m := if Undoes(d0, r, n) && k > UndoSteps(d0, r, n) then UndoSteps(d0, r, n) else k;
    SceneAt(d0, r, n, m);
    if m < k { SceneAfter(d0, r, n, k); }
    var d, e := RunFor(d0, PublishProgram(d0, r), n), Interrupted(d0, r, n, k);
    forall id | id in e.journals && id != r.publishId ensures StaleJournal(e, id, r.now) {
      assert id in d.journals && e.journals[id] == d.journals[id] == d0.journals[id];
      assert StaleJournal(d0, id, r.now);
      StaleThere(d0, r, e, id);
    }
  }

  lemma StaleThere(d0: Disk, r: Request, e: Disk, id: Id)
    requires id in d0.journals && id in e.journals && e.journals[id] == d0.journals[id] && StaleJournal(d0, id, r.now)
    requires forall p: Path | p in e.trees && p.Snapshot? && p != r.Backup() :: p in d0.trees
    ensures StaleJournal(e, id, r.now)
  {
  }

  lemma KeptIsNotLost(d0: Disk, r: Request, n: nat, k: nat, e: Disk, f: Disk)
    requires Quiet(d0, r) && Shows(d0, r, e, SlotScene(d0, r, n, k), BackupScene(d0, r, n, k)) && Keeps(r, e, f)
    requires SlotIs(d0, r, FateOf(d0, r, n, k), TreeAt(f, r.Target()))
    ensures NothingLost(d0, r, f)
  {
    hide StaleJournal, Logged;
    assert r.Backup() !in d0.trees;
  }

  /** Power loss in the except block and a full restart, with every other journal there may be: startup gives up exactly
      when Blocked says so, the slot holds exactly what FateOf says, and no tree is lost. */
  lemma HandlerRestart(d0: Disk, r: Request, n: nat, k: nat, txs: seq<PublishTx>, power: nat)
    requires Quiet(d0, r) && n < |PublishProgram(d0, r)|
    requires Lists(txs, Interrupted(d0, r, n, k).journals) && power >= 6 * |txs|
    ensures var (f, s) := RecoverAll(Interrupted(d0, r, n, k), txs, power);
            && s == (if StillOpen(d0, r, n, k) && Blocked(d0, r, n, k) then Stuck else Ready)
            && (s == Ready ==> f.journals == map[])
            && SlotIs(d0, r, FateOf(d0, r, n, k), TreeAt(f, r.Target())) && NothingLost(d0, r, f)
  {
    hide RunFor, PublishProgram, Lists, RecoverAll, Interrupted, RecoverOne, Decide;
    var e := Interrupted(d0, r, n, k);
    HandlerPowerLoss(d0, r, n, k);
    OthersAtCrash(d0, r, n, k);
    if StillOpen(d0, r, n, k) {
      RecoverDecides(e, e.journals[r.publishId]);
      RestartDecides(r, e, txs, power);
      SceneAt(d0, r, n, k);
      KeptIsNotLost(d0, r, n, k, e, RecoverAll(e, txs, power).0);
    } else {
      StaleOnly(r, e, txs, power);
    }
  }
}
