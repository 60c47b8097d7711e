/** What any number of power losses can do to a publication: the slot is always the old tree or
    the complete new one once recovery has run to its end. */
module PublishAtomicity {
  import opened Knowledge
  import opened Storage
  import opened PublishProtocol

  /** A journal that an earlier failure left behind before anything was moved. */
  ghost predicate StaleJournal(d: Disk, id: Id, now: Stamp)
    requires id in d.journals
  {
    var tx := d.journals[id];
    && tx.publishId == id && tx.state == Prepared
    && tx.staging.Staging? && tx.staging.at < now
    && (tx.snapshot.Some? ==> tx.snapshot.value.Snapshot? && tx.snapshot.value.at < now && tx.snapshot.value !in d.trees)
  }

  /** The state a publish may start from: its stamp and ids are new, other journals are stale. */
  ghost predicate Quiet(d: Disk, r: Request) {
    && (forall p | p in d.trees && (p.Snapshot? || p.Staging?) :: p.at < r.now)
    && r.publishId !in d.journals
    && !Logged(d.log, r.publishId)
    && (forall id | id in d.journals :: StaleJournal(d, id, r.now))
  }

  ghost predicate SameAt(d0: Disk, d: Disk, p: Path) {
    (p in d0.trees <==> p in d.trees) && (p in d0.trees ==> d.trees[p] == d0.trees[p])
  }

  /** Everything outside the publication: other trees, pointers, journals and the Update state. */
  ghost predicate Frame(d0: Disk, r: Request, d: Disk) {
    && (forall p | p != r.Target() && p != r.Backup() && !p.Staging? :: SameAt(d0, d, p))
    && (forall id | id in d.journals && id != r.publishId :: id in d0.journals && d.journals[id] == d0.journals[id])
    && (forall n | n != r.name :: n in d.pointers <==> n in d0.pointers)
    && (forall n | n != r.name && n in d.pointers :: d.pointers[n] == d0.pointers[n])
    && d.updates == d0.updates && d.schema == d0.schema && d.schemaSnaps == d0.schemaSnaps
  }

  ghost predicate Open(d0: Disk, r: Request, d: Disk, states: set<PublishState>) {
    r.publishId in d.journals && exists s | s in states :: d.journals[r.publishId] == r.Tx(s, Snap(d0, r))
  }

  ghost predicate PointerSame(d0: Disk, r: Request, d: Disk) {
    (r.name in d.pointers <==> r.name in d0.pointers) && (r.name in d.pointers ==> d.pointers[r.name] == d0.pointers[r.name])
  }

  ghost predicate PointerNew(r: Request, d: Disk) { r.name in d.pointers && d.pointers[r.name] == NewPointer(r) }

  /** Nothing moved yet. */
  ghost predicate Before(d0: Disk, r: Request, d: Disk) {
    && SameAt(d0, d, r.Target()) && r.Backup() !in d.trees
    && (r.publishId in d.journals ==>
          d.journals[r.publishId] == r.Tx(Prepared, None) || d.journals[r.publishId] == r.Tx(Prepared, Snap(d0, r)))
    && PointerSame(d0, r, d) && d.log == d0.log && d.index == d0.index
  }

  /** The old tree is in its snapshot and the slot is free. */
  ghost predicate Between(d0: Disk, r: Request, d: Disk) {
    && r.Target() in d0.trees && r.Target() !in d.trees
    && r.Backup() in d.trees && d.trees[r.Backup()] == d0.trees[r.Target()]
    && r.Staged() in d.trees && d.trees[r.Staged()] == r.Tree()
    && Open(d0, r, d, {Prepared, Snapshotted})
    && PointerSame(d0, r, d) && d.log == d0.log && d.index == d0.index
  }

  /** The new tree is in the slot and the old one, if any, in its snapshot. */
  ghost predicate NewInSlot(d0: Disk, r: Request, d: Disk) {
    && r.Target() in d.trees && d.trees[r.Target()] == r.Tree() && r.Staged() !in d.trees
    && (r.Target() in d0.trees ==> r.Backup() in d.trees && d.trees[r.Backup()] == d0.trees[r.Target()])
    && (r.Target() !in d0.trees ==> r.Backup() !in d.trees)
  }

  /** The tree was swapped in but the journal does not say so. */
  ghost predicate Unjournalled(d0: Disk, r: Request, d: Disk) {
    && NewInSlot(d0, r, d) && (r.publishId in d.journals ==> Open(d0, r, d, {Prepared, Snapshotted}))
    && PointerSame(d0, r, d) && d.log == d0.log && d.index == d0.index
  }

  ghost predicate AfterSwap(d0: Disk, r: Request, d: Disk) {
    && NewInSlot(d0, r, d) && Open(d0, r, d, {Swapped})
    && (PointerSame(d0, r, d) || PointerNew(r, d))
    && (d.log == d0.log || d.log == d0.log + [Entry(d0, r)])
    && (d.index == d0.index || d.index == Some(IndexOf(Replay(d0.log + [Entry(d0, r)]))))
  }

  /** Pointer, log and index all name the new tree. */
  ghost predicate Landed(d0: Disk, r: Request, d: Disk) {
    && NewInSlot(d0, r, d) && (r.publishId in d.journals ==> Open(d0, r, d, {Committed}))
    && PointerNew(r, d)
    && d.log == d0.log + [Entry(d0, r)]
    && d.index == Some(IndexOf(Replay(d0.log + [Entry(d0, r)])))
  }

  ghost predicate Phase(d0: Disk, r: Request, d: Disk) {
    Before(d0, r, d) || Between(d0, r, d) || Unjournalled(d0, r, d) || AfterSwap(d0, r, d) || Landed(d0, r, d)
  }

  ghost predicate InFlight(d0: Disk, r: Request, d: Disk) { Frame(d0, r, d) && Phase(d0, r, d) }

  // ---- the forward path ----

  /** Where the forward path stands after i steps. */
  ghost predicate At(d0: Disk, r: Request, d: Disk, i: nat) {
    && Frame(d0, r, d)
    && var swap := SwapIndex(d0, r);
       if i <= swap then
         && (2 <= i ==> r.Staged() in d.trees && d.trees[r.Staged()] == r.Tree())
         && (i < 3 ==> r.publishId !in d.journals)
         && (i >= 3 ==> r.publishId in d.journals)
         && (i == swap ==> Open(d0, r, d, {Prepared, Snapshotted}))
         && if i <= 4 then Before(d0, r, d) && (i == 4 ==> Open(d0, r, d, {Prepared})) else Between(d0, r, d)
       else if i == swap + 1 then Unjournalled(d0, r, d) && r.publishId in d.journals
       else if i <= swap + 5 then
         && AfterSwap(d0, r, d)
         && (i > swap + 2 ==> PointerNew(r, d))
         && (d.log == if i > swap + 3 then d0.log + [Entry(d0, r)] else d0.log)
         && (i > swap + 4 ==> d.index == Some(IndexOf(Replay(d0.log + [Entry(d0, r)]))))
       else Landed(d0, r, d) && (r.publishId in d.journals <==> i <= swap + 6)
  }

  lemma JournalWritten(d: Disk, c: Cmd)
    ensures c.PutTx? ==> c.tx.publishId in Apply(d, c).journals && Apply(d, c).journals[c.tx.publishId] == c.tx
  {
  }

  /** A step of publish that moves, writes or drops only what belongs to the publication. */
  predicate Own(r: Request, c: Cmd) {
    match c
    case Rename(a, b) => a in {r.Target(), r.Backup(), r.Staged()} && b in {r.Target(), r.Backup(), r.Staged()}
    case WriteTree(p, _) => p in {r.Target(), r.Backup(), r.Staged()}
    case DropTree(p) => p in {r.Target(), r.Backup(), r.Staged()}
    case PutTx(tx) => tx.publishId == r.publishId
    case DropTx(id) => id == r.publishId
    case PutPointer(n, _) => n == r.name
    case Append(_) => true
    case PutIndex(_) => true
    case _ => false
  }

  lemma OwnKeepsFrame(d0: Disk, r: Request, d: Disk, c: Cmd)
    requires Frame(d0, r, d) && Own(r, c)
    ensures Frame(d0, r, Apply(d, c))
  {
  }

  lemma StepIsOwn(d0: Disk, r: Request, i: nat)
    ensures Own(r, PublishStep(d0, r, i))
  {
    hide Replay, IndexOf, Entry;
  }

  lemma FrameStep(d0: Disk, r: Request, d: Disk, i: nat)
    requires Frame(d0, r, d)
    ensures Frame(d0, r, Apply(d, PublishStep(d0, r, i)))
  {
    hide Frame, Apply, PublishStep, Own;
    StepIsOwn(d0, r, i);
    OwnKeepsFrame(d0, r, d, PublishStep(d0, r, i));
  }

  lemma StepCompile(d0: Disk, r: Request, d: Disk, i: nat)
    requires At(d0, r, d, i) && i == 0
    ensures At(d0, r, Apply(d, PublishStep(d0, r, i)), i + 1)
  {
    hide Replay, IndexOf, Entry, Between, Unjournalled, AfterSwap, Landed, Frame;
    FrameStep(d0, r, d, i);
    JournalWritten(d, PublishStep(d0, r, i));
  }

  lemma StepCompiled(d0: Disk, r: Request, d: Disk, i: nat)
    requires At(d0, r, d, i) && i == 1
    ensures At(d0, r, Apply(d, PublishStep(d0, r, i)), i + 1)
  {
    hide Replay, IndexOf, Entry, Between, Unjournalled, AfterSwap, Landed, Frame;
    FrameStep(d0, r, d, i);
    JournalWritten(d, PublishStep(d0, r, i));
  }

  lemma StepPrepare(d0: Disk, r: Request, d: Disk, i: nat)
    requires At(d0, r, d, i) && i == 2
    ensures At(d0, r, Apply(d, PublishStep(d0, r, i)), i + 1)
  {
    hide Replay, IndexOf, Entry, Unjournalled, AfterSwap, Landed, Frame;
    FrameStep(d0, r, d, i);
    JournalWritten(d, PublishStep(d0, r, i));
  }

  lemma StepNote(d0: Disk, r: Request, d: Disk, i: nat)
    requires At(d0, r, d, i) && i == 3 < SwapIndex(d0, r)
    ensures At(d0, r, Apply(d, PublishStep(d0, r, i)), i + 1)
  {
    hide Replay, IndexOf, Entry, Unjournalled, AfterSwap, Landed, Frame;
    FrameStep(d0, r, d, i);
    JournalWritten(d, PublishStep(d0, r, i));
  }

  lemma StepAside(d0: Disk, r: Request, d: Disk, i: nat)
    requires At(d0, r, d, i) && i == 4 < SwapIndex(d0, r)
    ensures At(d0, r, Apply(d, PublishStep(d0, r, i)), i + 1)
  {
    hide Replay, IndexOf, Entry, Unjournalled, AfterSwap, Landed, Frame;
    FrameStep(d0, r, d, i);
    JournalWritten(d, PublishStep(d0, r, i));
  }

  lemma StepAsideNoted(d0: Disk, r: Request, d: Disk, i: nat)
    requires At(d0, r, d, i) && i == 5 < SwapIndex(d0, r)
    ensures At(d0, r, Apply(d, PublishStep(d0, r, i)), i + 1)
  {
    hide Replay, IndexOf, Entry, Unjournalled, AfterSwap, Landed, Frame;
    FrameStep(d0, r, d, i);
    JournalWritten(d, PublishStep(d0, r, i));
  }

  lemma StepSwap(d0: Disk, r: Request, d: Disk, i: nat)
    requires At(d0, r, d, i) && i == SwapIndex(d0, r)
    ensures At(d0, r, Apply(d, PublishStep(d0, r, i)), i + 1)
  {
    hide Replay, IndexOf, Entry, AfterSwap, Landed, Frame;
    FrameStep(d0, r, d, i);
  }

  lemma StepSwapped(d0: Disk, r: Request, d: Disk, i: nat)
    requires At(d0, r, d, i) && i == SwapIndex(d0, r) + 1
    ensures At(d0, r, Apply(d, PublishStep(d0, r, i)), i + 1)
  {
    hide Replay, IndexOf, Entry, Before, Between, Landed, Frame;
    FrameStep(d0, r, d, i);
    JournalWritten(d, PublishStep(d0, r, i));
  }

  lemma StepPointer(d0: Disk, r: Request, d: Disk, i: nat)
    requires At(d0, r, d, i) && i == SwapIndex(d0, r) + 2
    ensures At(d0, r, Apply(d, PublishStep(d0, r, i)), i + 1)
  {
    hide Replay, IndexOf, Entry, Before, Between, Unjournalled, Landed, Frame;
    FrameStep(d0, r, d, i);
    JournalWritten(d, PublishStep(d0, r, i));
  }

  lemma StepLog(d0: Disk, r: Request, d: Disk, i: nat)
    requires At(d0, r, d, i) && i == SwapIndex(d0, r) + 3
    ensures At(d0, r, Apply(d, PublishStep(d0, r, i)), i + 1)
  {
    hide Replay, IndexOf, Entry, Before, Between, Unjournalled, Landed, Frame;
    FrameStep(d0, r, d, i);
    JournalWritten(d, PublishStep(d0, r, i));
  }

  lemma StepIndex(d0: Disk, r: Request, d: Disk, i: nat)
    requires At(d0, r, d, i) && i == SwapIndex(d0, r) + 4
    ensures At(d0, r, Apply(d, PublishStep(d0, r, i)), i + 1)
  {
    hide Replay, IndexOf, Entry, Before, Between, Unjournalled, Landed, Frame;
    FrameStep(d0, r, d, i);
    JournalWritten(d, PublishStep(d0, r, i));
  }

  lemma StepCommit(d0: Disk, r: Request, d: Disk, i: nat)
    requires At(d0, r, d, i) && SwapIndex(d0, r) + 5 <= i <= SwapIndex(d0, r) + 6
    ensures At(d0, r, Apply(d, PublishStep(d0, r, i)), i + 1)
  {
    hide Replay, IndexOf, Entry, Before, Between, Unjournalled, Frame;
    FrameStep(d0, r, d, i);
    JournalWritten(d, PublishStep(d0, r, i));
  }

  lemma StepAny(d0: Disk, r: Request, d: Disk, i: nat)
    requires At(d0, r, d, i) && i < SwapIndex(d0, r) + 7
    ensures At(d0, r, Apply(d, PublishStep(d0, r, i)), i + 1)
  {
    hide At, PublishStep, Apply;
    var swap := SwapIndex(d0, r);
    if i == 0 { StepCompile(d0, r, d, i); }
    else if i == 1 { StepCompiled(d0, r, d, i); }
    else if i == 2 { StepPrepare(d0, r, d, i); }
    else if i == 3 < swap { StepNote(d0, r, d, i); }
    else if i == 4 < swap { StepAside(d0, r, d, i); }
    else if i == 5 < swap { StepAsideNoted(d0, r, d, i); }
    else if i == swap { StepSwap(d0, r, d, i); }
    else if i == swap + 1 { StepSwapped(d0, r, d, i); }
    else if i == swap + 2 { StepPointer(d0, r, d, i); }
    else if i == swap + 3 { StepLog(d0, r, d, i); }
    else if i == swap + 4 { StepIndex(d0, r, d, i); }
    else { StepCommit(d0, r, d, i); }
  }

  lemma AtInFlight(d0: Disk, r: Request, d: Disk, i: nat)
    requires At(d0, r, d, i)
    ensures InFlight(d0, r, d)
  {
  }

  lemma {:induction false} PrefixAt(d0: Disk, r: Request, k: nat)
    requires Quiet(d0, r) && k <= SwapIndex(d0, r) + 7
    ensures At(d0, r, RunFor(d0, PublishProgram(d0, r), k), k)
  {
    if k > 0 {
      PrefixAt(d0, r, k - 1);
      var d := RunFor(d0, PublishProgram(d0, r), k - 1);
      RunSnoc(d0, PublishProgram(d0, r), k - 1);
      StepAny(d0, r, d, k - 1);
    }
  }

  /** Losing power before any step of a publish leaves it in flight; a publish that makes every
      step lands. */
  lemma PrefixInFlight(d0: Disk, r: Request, k: nat)
    requires Quiet(d0, r)
    ensures InFlight(d0, r, RunFor(d0, PublishProgram(d0, r), k))
    ensures Landed(d0, r, Run(d0, PublishProgram(d0, r)))
    ensures r.publishId !in Run(d0, PublishProgram(d0, r)).journals
  {
    var n := SwapIndex(d0, r) + 7;
    PrefixAt(d0, r, n);
    if k <= n { PrefixAt(d0, r, k); } else { RunBeyond(d0, PublishProgram(d0, r), k); }
    AtInFlight(d0, r, RunFor(d0, PublishProgram(d0, r), k), if k <= n then k else n);
  }

  // ---- recovery of this publication's own journal ----

  /** How a publication can end: never started, swapped in unrecorded, or swapped in and recorded. */
  ghost predicate Settled(d0: Disk, r: Request, d: Disk) {
    && Frame(d0, r, d) && r.publishId !in d.journals
    && (Before(d0, r, d) || Unjournalled(d0, r, d) || Landed(d0, r, d))
  }

  lemma LoggedAppend(log: seq<LogEntry>, e: LogEntry, id: Id)
    ensures Logged(log + [e], id) <==> Logged(log, id) || (e.publishId == Some(id) && e.success)
  {
    assert (log + [e])[|log|] == e;
    forall i | 0 <= i < |log| ensures (log + [e])[i] == log[i] {}
  }

  /** Recovery from the swapped state, after i of its steps. */
  ghost predicate Resumed(d0: Disk, r: Request, d: Disk, log: seq<LogEntry>, i: nat) {
    var full := d0.log + [Entry(d0, r)];
    var n := if log == full then 0 else 1;
    && Frame(d0, r, d)
    && (log == d0.log || log == full)
    && if i < n + 3 then
         && AfterSwap(d0, r, d) && (i >= 1 ==> PointerNew(r, d))
         && d.log == (if i >= n + 1 then full else log)
         && (i >= n + 2 ==> d.index == Some(IndexOf(Replay(full))))
       else Landed(d0, r, d) && r.publishId !in d.journals
  }

  lemma ResumeStep(d0: Disk, r: Request, d: Disk, log: seq<LogEntry>, i: nat, c: Cmd)
    requires Resumed(d0, r, d, log, i)
    requires var n := if log == d0.log + [Entry(d0, r)] then 0 else 1;
             i < n + 3 && c == if i == 0 then PutPointer(r.name, NewPointer(r))
                               else if i == n + 2 then DropTx(r.publishId)
                               else if i == n + 1 then PutIndex(IndexOf(Replay(d0.log + [Entry(d0, r)])))
                               else Append(Entry(d0, r))
    ensures Resumed(d0, r, Apply(d, c), log, i + 1)
  {
  }

  lemma ResumeProgram(d0: Disk, r: Request, d: Disk)
    requires Quiet(d0, r) && AfterSwap(d0, r, d)
    ensures var rec := RecoverSwapped(d, r.Tx(Swapped, Snap(d0, r)));
            var full := d0.log + [Entry(d0, r)];
            rec.ok && rec.cmds ==
              if d.log == full then [PutPointer(r.name, NewPointer(r)), PutIndex(IndexOf(Replay(full))), DropTx(r.publishId)]
              else [PutPointer(r.name, NewPointer(r)), Append(Entry(d0, r)), PutIndex(IndexOf(Replay(full))), DropTx(r.publishId)]
  {
    LoggedAppend(d0.log, Entry(d0, r), r.publishId);
  }

  lemma {:induction false} ResumePrefix(d0: Disk, r: Request, d: Disk, prog: seq<Cmd>, k: nat)
    requires Quiet(d0, r) && Frame(d0, r, d) && AfterSwap(d0, r, d)
    requires prog == RecoverSwapped(d, r.Tx(Swapped, Snap(d0, r))).cmds && k <= |prog|
    ensures Resumed(d0, r, RunFor(d, prog, k), d.log, k)
  {
    if k == 0 {
      hide RunFor, RecoverSwapped, Landed, Frame, Quiet, Replay, IndexOf, Entry;
      RunNone(d, prog);
    } else {
      hide RunFor, RecoverSwapped, AfterSwap, Landed, Frame, Quiet, Replay, IndexOf, Entry, Resumed;
      ResumePrefix(d0, r, d, prog, k - 1);
      RunSnoc(d, prog, k - 1);
      ResumeProgram(d0, r, d);
      ResumeStep(d0, r, RunFor(d, prog, k - 1), d.log, k - 1, prog[k - 1]);
    }
  }

  lemma Resume(d0: Disk, r: Request, d: Disk, k: nat)
    requires Quiet(d0, r) && Frame(d0, r, d) && AfterSwap(d0, r, d)
    ensures var rec := RecoverSwapped(d, r.Tx(Swapped, Snap(d0, r)));
            && rec.ok && 3 <= |rec.cmds| <= 4
            && InFlight(d0, r, RunFor(d, rec.cmds, k)) && NewInSlot(d0, r, RunFor(d, rec.cmds, k))
            && Landed(d0, r, Run(d, rec.cmds)) && Settled(d0, r, Run(d, rec.cmds))
  {
    var prog := RecoverSwapped(d, r.Tx(Swapped, Snap(d0, r))).cmds;
    ResumeProgram(d0, r, d);
    ResumePrefix(d0, r, d, prog, |prog|);
    if k <= |prog| { ResumePrefix(d0, r, d, prog, k); } else { RunBeyond(d, prog, k); }
  }

  lemma SwapStaged(d0: Disk, r: Request, d: Disk)
    requires Frame(d0, r, d) && Between(d0, r, d)
    ensures var e := Apply(d, Rename(r.Staged(), r.Target())); Frame(d0, r, e) && Unjournalled(d0, r, e)
  {
  }

  lemma MarkSwapped(d0: Disk, r: Request, d: Disk)
    requires Frame(d0, r, d) && Unjournalled(d0, r, d)
    ensures var e := Apply(d, PutTx(r.Tx(Swapped, Snap(d0, r)))); Frame(d0, r, e) && AfterSwap(d0, r, e)
  {
    JournalWritten(d, PutTx(r.Tx(Swapped, Snap(d0, r))));
  }

  lemma RunTwo(d: Disk, a: Cmd, b: Cmd)
    ensures RunFor(d, [a, b], 1) == Apply(d, a)
    ensures Run(d, [a, b]) == Apply(Apply(d, a), b)
  {
    RunSnoc(d, [a, b], 0);
    RunSnoc(d, [a, b], 1);
  }

  lemma FinishProgram(d0: Disk, r: Request, d: Disk)
    requires Between(d0, r, d)
    ensures var finish := [Rename(r.Staged(), r.Target()), PutTx(r.Tx(Swapped, Snap(d0, r)))];
            var rest := RecoverSwapped(Run(d, finish), r.Tx(Swapped, Snap(d0, r)));
            RecoverOne(d, d.journals[r.publishId]) == Recovery(finish + rest.cmds, rest.ok)
  {
  }

  /** From the gap between the two renames, recovery finishes the swap. */
  lemma FinishSwap(d0: Disk, r: Request, d: Disk, k: nat)
    requires Quiet(d0, r) && Frame(d0, r, d) && Between(d0, r, d)
    ensures var rec := RecoverOne(d, d.journals[r.publishId]);
            && rec.ok && |rec.cmds| <= 6
            && InFlight(d0, r, RunFor(d, rec.cmds, k)) && (k == 0 || NewInSlot(d0, r, RunFor(d, rec.cmds, k)))
            && Landed(d0, r, Run(d, rec.cmds)) && Settled(d0, r, Run(d, rec.cmds))
  {
    var a, b := Rename(r.Staged(), r.Target()), PutTx(r.Tx(Swapped, Snap(d0, r)));
    RunTwo(d, a, b);
    FinishProgram(d0, r, d);
    SwapStaged(d0, r, d);
    MarkSwapped(d0, r, Apply(d, a));
    var d2 := Run(d, [a, b]);
    var rest := RecoverSwapped(d2, r.Tx(Swapped, Snap(d0, r))).cmds;
    RunConcat(d, [a, b], rest, k);
    RunConcat(d, [a, b], rest, |[a, b] + rest|);
    Resume(d0, r, d2, if k >= 2 then k - 2 else 0);
  }

  ghost predicate Idle(d0: Disk, r: Request, d: Disk, before: bool) {
    Frame(d0, r, d) && if before then Before(d0, r, d) else Unjournalled(d0, r, d)
  }

  predicate IdleCmd(r: Request, before: bool, c: Cmd) {
    c == DropTx(r.publishId) || c == DropTree(r.Staged()) || (before && c.WriteTree? && c.path == r.Staged())
  }

  lemma IdleProgram(d0: Disk, r: Request, d: Disk, before: bool)
    requires Idle(d0, r, d, before)
    ensures var prog := Cleanup(d, r.Staged()) + [DropTx(r.publishId)];
            |prog| <= 4 && prog[|prog| - 1] == DropTx(r.publishId) && forall i | 0 <= i < |prog| :: IdleCmd(r, before, prog[i])
  {
    hide Frame, Replay, IndexOf, Entry;
  }

  lemma IdleStep(d0: Disk, r: Request, d: Disk, before: bool, c: Cmd)
    requires Idle(d0, r, d, before)
    requires IdleCmd(r, before, c)
    ensures Idle(d0, r, Apply(d, c), before)
  {
  }

  lemma {:induction false} IdlePrefix(d0: Disk, r: Request, d: Disk, before: bool, prog: seq<Cmd>, k: nat)
    requires Idle(d0, r, d, before) && prog == Cleanup(d, r.Staged()) + [DropTx(r.publishId)] && k <= |prog|
    ensures Idle(d0, r, RunFor(d, prog, k), before)
    ensures k == |prog| ==> r.publishId !in RunFor(d, prog, k).journals
  {
    hide RunFor, Cleanup, IdleCmd;
    RunNone(d, prog);
    if k > 0 {
      hide Idle;
      IdlePrefix(d0, r, d, before, prog, k - 1);
      RunSnoc(d, prog, k - 1);
      IdleProgram(d0, r, d, before);
      IdleStep(d0, r, RunFor(d, prog, k - 1), before, prog[k - 1]);
    }
  }

  lemma ClearProgram(d0: Disk, r: Request, d: Disk, before: bool)
    requires r.publishId in d.journals && Idle(d0, r, d, before)
    ensures RecoverOne(d, d.journals[r.publishId]) == Recovery(Cleanup(d, r.Staged()) + [DropTx(r.publishId)], true)
  {
  }

  /** When the slot is as the journal found it, or already holds the new tree, recovery only
      clears the staging directory and the journal. */
  lemma ClearJournal(d0: Disk, r: Request, d: Disk, before: bool, k: nat)
    requires r.publishId in d.journals && Idle(d0, r, d, before)
    ensures var rec := RecoverOne(d, d.journals[r.publishId]);
            && rec.ok && |rec.cmds| <= 4
            && InFlight(d0, r, RunFor(d, rec.cmds, k)) && Settled(d0, r, Run(d, rec.cmds))
            && Idle(d0, r, RunFor(d, rec.cmds, k), before) && Idle(d0, r, Run(d, rec.cmds), before)
  {
    var prog := RecoverOne(d, d.journals[r.publishId]).cmds;
    ClearProgram(d0, r, d, before);
    IdlePrefix(d0, r, d, before, prog, |prog|);
    if k <= |prog| { IdlePrefix(d0, r, d, before, prog, k); } else { RunBeyond(d, prog, k); }
  }
}
