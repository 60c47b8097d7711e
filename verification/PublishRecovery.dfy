/** Startup recovery over every open journal, any number of power losses inside it, and what a
    caller sees at the end. */
module PublishRecovery {
  import opened Knowledge
  import opened Storage
  import opened PublishProtocol
  import opened PublishAtomicity

  /** How recovery ends is decided by where the power loss left the publication. */
  ghost predicate Resolves(d0: Disk, r: Request, d: Disk, e: Disk) {
    && Settled(d0, r, e)
    && (Before(d0, r, d) ==> Before(d0, r, e))
    && (Between(d0, r, d) || AfterSwap(d0, r, d) || Landed(d0, r, d) ==> Landed(d0, r, e))
    && (Unjournalled(d0, r, d) ==> Unjournalled(d0, r, e))
  }

  lemma Exclusive(d0: Disk, r: Request, d: Disk)
    requires Phase(d0, r, d)
    ensures Before(d0, r, d) ==> !Between(d0, r, d) && !Unjournalled(d0, r, d) && !AfterSwap(d0, r, d) && !Landed(d0, r, d)
    ensures Between(d0, r, d) ==> !Unjournalled(d0, r, d) && !AfterSwap(d0, r, d) && !Landed(d0, r, d)
    ensures Unjournalled(d0, r, d) ==> !AfterSwap(d0, r, d) && !Landed(d0, r, d)
    ensures AfterSwap(d0, r, d) ==> !Landed(d0, r, d)
  {
    assert |d0.log + [Entry(d0, r)]| == |d0.log| + 1;
  }

  /** Recovery never takes back a move, and never makes the first one. */
  ghost predicate Progress(d0: Disk, r: Request, d: Disk, e: Disk) {
    (Before(d0, r, d) <==> Before(d0, r, e)) && (Landed(d0, r, d) ==> Landed(d0, r, e))
  }

  lemma RecoverOwn(d0: Disk, r: Request, d: Disk, k: nat)
    requires Quiet(d0, r) && InFlight(d0, r, d) && r.publishId in d.journals
    ensures var rec := RecoverOne(d, d.journals[r.publishId]);
            && rec.ok && |rec.cmds| <= 6
            && InFlight(d0, r, RunFor(d, rec.cmds, k)) && Resolves(d0, r, d, Run(d, rec.cmds))
            && Progress(d0, r, d, RunFor(d, rec.cmds, k))
  {
    hide RecoverOne, Before, Between, Unjournalled, AfterSwap, Landed, NewInSlot, RunFor, Quiet, Frame;
    Exclusive(d0, r, d);
    OwnPhases(d0, r, d);
    RunNone(d, RecoverOne(d, d.journals[r.publishId]).cmds);
    var e := RunFor(d, RecoverOne(d, d.journals[r.publishId]).cmds, k);
    OwnPhases(d0, r, e);
    if Before(d0, r, d) { ClearJournal(d0, r, d, true, k); }
    else if Between(d0, r, d) { FinishSwap(d0, r, d, k); }
    else if Unjournalled(d0, r, d) { ClearJournal(d0, r, d, false, k); }
    else if AfterSwap(d0, r, d) { ResumeOwn(d0, r, d, k); }
    else { DropCommitted(d0, r, d, k); }
  }

  lemma OwnPhases(d0: Disk, r: Request, d: Disk)
    ensures Between(d0, r, d) || Unjournalled(d0, r, d) || AfterSwap(d0, r, d) || Landed(d0, r, d) || NewInSlot(d0, r, d) ==> !Before(d0, r, d)
  {
    hide Open, PointerSame, Replay, IndexOf;
  }

  lemma ResumeOwn(d0: Disk, r: Request, d: Disk, k: nat)
    requires Quiet(d0, r) && Frame(d0, r, d) && AfterSwap(d0, r, d)
    ensures var rec := RecoverOne(d, d.journals[r.publishId]);
            && rec == RecoverSwapped(d, r.Tx(Swapped, Snap(d0, r)))
            && rec.ok && |rec.cmds| <= 4
            && InFlight(d0, r, RunFor(d, rec.cmds, k)) && NewInSlot(d0, r, RunFor(d, rec.cmds, k))
            && Landed(d0, r, Run(d, rec.cmds)) && Settled(d0, r, Run(d, rec.cmds))
  {
    Resume(d0, r, d, k);
    hide RecoverSwapped, Quiet, Frame, RunFor, Landed, Settled, InFlight, Replay, IndexOf;
  }

  lemma DropCommitted(d0: Disk, r: Request, d: Disk, k: nat)
    requires Frame(d0, r, d) && Landed(d0, r, d) && r.publishId in d.journals
    ensures var rec := RecoverOne(d, d.journals[r.publishId]);
            && rec.ok && |rec.cmds| == 1
            && InFlight(d0, r, RunFor(d, rec.cmds, k)) && Landed(d0, r, RunFor(d, rec.cmds, k))
            && Settled(d0, r, Run(d, rec.cmds)) && Landed(d0, r, Run(d, rec.cmds))
  {
    hide Replay, IndexOf, Entry, RunFor, Before, Between, Unjournalled, AfterSwap;
    RunNone(d, [DropTx(r.publishId)]);
    RunSnoc(d, [DropTx(r.publishId)], 0);
    if k > 1 { RunBeyond(d, [DropTx(r.publishId)], k); }
  }

  // ---- journals of earlier failures ----

  /** The two disks agree on everything that decides the phase. */
  ghost predicate SameCore(r: Request, d: Disk, e: Disk) {
    && SameAt(d, e, r.Target()) && SameAt(d, e, r.Backup()) && SameAt(d, e, r.Staged())
    && (r.publishId in d.journals <==> r.publishId in e.journals)
    && (r.publishId in d.journals ==> e.journals[r.publishId] == d.journals[r.publishId])
    && PointerSame(d, r, e) && e.log == d.log && e.index == d.index
  }

  lemma CoreKeepsPhase(d0: Disk, r: Request, d: Disk, e: Disk)
    requires SameCore(r, d, e) && Phase(d0, r, d)
    ensures Before(d0, r, d) ==> Before(d0, r, e)
    ensures Between(d0, r, d) ==> Between(d0, r, e)
    ensures Unjournalled(d0, r, d) ==> Unjournalled(d0, r, e)
    ensures AfterSwap(d0, r, d) ==> AfterSwap(d0, r, e)
    ensures Landed(d0, r, d) ==> Landed(d0, r, e)
  {
  }

  predicate StaleCmd(tx: PublishTx, c: Cmd) {
    c == DropTree(tx.staging) || c == DropTx(tx.publishId) || (c.WriteTree? && c.path == tx.staging)
  }

  lemma StaleCmds(d: Disk, tx: PublishTx)
    ensures forall c | c in Cleanup(d, tx.staging) + [DropTx(tx.publishId)] :: StaleCmd(tx, c)
  {
  }

  lemma StaleFrame(d0: Disk, r: Request, e: Disk, tx: PublishTx, c: Cmd)
    requires Frame(d0, r, e) && tx.staging.Staging? && StaleCmd(tx, c)
    ensures Frame(d0, r, Apply(e, c))
  {
  }

  lemma StaleCore(r: Request, d: Disk, e: Disk, tx: PublishTx, c: Cmd)
    requires SameCore(r, d, e) && tx.publishId != r.publishId
    requires tx.staging.Staging? && tx.staging != r.Staged() && StaleCmd(tx, c)
    ensures SameCore(r, d, Apply(e, c))
  {
  }

  lemma StaleProgram(d0: Disk, r: Request, d: Disk, id: Id)
    requires Quiet(d0, r) && Frame(d0, r, d) && id in d.journals && id != r.publishId
    ensures d.journals[id].staging.Staging? && d.journals[id].staging != r.Staged()
    ensures d.journals[id].publishId == id
    ensures RecoverOne(d, d.journals[id]) == Recovery(Cleanup(d, d.journals[id].staging) + [DropTx(id)], true)
  {
    assert StaleJournal(d0, id, r.now);
    var tx := d0.journals[id];
    if tx.snapshot.Some? {
      assert SameAt(d0, d, tx.snapshot.value);
    }
  }

  /** A stale journal never moves a slot: recovery clears its staging directory and drops it. */
  lemma {:induction false} StalePrefix(d0: Disk, r: Request, d: Disk, tx: PublishTx, prog: seq<Cmd>, k: nat)
    requires Frame(d0, r, d) && tx.publishId != r.publishId
    requires tx.staging.Staging? && tx.staging != r.Staged()
    requires prog == Cleanup(d, tx.staging) + [DropTx(tx.publishId)] && k <= |prog|
    ensures Frame(d0, r, RunFor(d, prog, k)) && SameCore(r, d, RunFor(d, prog, k))
  {
    hide RunFor, Frame, Cleanup, StaleCmd;
    RunNone(d, prog);
    if k > 0 {
      hide SameCore;
      StaleCmds(d, tx);
      assert prog[k - 1] in prog;
      StalePrefix(d0, r, d, tx, prog, k - 1);
      RunSnoc(d, prog, k - 1);
      StaleFrame(d0, r, RunFor(d, prog, k - 1), tx, prog[k - 1]);
      StaleCore(r, d, RunFor(d, prog, k - 1), tx, prog[k - 1]);
    }
  }

  lemma RecoverStale(d0: Disk, r: Request, d: Disk, id: Id, k: nat)
    requires Quiet(d0, r) && InFlight(d0, r, d) && id in d.journals && id != r.publishId
    ensures var rec := RecoverOne(d, d.journals[id]);
            var e := RunFor(d, rec.cmds, k);
            && rec.ok && |rec.cmds| <= 4
            && InFlight(d0, r, e) && SameCore(r, d, e) && Progress(d0, r, d, e)
  {
    var prog := RecoverOne(d, d.journals[id]).cmds;
    StaleProgram(d0, r, d, id);
    if k > |prog| { RunBeyond(d, prog, k); }
    StalePrefix(d0, r, d, d.journals[id], prog, if k <= |prog| then k else |prog|);
    CoreProgress(d0, r, d, RunFor(d, prog, k));
  }

  lemma CoreProgress(d0: Disk, r: Request, d: Disk, e: Disk)
    requires SameCore(r, d, e) && Phase(d0, r, d)
    ensures Phase(d0, r, e) && Progress(d0, r, d, e)
  {
    CoreKeepsPhase(d0, r, d, e);
    OwnPhases(d0, r, e);
  }

  // ---- the whole recovery ----

  ghost predicate TouchesOnly(prog: seq<Cmd>, id: Id) {
    forall i | 0 <= i < |prog| ::
      (prog[i].PutTx? ==> prog[i].tx.publishId == id) && (prog[i].DropTx? ==> prog[i].id == id)
  }

  lemma OtherJournalsStep(d: Disk, c: Cmd, id: Id)
    requires (c.PutTx? ==> c.tx.publishId == id) && (c.DropTx? ==> c.id == id)
    ensures Apply(d, c).journals - {id} == d.journals - {id}
  {
  }

  lemma {:induction false} OtherJournalsKept(d: Disk, prog: seq<Cmd>, id: Id)
    requires TouchesOnly(prog, id)
    ensures Run(d, prog).journals - {id} == d.journals - {id}
    decreases |prog|
  {
    if prog != [] {
      OtherJournalsStep(d, prog[0], id);
      OtherJournalsKept(Apply(d, prog[0]), prog[1..], id);
    }
  }

  lemma RecoverOneTouches(d: Disk, tx: PublishTx)
    ensures TouchesOnly(RecoverOne(d, tx).cmds, tx.publishId)
  {
    hide Replay, IndexOf, Logged, RunFor, Verifies;
  }

  lemma ListsTail(txs: seq<PublishTx>, journals: map<Id, PublishTx>)
    requires txs != [] && Lists(txs, journals)
    ensures Lists(txs[1..], journals - {txs[0].publishId})
  {
    forall id | id in journals && id != txs[0].publishId
      ensures exists i | 0 <= i < |txs[1..]| :: txs[1..][i].publishId == id
    {
      var i :| 0 <= i < |txs| && txs[i].publishId == id;
      assert txs[1..][i - 1].publishId == id;
    }
  }

  /** One journal of the list, whoever it belongs to. */
  lemma RecoverFirst(d0: Disk, r: Request, d: Disk, tx: PublishTx, k: nat)
    requires Quiet(d0, r) && InFlight(d0, r, d)
    requires tx.publishId in d.journals && d.journals[tx.publishId] == tx
    ensures var rec := RecoverOne(d, tx);
            var e := Run(d, rec.cmds);
            && rec.ok && |rec.cmds| <= 6
            && InFlight(d0, r, RunFor(d, rec.cmds, k)) && InFlight(d0, r, e)
            && e.journals == d.journals - {tx.publishId}
            && (if tx.publishId == r.publishId then Resolves(d0, r, d, e) else SameCore(r, d, e))
            && Progress(d0, r, d, RunFor(d, rec.cmds, k)) && Progress(d0, r, d, e)
  {
    hide RecoverOne, Phase, Frame, Quiet, Before, Between, Unjournalled, AfterSwap, Landed, RunFor;
    var prog := RecoverOne(d, tx).cmds;
    RecoverOneTouches(d, tx);
    OtherJournalsKept(d, prog, tx.publishId);
    if tx.publishId == r.publishId {
      RecoverOwn(d0, r, d, k);
      RecoverOwn(d0, r, d, |prog|);
    } else {
      RecoverStale(d0, r, d, tx.publishId, k);
      RecoverStale(d0, r, d, tx.publishId, |prog|);
      StaleDropped(d0, r, d, tx.publishId);
    }
    hide SameCore;
    assert tx.publishId !in Run(d, prog).journals;
    assert Run(d, prog).journals == Run(d, prog).journals - {tx.publishId};
  }

  lemma StaleDropped(d0: Disk, r: Request, d: Disk, id: Id)
    requires Quiet(d0, r) && Frame(d0, r, d) && id in d.journals && id != r.publishId
    ensures id !in Run(d, RecoverOne(d, d.journals[id]).cmds).journals
  {
    StaleProgram(d0, r, d, id);
    var prog := RecoverOne(d, d.journals[id]).cmds;
    RunSnoc(d, prog, |prog| - 1);
  }

  /** What holds after recovery of txs with the given power, started from d. */
  ghost predicate Recovers(d0: Disk, r: Request, d: Disk, n: nat, power: nat, e: Disk, s: Startup) {
    && InFlight(d0, r, e) && Progress(d0, r, d, e) && s != Stuck
    && (power >= 6 * n ==> s == Ready)
    && (s == Ready ==> e.journals == map[] && Resolves(d0, r, d, e))
  }

  lemma RecoverNone(d0: Disk, r: Request, d: Disk, power: nat)
    requires InFlight(d0, r, d) && Lists([], d.journals)
    ensures Recovers(d0, r, d, 0, power, d, Ready)
  {
    Exclusive(d0, r, d);
  }

  lemma ListsFirst(txs: seq<PublishTx>, journals: map<Id, PublishTx>)
    requires txs != [] && Lists(txs, journals)
    ensures txs[0].publishId in journals && journals[txs[0].publishId] == txs[0]
  {
  }

  /** Recovery from any state in flight, losing power again after any number of steps. */
  lemma {:induction false} RecoverAllKeeps(d0: Disk, r: Request, d: Disk, txs: seq<PublishTx>, power: nat)
    requires Quiet(d0, r) && InFlight(d0, r, d) && Lists(txs, d.journals)
    ensures Recovers(d0, r, d, |txs|, power, RecoverAll(d, txs, power).0, RecoverAll(d, txs, power).1)
    decreases |txs|
  {
    hide RunFor, RecoverOne, Lists, InFlight, Resolves, SameCore, Quiet, Recovers, Progress;
    if txs == [] {
      RecoverNone(d0, r, d, power);
    } else {
      var rec := RecoverOne(d, txs[0]);
      ListsFirst(txs, d.journals);
      RecoverFirst(d0, r, d, txs[0], power);
      if power >= |rec.cmds| {
        var e := Run(d, rec.cmds);
        ListsTail(txs, d.journals);
        RecoverAllKeeps(d0, r, e, txs[1..], power - |rec.cmds|);
        var (f, s) := RecoverAll(e, txs[1..], power - |rec.cmds|);
        CarryOver(d0, r, d, e, f, txs[0].publishId);
        RecoversOneMore(d0, r, d, e, |txs|, power, |rec.cmds|, f, s);
      } else {
        CrashedRecovers(d0, r, d, |txs|, power, RunFor(d, rec.cmds, power));
      }
    }
  }

  lemma CrashedRecovers(d0: Disk, r: Request, d: Disk, n: nat, power: nat, e: Disk)
    requires InFlight(d0, r, e) && Progress(d0, r, d, e) && n > 0 && power < 6
    ensures Recovers(d0, r, d, n, power, e, Crashed)
  {
    hide InFlight, Resolves;
  }

  lemma RecoversOneMore(d0: Disk, r: Request, d: Disk, e: Disk, n: nat, power: nat, m: nat, f: Disk, s: Startup)
    requires n > 0 && m <= power && m <= 6 && Recovers(d0, r, e, n - 1, power - m, f, s)
    requires Progress(d0, r, d, e) && (Resolves(d0, r, e, f) ==> Resolves(d0, r, d, f))
    ensures Recovers(d0, r, d, n, power, f, s)
  {
    hide InFlight, Resolves;
  }

  lemma CarryOver(d0: Disk, r: Request, d: Disk, e: Disk, f: Disk, id: Id)
    requires InFlight(d0, r, d)
    requires if id == r.publishId then Resolves(d0, r, d, e) else SameCore(r, d, e)
    ensures Resolves(d0, r, e, f) ==> Resolves(d0, r, d, f)
  {
    if id != r.publishId { CoreKeepsPhase(d0, r, d, e); }
  }

  // ---- theorems ----

  /** One restart that recovers until its power runs out. */
  ghost predicate Restarted(d: Disk, e: Disk) {
    exists txs, power :: Lists(txs, d.journals) && e == RecoverAll(d, txs, power).0
  }

  ghost predicate Restarts(trail: seq<Disk>) {
    trail != [] && forall i | 0 < i < |trail| :: Restarted(trail[i - 1], trail[i])
  }

  lemma {:induction false} RestartsKeep(d0: Disk, r: Request, trail: seq<Disk>, n: nat)
    requires Quiet(d0, r) && Restarts(trail) && InFlight(d0, r, trail[0]) && n < |trail|
    ensures InFlight(d0, r, trail[n])
  {
    if n > 0 {
      RestartsKeep(d0, r, trail, n - 1);
      RestartKeeps(d0, r, trail[n - 1], trail[n]);
    }
  }

  lemma RestartKeeps(d0: Disk, r: Request, d: Disk, e: Disk)
    requires Quiet(d0, r) && InFlight(d0, r, d) && Restarted(d, e)
    ensures InFlight(d0, r, e)
  {
    var txs, power :| Lists(txs, d.journals) && e == RecoverAll(d, txs, power).0;
    RecoverAllKeeps(d0, r, d, txs, power);
  }

  /** The slot holds exactly what it held before, or exactly the complete new tree with the old
      one kept in its snapshot. */
  ghost predicate OldOrNew(d0: Disk, r: Request, d: Disk) {
    (SameAt(d0, d, r.Target()) && r.Backup() !in d.trees) || Replaced(d0, r, d)
  }

  ghost predicate Replaced(d0: Disk, r: Request, d: Disk) {
    && r.Target() in d.trees && d.trees[r.Target()] == r.Tree()
    && (r.Target() in d0.trees ==> r.Backup() in d.trees && d.trees[r.Backup()] == d0.trees[r.Target()])
  }

  function Successes(log: seq<LogEntry>, id: Id): nat {
    if log == [] then 0
    else Successes(log[..|log| - 1], id) + if log[|log| - 1].publishId == Some(id) && log[|log| - 1].success then 1 else 0
  }

  lemma {:induction false} NotLogged(log: seq<LogEntry>, id: Id)
    requires !Logged(log, id)
    ensures Successes(log, id) == 0
  {
    if log != [] {
      assert forall i | 0 <= i < |log| - 1 :: log[..|log| - 1][i] == log[i];
      NotLogged(log[..|log| - 1], id);
    }
  }

  lemma LoggedOnce(d0: Disk, r: Request, log: seq<LogEntry>)
    requires !Logged(d0.log, r.publishId) && (log == d0.log || log == d0.log + [Entry(d0, r)])
    ensures Successes(log, r.publishId) == |log| - |d0.log|
  {
    NotLogged(d0.log, r.publishId);
    assert (d0.log + [Entry(d0, r)])[..|d0.log|] == d0.log;
  }

  /** Slot atomicity: lose power before any step k of publish, then restart and lose power again
      as often as you like; the first recovery that runs to its end leaves no journal, the old
      tree or the complete new one in the slot, every other slot and snapshot as it was, and at
      most one success entry. A recovery that keeps its power does run to its end. */
  lemma SlotAtomicity(d0: Disk, r: Request, k: nat, trail: seq<Disk>, txs: seq<PublishTx>, power: nat)
    requires Quiet(d0, r) && Restarts(trail) && trail[0] == RunFor(d0, PublishProgram(d0, r), k)
    requires Lists(txs, trail[|trail| - 1].journals)
    ensures var (e, s) := RecoverAll(trail[|trail| - 1], txs, power);
            && s != Stuck && (power >= 6 * |txs| ==> s == Ready)
            && Successes(e.log, r.publishId) <= 1
            && (s == Ready ==>
                  && e.journals == map[] && OldOrNew(d0, r, e)
                  && (forall p | p != r.Target() && p != r.Backup() && !p.Staging? :: SameAt(d0, e, p)))
  {
    hide RunFor, RecoverAll, PublishProgram, Lists, Successes, InFlight, Resolves, OldOrNew;
    PrefixInFlight(d0, r, k);
    RestartsKeep(d0, r, trail, |trail| - 1);
    var (e, s) := RecoverAll(trail[|trail| - 1], txs, power);
    RecoverAllKeeps(d0, r, trail[|trail| - 1], txs, power);
    LogInFlight(d0, r, e);
    LoggedOnce(d0, r, e.log);
    if s == Ready { ResolvedIsOldOrNew(d0, r, trail[|trail| - 1], e); }
  }

  lemma LogInFlight(d0: Disk, r: Request, d: Disk)
    requires InFlight(d0, r, d)
    ensures d.log == d0.log || d.log == d0.log + [Entry(d0, r)]
  {
    hide Frame, Entry, Replay, IndexOf;
  }

  lemma ResolvedIsOldOrNew(d0: Disk, r: Request, d: Disk, e: Disk)
    requires InFlight(d0, r, d) && InFlight(d0, r, e) && Resolves(d0, r, d, e)
    ensures OldOrNew(d0, r, e)
    ensures forall p | p != r.Target() && p != r.Backup() && !p.Staging? :: SameAt(d0, e, p)
  {
    hide Entry, Replay, IndexOf;
  }

  ghost predicate PointerAgrees(d: Disk, name: string) {
    && (Slot(name) in d.trees <==> name in d.pointers)
    && (name in d.pointers ==>
          && d.trees[Slot(name)].Whole? && d.trees[Slot(name)].artifact.Some?
          && d.pointers[name].version == ArtifactVersion(d.trees[Slot(name)].artifact.value))
  }

  /** The gap in the journal: the staged tree has replaced the old one, the journal is open and does not
      say so yet. Recovery then drops the journal and writes neither pointer nor log. */
  ghost predicate InGap(d0: Disk, r: Request, d: Disk) {
    && Replaced(d0, r, d)
    && r.publishId in d.journals && d.journals[r.publishId].state in {Prepared, Snapshotted}
  }

  /** Among all points at which publish can lose power, the gap is exactly the one between the swap and its journal
      write. */
  lemma GapIsOneStep(d0: Disk, r: Request, k: nat)
    requires Quiet(d0, r) && k <= |PublishProgram(d0, r)|
    ensures InGap(d0, r, RunFor(d0, PublishProgram(d0, r), k)) <==> k == SwapIndex(d0, r) + 1
  {
    hide RunFor, Frame, Replay, IndexOf, Entry;
    PrefixAt(d0, r, k);
  }

  /** The old tree has the artifact that is published again. */
  predicate SameArtifact(d0: Disk, r: Request) {
    r.Target() in d0.trees && d0.trees[r.Target()].Whole? && d0.trees[r.Target()].artifact == Some(r.artifact)
  }

  /** The log follows the slot through recovery exactly when the interrupted publish is not in that gap, and so does the
      pointer, which cannot be told from the new one when the same artifact is published again. */
  lemma PointerFollowsSlot(d0: Disk, r: Request, d: Disk, txs: seq<PublishTx>, power: nat)
    requires Quiet(d0, r) && PointerAgrees(d0, r.name)
    requires InFlight(d0, r, d) && r.publishId in d.journals && Lists(txs, d.journals) && power >= 6 * |txs|
    ensures var e := RecoverAll(d, txs, power).0;
            && (PointerAgrees(e, r.name) <==> !InGap(d0, r, d) || SameArtifact(d0, r))
            && Successes(e.log, r.publishId) == if Replaced(d0, r, e) && !InGap(d0, r, d) then 1 else 0
  {
    hide RecoverAll, Lists, StaleJournal, Frame, Replay, IndexOf, Successes, InGap;
    RecoverAllKeeps(d0, r, d, txs, power);
    var e := RecoverAll(d, txs, power).0;
    LogInFlight(d0, r, e);
    LoggedOnce(d0, r, e.log);
    GapIsUnjournalled(d0, r, d);
  }

  lemma GapIsUnjournalled(d0: Disk, r: Request, d: Disk)
    requires InFlight(d0, r, d) && r.publishId in d.journals
    ensures InGap(d0, r, d) <==> Unjournalled(d0, r, d)
  {
    Exclusive(d0, r, d);
  }
}
