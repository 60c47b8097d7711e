/** An install or upgrade whose step raises: a failed activation is undone, and an I/O error is too, up
    to the moment at which the installer starts to delete its own backup; what a later one leaves is stated exactly. */
module ExtensionFailure {
  import opened Knowledge
  import opened ExtensionProtocol
  import opened ExtensionAtomicity

  /** The journal as the except block holds it when step i raised. The backup is noted in memory
      before it is journalled. */
  function Held(s: Store, q: Request, i: nat): Tx { q.Begun(s).(backup := Replaces(s, q) && i >= 5) }

  /** The except block at work on the disk on which step i raised. */
  function Handled(s: Store, q: Request, d: Store, i: nat): Store { Run(d, FailureSteps(d, Held(s, q, i))) }

  /** The disk when power is lost before step k of that. */
  ghost predicate Stopped(s: Store, q: Request, i: nat, k: int, e: Store) {
    var d := RunFor(s, InstallProgram(s, q), i);
    k >= 0 && e == RunFor(d, FailureSteps(d, Held(s, q, i)), k)
  }

  function Marked(s: Store, q: Request, i: nat): Tx { Held(s, q, i).(state := RollbackRequired) }

  /** What the undo of an operation that failed at step i goes back to. Up to the moment at which the committed
      install starts to delete its backup it is the old store. Then it is a payload that is torn while half of the
      backup is left; and without a backup the new payload, if the old record names the version, or none. */
  function Target(s: Store, q: Request, i: nat): Store {
    if i <= Success(s, q) + 2 then s
    else if i == Success(s, q) + 3 then s.(payloads := s.payloads[q.At() := Torn])
    else s.(payloads := if Registered(s, q) then s.payloads[q.At() := Whole(q.content)] else s.payloads - {q.At()})
  }

  lemma TargetReady(s: Store, q: Request, i: nat)
    requires Ready(s, q)
    ensures var t := Target(s, q, i);
            && Ready(t, q) && t.registry == s.registry && t.journals == s.journals && t.payloads - {q.At()} == s.payloads - {q.At()}
  {
    var t := Target(s, q, i);
    forall ext | ext in t.registry ensures Consistent(t, ext) { assert Consistent(s, ext); }
  }

  lemma MarkedUndoable(s: Store, q: Request, d: Store, i: nat)
    requires Ready(s, q) && At(s, q, d, i) && 1 <= i < |InstallProgram(s, q)|
    ensures var e, t := Apply(d, PutTx(Marked(s, q, i))), Target(s, q, i);
            Frame(t, q, e) && Undoable(t, q, e) && e.journals[q.id] == Marked(s, q, i)
  {
    hide Frame;
    var e, t := Apply(d, PutTx(Marked(s, q, i))), Target(s, q, i);
    TargetReady(s, q, i);
    assert Frame(t, q, e) by {
      AtFrame(s, q, d, i);
      MarkFrame(s, q, d, Marked(s, q, i));
      SameOthers(s, t, q, e);
    }
    if i <= Success(s, q) + 2 { MarkedEarly(s, q, d, i); } else { MarkedLate(s, q, d, i); }
  }

  lemma SameOthers(s: Store, t: Store, q: Request, e: Store)
    requires t.registry == s.registry && t.journals == s.journals && t.payloads - {q.At()} == s.payloads - {q.At()}
    ensures Frame(t, q, e) == Frame(s, q, e)
  {
  }

  lemma MarkedEarly(s: Store, q: Request, d: Store, i: nat)
    requires Ready(s, q) && At(s, q, d, i) && 1 <= i <= Success(s, q) + 2
    ensures var e := Apply(d, PutTx(Marked(s, q, i))); Undoable(s, q, e) && e.journals[q.id] == Marked(s, q, i)
  {
    hide Added, Switched;
    if Registered(s, q) { assert Consistent(s, q.ext); }
  }

  lemma MarkedLate(s: Store, q: Request, d: Store, i: nat)
    requires Ready(s, q) && At(s, q, d, i) && Success(s, q) + 2 < i < |InstallProgram(s, q)|
    ensures var e := Apply(d, PutTx(Marked(s, q, i))); Undoable(Target(s, q, i), q, e) && e.journals[q.id] == Marked(s, q, i)
  {
    hide Added, Switched;
    assert Replaces(s, q) && Marked(s, q, i).backup;
    assert q.id in d.backups <==> i == Success(s, q) + 3;
    assert q.At() in d.payloads && d.payloads[q.At()] == Whole(q.content);
  }

  lemma MarkFrame(s: Store, q: Request, d: Store, tx: Tx)
    requires Frame(s, q, d) && tx.id == q.id
    ensures Frame(s, q, Apply(d, PutTx(tx)))
  {
    assert d.journals[q.id := tx] - {q.id} == d.journals - {q.id};
  }

  /** The except block as its three parts, each on the disk it finds. */
  lemma HandlerParts(s: Store, q: Request, d: Store, i: nat, k: nat)
    ensures var tx := Marked(s, q, i);
            var e := Apply(d, PutTx(tx));
            var f := Run(e, RollbackSteps(e, tx));
            var prog := FailureSteps(d, Held(s, q, i));
            && RollbackSteps(e, tx) == RollbackSteps(d, tx)
            && (k == 0 ==> RunFor(d, prog, k) == d)
            && (1 <= k <= 1 + |RollbackSteps(e, tx)| ==> RunFor(d, prog, k) == RunFor(e, RollbackSteps(e, tx), k - 1))
            && (k > 1 + |RollbackSteps(e, tx)| ==> RunFor(d, prog, k) == RunFor(f, CleanBackup(d, tx), k - 1 - |RollbackSteps(e, tx)|))
            && Run(d, prog) == Run(f, CleanBackup(d, tx))
  {
    var tx := Marked(s, q, i);
    var a, b, c := [PutTx(tx)], RollbackSteps(d, tx), CleanBackup(d, tx);
    assert FailureSteps(d, Held(s, q, i)) == a + b + c;
    RunConcat(d, a + b, c, k);
    RunConcat(d, a + b, c, |a + b + c|);
    RunConcat(d, a, b, k);
    RunConcat(d, a, b, |a + b|);
    RunOne(d, PutTx(tx));
    hide RollbackSteps, CleanBackup;
  }

  /** Losing power inside the except block, whichever step had failed: before its first step the operation is where the
      failed step left it, behind it the next startup undoes it. */
  lemma HandlerCrash(s: Store, q: Request, d: Store, i: nat, k: nat)
    requires Ready(s, q) && At(s, q, d, i) && 1 <= i < |InstallProgram(s, q)|
    ensures var e := RunFor(d, FailureSteps(d, Held(s, q, i)), k);
            if k == 0 then Phase(s, q, e, FateAt(s, q, i)) else Phase(Target(s, q, i), q, e, Open(Held(s, q, i).backup))
  {
    hide Phase, RunFor, FailureSteps, Held, Target, FateAt, Ready, At, InstallProgram;
    if k == 0 {
      RunNone(d, FailureSteps(d, Held(s, q, i)));
      AtPhase(s, q, d, i);
    } else {
      HandlerStopped(s, q, d, i, k);
    }
  }

  lemma RunNone(d: Store, prog: seq<Step>)
    ensures RunFor(d, prog, 0) == d
  {
  }

  lemma HandlerStopped(s: Store, q: Request, d: Store, i: nat, k: nat)
    requires Ready(s, q) && At(s, q, d, i) && 1 <= i < |InstallProgram(s, q)| && k > 0
    ensures Phase(Target(s, q, i), q, RunFor(d, FailureSteps(d, Held(s, q, i)), k), Open(Held(s, q, i).backup))
  {
    var tx, t := Marked(s, q, i), Target(s, q, i);
    var e := Apply(d, PutTx(tx));
    assert tx.id == q.id && tx.backup == Held(s, q, i).backup && e.backups == d.backups;
    hide At, Ready, FailureSteps, RollbackSteps, Frame, Undoable, CleanBackup, Target, Phase, Final, RunFor, Held, Marked, InstallProgram, Apply;
    HandlerParts(s, q, d, i, k);
    MarkedUndoable(s, q, d, i);
    TargetReady(s, q, i);
    var n := |RollbackSteps(e, tx)|;
    RollbackUndoes(t, q, e, if k <= n + 1 then k - 1 else n);
    if k > n + 1 {
      SameClean(d, Run(e, RollbackSteps(e, tx)), tx);
      CleanedFinal(t, q, Run(e, RollbackSteps(e, tx)), tx, k - 1 - n);
    }
  }

  lemma SameClean(d: Store, f: Store, tx: Tx)
    requires f.backups == d.backups
    ensures CleanBackup(f, tx) == CleanBackup(d, tx)
  {
  }

  /** Whichever step raises, the failing activation callback above all: what the call leaves of registry and payloads. */
  lemma FailedInstallRestores(s: Store, q: Request, d: Store, i: nat)
    requires Ready(s, q) && At(s, q, d, i) && 1 <= i < |InstallProgram(s, q)|
    ensures Final(Target(s, q, i), q, Handled(s, q, d, i), Open(Held(s, q, i).backup))
    ensures AllBefore(Target(s, q, i), q, Handled(s, q, d, i), Orphan(s, q) && i <= 4)
  {
    var tx := Marked(s, q, i);
    var e := Apply(d, PutTx(tx));
    HandlerParts(s, q, d, i, 0);
    MarkedUndoable(s, q, d, i);
    TargetReady(s, q, i);
    LosesWhen(s, q, i);
    var t := Target(s, q, i);
    hide At, Ready, FailureSteps, RollbackSteps, Frame, Undoable, CleanBackup, AllBefore, Loses, Target;
    RollbackUndoes(t, q, e, 0);
    var f := Run(e, RollbackSteps(e, tx));
    SameClean(d, f, tx);
    CleanedFinal(t, q, f, tx, |CleanBackup(f, tx)|);
    hide RunFor;
    FinalIs(t, q, Handled(s, q, d, i), Open(Held(s, q, i).backup));
  }

  lemma LosesWhen(s: Store, q: Request, i: nat)
    requires 1 <= i < |InstallProgram(s, q)|
    ensures Loses(Target(s, q, i), q, Open(Held(s, q, i).backup)) <==> Orphan(s, q) && i <= 4
  {
  }

  /** A failed operation leaves everything as before exactly when it failed before the deletion of its backup, or the
      payload that the undo puts there happens to be the old one. */
  lemma RestoredIff(s: Store, q: Request, d: Store, i: nat)
    requires Ready(s, q) && At(s, q, d, i) && 1 <= i < |InstallProgram(s, q)|
    ensures var e, late := Handled(s, q, d, i), i - Success(s, q) - 2;
            && e.registry == s.registry
            && (e.payloads == s.payloads <==>
                  || (late <= 0 && !(Orphan(s, q) && i <= 4))
                  || (late == 1 && s.payloads[q.At()] == Torn)
                  || (late == 2 && Registered(s, q) && s.payloads[q.At()] == Whole(q.content)))
  {
    FailedInstallRestores(s, q, d, i);
    LateReplaces(s, q, i);
    hide Handled, At, Ready, Final;
    var at, t := q.At(), Target(s, q, i);
    assert t.payloads == s.payloads <==> (at in t.payloads <==> at in s.payloads) && (at in s.payloads ==> t.payloads[at] == s.payloads[at]) by {
      if (at in t.payloads <==> at in s.payloads) && (at in s.payloads ==> t.payloads[at] == s.payloads[at]) {
        SameBut(s, q, i);
        WholeMap(t.payloads, s.payloads, at);
      }
    }
  }

  lemma SameBut(s: Store, q: Request, i: nat)
    ensures Target(s, q, i).payloads - {q.At()} == s.payloads - {q.At()}
  {
  }

  lemma LateReplaces(s: Store, q: Request, i: nat)
    requires i < |InstallProgram(s, q)|
    ensures i > Success(s, q) + 2 ==> Replaces(s, q) && i <= Success(s, q) + 4
  {
  }

  /** Losing power in the except block and then in any number of startups: the first startup that runs to its end has
      what the whole except block would have left, unless none of it was done: then the committed install stays, and
      one that was not committed goes. */
  lemma HandlerAtomicity(s: Store, q: Request, i: nat, k: nat, trail: seq<Store>, txs: seq<Tx>, power: nat)
    requires Ready(s, q) && 1 <= i < |InstallProgram(s, q)| && Restarts(trail)
    requires Stopped(s, q, i, k, trail[0])
    requires Lists(txs, trail[|trail| - 1].journals)
    ensures var (e, done) := Startup(trail[|trail| - 1], txs, power);
            && (power >= 6 * |txs| + 1 ==> done)
            && (done && k == 0 && i > Success(s, q) ==> AllAfter(s, q, e))
            && (done && k == 0 && i <= Success(s, q) ==> AllBefore(s, q, e, Orphan(s, q) && i <= 5))
            && (done && k > 0 ==> AllBefore(Target(s, q, i), q, e, Orphan(s, q) && i <= 4))
  {
    var d := RunFor(s, InstallProgram(s, q), i);
    PrefixAt(s, q, i);
    HandlerCrash(s, q, d, i, k);
    LosesWhen(s, q, i);
    assert Loses(s, q, FateAt(s, q, i)) <==> Orphan(s, q) && i <= 5;
    assert FateAt(s, q, i).Landed? <==> i > Success(s, q);
    TargetReady(s, q, i);
    var t, fate := if k == 0 then s else Target(s, q, i), if k == 0 then FateAt(s, q, i) else Open(Held(s, q, i).backup);
    hide Phase, Final, AllBefore, AllAfter, Ready, Lists, Startup, FateAt, Loses, Target, Held, RunFor;
    RestartsKeep(t, q, trail, |trail| - 1, fate);
    StartupKeeps(t, q, trail[|trail| - 1], txs, power, fate);
    var (e, done) := Startup(trail[|trail| - 1], txs, power);
    if done { FinalIs(t, q, e, fate); }
  }
}
