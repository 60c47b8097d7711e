/** An install or upgrade is all or nothing: whatever step power is lost at, and however often again
    during recovery, record and payload are both as before or both as after. */
module ExtensionAtomicity {
  import opened Knowledge
  import opened ExtensionProtocol

  // ---- programs ----

  lemma {:induction false} RunSnoc(s: Store, prog: seq<Step>, k: nat)
    requires k < |prog|
    ensures RunFor(s, prog, k + 1) == Apply(RunFor(s, prog, k), prog[k])
    decreases |prog|
  {
    if k > 0 { RunSnoc(Apply(s, prog[0]), prog[1..], k - 1); }
  }

  lemma {:induction false} RunConcat(s: Store, a: seq<Step>, b: seq<Step>, k: nat)
    ensures k <= |a| ==> RunFor(s, a + b, k) == RunFor(s, a, k)
    ensures k >= |a| ==> RunFor(s, a + b, k) == RunFor(Run(s, a), b, k - |a|)
    decreases |a|
  {
    if a == [] {
      assert a + b == b;
    } else if k > 0 {
      assert (a + b)[1..] == a[1..] + b;
      RunConcat(Apply(s, a[0]), a[1..], b, k - 1);
    }
  }

  // ---- where the forward path stands ----

  /** Every recorded version has a payload, and the active one is recorded. */
  ghost predicate Consistent(s: Store, ext: string)
    requires ext in s.registry
  {
    var rec := s.registry[ext];
    rec.active in rec.versions && forall v | v in rec.versions :: (ext, v) in s.payloads
  }

  /** The operation is new, earlier ones were recovered, the records are in order. */
  ghost predicate Ready(s: Store, q: Request) {
    && q.id !in s.journals && q.id !in s.backups
    && (forall id | id in s.journals :: s.journals[id].id == id && s.journals[id].state == RolledBack)
    && (forall ext | ext in s.registry :: Consistent(s, ext))
  }

  function Copy(s: Store, q: Request): nat { Start(s, q) + 1 + RemovalSteps(s, q) }

  function JournalAt(s: Store, q: Request, i: nat): Option<Tx> {
    var start, success := Start(s, q), Success(s, q);
    if i == 0 || i > success + RemovalSteps(s, q) + 2 then None
    else if i == 1 then Some(q.Begun(s))
    else if i == 2 then Some(q.Begun(s).(state := Staged))
    else if i <= 5 && i <= start then Some(q.Begun(s).(state := Validated))
    else if i <= start then Some(Opened(s, q).(state := Validated))
    else if i <= Copy(s, q) + 4 then Some(Opened(s, q).(state := ActivationStarted))
    else if i <= success then Some(Opened(s, q).(state := ActiveSwitched))
    else if i == success + 1 then Some(Opened(s, q).(state := Activated))
    else Some(Opened(s, q).(state := Committed))
  }

  function RegistryAt(s: Store, q: Request, i: nat): Registry {
    if i <= Copy(s, q) + 2 then s.registry
    else if i == Copy(s, q) + 3 then s.registry[q.ext := Added(s.registry, q)]
    else s.registry[q.ext := Switched(s.registry, q)]
  }

  function PayloadAt(s: Store, q: Request, i: nat): Option<Payload> {
    if i <= Start(s, q) + 1 then if Replaces(s, q) then Some(s.payloads[q.At()]) else None
    else if i < Copy(s, q) then Some(Torn)
    else if i == Copy(s, q) then None
    else if i == Copy(s, q) + 1 then Some(Torn)
    else Some(Whole(q.content))
  }

  function BackupAt(s: Store, q: Request, i: nat): Option<Payload> {
    if !Replaces(s, q) || i <= 3 || i >= Success(s, q) + 4 then None
    else if i == 4 || i == Success(s, q) + 3 then Some(Torn)
    else Some(s.payloads[q.At()])
  }

  ghost predicate At(s: Store, q: Request, d: Store, i: nat) {
    && d.registry == RegistryAt(s, q, i)
    && (match PayloadAt(s, q, i) case None => d.payloads == s.payloads - {q.At()} case Some(p) => d.payloads == s.payloads[q.At() := p])
    && (match JournalAt(s, q, i) case None => d.journals == s.journals case Some(tx) => d.journals == s.journals[q.id := tx])
    && (match BackupAt(s, q, i) case None => d.backups == s.backups case Some(p) => d.backups == s.backups[q.id := p])
  }

  // Each step moves one component to its next value and leaves the other three.

  lemma JournalNext(s: Store, q: Request, i: nat)
    requires i < |InstallProgram(s, q)|
    ensures var c := InstallStep(s, q, i);
            && (c.PutTx? ==> c.tx.id == q.id) && (c.DropTx? ==> c.id == q.id)
            && JournalAt(s, q, i + 1) == if c.PutTx? then Some(c.tx) else if c.DropTx? then None else JournalAt(s, q, i)
  {
    hide RecordOf, Added, Switched;
  }

  lemma RegistryNext(s: Store, q: Request, i: nat)
    requires i < |InstallProgram(s, q)|
    ensures var c := InstallStep(s, q, i);
            RegistryAt(s, q, i + 1) == if c.Save? then c.registry else RegistryAt(s, q, i)
  {
    hide Added, Switched;
  }

  lemma PayloadNext(s: Store, q: Request, i: nat)
    requires i < |InstallProgram(s, q)|
    ensures var c := InstallStep(s, q, i);
            && (c.WritePayload? ==> c.at == q.At()) && (c.DropPayload? ==> c.at == q.At())
            && PayloadAt(s, q, i + 1) == if c.WritePayload? then Some(c.payload) else if c.DropPayload? then None else PayloadAt(s, q, i)
  {
    hide Added, Switched;
  }

  lemma BackupNext(s: Store, q: Request, i: nat)
    requires i < |InstallProgram(s, q)|
    ensures var c := InstallStep(s, q, i);
            && (c.WriteBackup? ==> c.id == q.id) && (c.DropBackup? ==> c.id == q.id)
            && BackupAt(s, q, i + 1) == if c.WriteBackup? then Some(c.payload) else if c.DropBackup? then None else BackupAt(s, q, i)
  {
    hide Added, Switched;
  }

  lemma WithAgain<K, V>(m: map<K, V>, k: K, o: Option<V>)
    ensures forall v :: With(m, k, o)[k := v] == With(m, k, Some(v))
    ensures With(m, k, o) - {k} == With(m, k, None)
  {
  }

  lemma AtWith(s: Store, q: Request, d: Store, i: nat)
    requires Ready(s, q)
    ensures At(s, q, d, i) <==>
              && d.registry == RegistryAt(s, q, i)
              && d.payloads == With(s.payloads, q.At(), PayloadAt(s, q, i))
              && d.journals == With(s.journals, q.id, JournalAt(s, q, i))
              && d.backups == With(s.backups, q.id, BackupAt(s, q, i))
  {
    hide JournalAt, RegistryAt, PayloadAt, BackupAt, Consistent;
    assert s.journals - {q.id} == s.journals && s.backups - {q.id} == s.backups;
  }

  lemma StepAt(s: Store, q: Request, d: Store, i: nat)
    requires Ready(s, q) && At(s, q, d, i) && i < |InstallProgram(s, q)|
    ensures At(s, q, Apply(d, InstallStep(s, q, i)), i + 1)
  {
    hide InstallStep, InstallProgram, JournalAt, RegistryAt, PayloadAt, BackupAt, Success, Start, At, With, Ready;
    var c := InstallStep(s, q, i);
    JournalNext(s, q, i);
    RegistryNext(s, q, i);
    PayloadNext(s, q, i);
    BackupNext(s, q, i);
    AtWith(s, q, d, i);
    AtWith(s, q, Apply(d, c), i + 1);
    WithAgain(s.payloads, q.At(), PayloadAt(s, q, i));
    WithAgain(s.journals, q.id, JournalAt(s, q, i));
    WithAgain(s.backups, q.id, BackupAt(s, q, i));
  }

  lemma {:induction false} PrefixAt(s: Store, q: Request, k: nat)
    requires Ready(s, q) && k <= |InstallProgram(s, q)|
    ensures At(s, q, RunFor(s, InstallProgram(s, q), k), k)
  {
    if k == 0 {
      assert s.payloads - {q.At()} == if Replaces(s, q) then s.payloads - {q.At()} else s.payloads;
      if Replaces(s, q) { assert s.payloads[q.At() := s.payloads[q.At()]] == s.payloads; }
    } else {
      PrefixAt(s, q, k - 1);
      RunSnoc(s, InstallProgram(s, q), k - 1);
      StepAt(s, q, RunFor(s, InstallProgram(s, q), k - 1), k - 1);
    }
  }

  // ---- the invariant that every crash and every recovery keeps ----

  /** Everything that does not belong to the operation. Backups of other journals may be cleared. */
  ghost predicate Frame(s: Store, q: Request, d: Store) {
    && d.registry - {q.ext} == s.registry - {q.ext}
    && d.payloads - {q.At()} == s.payloads - {q.At()}
    && d.journals - {q.id} == s.journals - {q.id}
  }

  predicate Registered(s: Store, q: Request) { q.ext in s.registry && q.ver in s.registry[q.ext].versions }

  /** A directory under versions that no record mentions. */
  predicate Orphan(s: Store, q: Request) { Replaces(s, q) && !Registered(s, q) }

  ghost predicate RecordBefore(s: Store, q: Request, d: Store) { RecordOf(d.registry, q.ext) == RecordOf(s.registry, q.ext) }

  ghost predicate PayloadBefore(s: Store, q: Request, d: Store) {
    (q.At() in d.payloads <==> q.At() in s.payloads) && (q.At() in d.payloads ==> d.payloads[q.At()] == s.payloads[q.At()])
  }

  ghost predicate Untouched(s: Store, q: Request, d: Store) {
    q.id !in d.journals && RecordBefore(s, q, d) && PayloadBefore(s, q, d)
  }

  /** The journal is open, and enough of the old state survives to go back. */
  ghost predicate Undoable(s: Store, q: Request, d: Store) {
    && q.id in d.journals
    && var tx := d.journals[q.id];
       && tx == q.Begun(s).(state := tx.state, backup := tx.backup)
       && tx.state !in {Activated, Committed, RolledBack}
       && (if tx.backup && q.id in d.backups then Replaces(s, q) && d.backups[q.id] == s.payloads[q.At()]
           else (tx.backup ==> !Orphan(s, q)) && (Registered(s, q) ==> PayloadBefore(s, q, d)))
  }

  /** Rolled back. Only a payload that no record mentions may be gone: when no backup of it had been journalled. */
  ghost predicate Undone(s: Store, q: Request, d: Store) {
    && q.id in d.journals
    && var tx := d.journals[q.id];
       && tx == q.Begun(s).(state := RolledBack, backup := tx.backup)
       && RecordBefore(s, q, d)
       && if Orphan(s, q) && !tx.backup then q.At() !in d.payloads else PayloadBefore(s, q, d)
  }

  /** Installed: the record names the new version as active and the payload is the new one. */
  ghost predicate Installed(s: Store, q: Request, d: Store) {
    && (q.id in d.journals ==> d.journals[q.id] == Opened(s, q).(state := d.journals[q.id].state)
                               && d.journals[q.id].state in {Activated, Committed})
    && q.ext in d.registry && d.registry[q.ext] == Switched(s.registry, q)
    && q.At() in d.payloads && d.payloads[q.At()] == Whole(q.content)
  }

  /** What a crash decides: whether the operation never began, can be undone (and whether a backup
      had been journalled), or has succeeded. */
  datatype Fate = Never | Open(saved: bool) | Landed

  function FateAt(s: Store, q: Request, k: nat): Fate {
    if k == 0 then Never else if k <= Success(s, q) then Open(Replaces(s, q) && k > 5) else Landed
  }

  ghost predicate Phase(s: Store, q: Request, d: Store, fate: Fate) {
    && Frame(s, q, d)
    && match fate
       case Never => Untouched(s, q, d)
       case Open(saved) => (Undoable(s, q, d) || Undone(s, q, d)) && d.journals[q.id].backup == saved
       case Landed => Installed(s, q, d)
  }

  lemma AtFrame(s: Store, q: Request, d: Store, i: nat)
    requires At(s, q, d, i)
    ensures Frame(s, q, d)
  {
    hide RegistryAt, PayloadAt, JournalAt, BackupAt;
    assert d.payloads - {q.At()} == s.payloads - {q.At()};
    assert d.journals - {q.id} == s.journals - {q.id};
    assert d.registry - {q.ext} == s.registry - {q.ext} by { RegistryElsewhere(s, q, i); }
  }

  lemma RegistryElsewhere(s: Store, q: Request, i: nat)
    ensures RegistryAt(s, q, i) - {q.ext} == s.registry - {q.ext}
  {
    hide Added, Switched;
  }

  /** A crash on the forward path leaves the operation undoable, until its callback is journalled as successful. */
  lemma AtPhase(s: Store, q: Request, d: Store, i: nat)
    requires Ready(s, q) && At(s, q, d, i)
    ensures Phase(s, q, d, FateAt(s, q, i))
  {
    hide Added, Switched, Frame;
    AtFrame(s, q, d, i);
    if Registered(s, q) { assert Consistent(s, q.ext); }
    if i == 0 {
      assert Untouched(s, q, d);
    } else if i <= Success(s, q) {
      assert JournalAt(s, q, i).Some?;
      assert Undoable(s, q, d);
    } else {
      assert Installed(s, q, d);
    }
  }

  // ---- repairing the records ----

  /** A record without its missing versions; the active one stays if it can, and otherwise the newest takes its place. */
  ghost predicate RepairedFrom(s: Store, ext: string, rec: Record)
    requires ext in s.registry
  {
    var was := s.registry[ext];
    && (forall v :: v in rec.versions <==> v in was.versions && (ext, v) in s.payloads)
    && rec.active in rec.versions
    && (if (ext, was.active) in s.payloads && was.active in was.versions then rec.active == was.active
        else forall v | v in rec.versions :: v <= rec.active)
    && rec.manifest == was.manifest && rec.hashes == was.hashes
  }

  /** Exactly the records with a payload left are kept. */
  ghost predicate IsRepaired(s: Store, r: Registry) {
    && (forall ext :: ext in r <==> ext in s.registry && exists v :: v in s.registry[ext].versions && (ext, v) in s.payloads)
    && forall ext | ext in r :: ext in s.registry && RepairedFrom(s, ext, r[ext])
  }

  lemma RepairedIs(s: Store)
    ensures IsRepaired(s, Repaired(s))
  {
    forall ext | ext in s.registry
      ensures Available(s, ext, s.registry[ext]) != {} <==> exists v :: v in s.registry[ext].versions && (ext, v) in s.payloads
    {
      if v :| v in s.registry[ext].versions && (ext, v) in s.payloads { assert v in Available(s, ext, s.registry[ext]); }
      if Available(s, ext, s.registry[ext]) != {} {
        var v :| v in Available(s, ext, s.registry[ext]);
      }
    }
  }

  lemma RecordKept(s: Store, ext: string)
    requires ext in s.registry && Consistent(s, ext)
    ensures Available(s, ext, s.registry[ext]) == s.registry[ext].versions
    ensures Available(s, ext, s.registry[ext]) != {} && RepairedRecord(s, ext, s.registry[ext]) == s.registry[ext]
  {
  }

  lemma RunOne(s: Store, c: Step)
    ensures Run(s, [c]) == Apply(s, c)
  {
    RunSnoc(s, [c], 0);
  }

  /** Repair can only change the record of the interrupted extension. */
  lemma RepairFrame(s: Store, q: Request, d: Store)
    requires Ready(s, q) && Frame(s, q, d)
    ensures Repaired(d) - {q.ext} == d.registry - {q.ext}
    ensures q.ext !in d.registry ==> Repaired(d) == d.registry
    ensures q.ext in d.registry && Consistent(d, q.ext) ==> Repaired(d) == d.registry
  {
    forall ext | ext in d.registry && ext != q.ext
      ensures Available(d, ext, d.registry[ext]) != {} && RepairedRecord(d, ext, d.registry[ext]) == d.registry[ext]
    {
      assert ext in d.registry - {q.ext} && ext in s.registry - {q.ext};
      assert d.registry[ext] == (d.registry - {q.ext})[ext] == (s.registry - {q.ext})[ext] == s.registry[ext];
      assert Consistent(s, ext);
      forall v | v in d.registry[ext].versions ensures (ext, v) in d.payloads {
        assert (ext, v) in s.payloads - {q.At()};
      }
      RecordKept(d, ext);
    }
    if q.ext in d.registry && Consistent(d, q.ext) { RecordKept(d, q.ext); }
  }

  lemma BeforeConsistent(s: Store, q: Request, d: Store)
    requires Ready(s, q) && Frame(s, q, d) && RecordBefore(s, q, d) && (Registered(s, q) ==> PayloadBefore(s, q, d))
    ensures q.ext in d.registry ==> Consistent(d, q.ext)
  {
    if q.ext in d.registry {
      assert Consistent(s, q.ext) && d.registry[q.ext] == s.registry[q.ext];
      forall v | v in d.registry[q.ext].versions ensures (q.ext, v) in d.payloads {
        assert (q.ext, v) in s.payloads;
        if v != q.ver { assert (q.ext, v) in s.payloads - {q.At()}; }
      }
    }
  }

  lemma AfterConsistent(s: Store, q: Request, d: Store)
    requires Ready(s, q) && Frame(s, q, d) && Installed(s, q, d)
    ensures Consistent(d, q.ext)
  {
    if q.ext in s.registry { assert Consistent(s, q.ext); }
    forall v | v in d.registry[q.ext].versions ensures (q.ext, v) in d.payloads {
      if v != q.ver { assert (q.ext, v) in s.payloads - {q.At()}; }
    }
  }

  lemma RepairKeeps(s: Store, q: Request, d: Store, fate: Fate)
    requires Ready(s, q) && Phase(s, q, d, fate)
    ensures Phase(s, q, Run(d, RepairSteps(d)), fate)
    ensures Run(d, RepairSteps(d)).journals == d.journals && |RepairSteps(d)| <= 1
    ensures !Undoable(s, q, d) ==> Run(d, RepairSteps(d)) == d
  {
    RepairFrame(s, q, d);
    if fate.Landed? {
      AfterConsistent(s, q, d);
    } else if Undoable(s, q, d) {
      RunOne(d, Save(Repaired(d)));
    } else {
      BeforeConsistent(s, q, d);
    }
    hide Repaired, Consistent;
  }

  // ---- recovering the journals ----

  /** Steps on the payload alone. */
  ghost predicate OnlyPayload(prog: seq<Step>, at: (string, Ver)) {
    forall i | 0 <= i < |prog| :: (prog[i].WritePayload? || prog[i].DropPayload?) && prog[i].at == at
  }

  lemma {:induction false} PayloadMoves(d: Store, prog: seq<Step>, at: (string, Ver), k: nat)
    requires OnlyPayload(prog, at)
    ensures var e := RunFor(d, prog, k);
            e.payloads - {at} == d.payloads - {at} && e.registry == d.registry && e.journals == d.journals && e.backups == d.backups
    decreases |prog|
  {
    if prog != [] && k > 0 {
      assert prog[0].at == at;
      PayloadMoves(Apply(d, prog[0]), prog[1..], at, k - 1);
    }
  }

  lemma RunTwo(d: Store, a: Step, b: Step)
    ensures Run(d, [a, b]) == Apply(Apply(d, a), b)
  {
    RunSnoc(d, [a, b], 0);
    RunSnoc(d, [a, b], 1);
  }

  lemma RunRemove(d: Store, at: (string, Ver))
    ensures Run(d, RemovePayload(d, at)) == d.(payloads := d.payloads - {at})
  {
    if at in d.payloads {
      RunTwo(d, WritePayload(at, Torn), DropPayload(at));
      assert d.payloads[at := Torn] - {at} == d.payloads - {at};
    } else {
      assert d.payloads - {at} == d.payloads;
    }
  }

  /** Undoing the payload: the backup comes back, or what the operation had put there goes. */
  lemma UndoRuns(d: Store, tx: Tx)
    ensures OnlyPayload(UndoPayload(d, tx), (tx.ext, tx.ver)) && |UndoPayload(d, tx)| <= 4
    ensures var at := (tx.ext, tx.ver);
            Run(d, UndoPayload(d, tx)).payloads ==
              if tx.backup && tx.id in d.backups then d.payloads[at := d.backups[tx.id]]
              else if tx.previous.Some? && tx.ver in tx.previous.value.versions then d.payloads
              else d.payloads - {at}
  {
    var at := (tx.ext, tx.ver);
    RunRemove(d, at);
    if tx.backup && tx.id in d.backups {
      var a, b := RemovePayload(d, at), CopyBack(at, d.backups[tx.id]);
      RunConcat(d, a, b, |a + b|);
      RunTwo(Run(d, a), b[0], b[1]);
    }
  }

  /** Going back from an undoable state, and losing power after any number of steps of that. */
  lemma RollbackUndoes(s: Store, q: Request, d: Store, k: nat)
    requires Ready(s, q) && Frame(s, q, d) && Undoable(s, q, d)
    ensures var prog := RollbackSteps(d, d.journals[q.id]);
            && |prog| <= 6
            && Phase(s, q, RunFor(d, prog, k), Open(d.journals[q.id].backup))
            && Final(s, q, Run(d, prog), Open(d.journals[q.id].backup))
            && Run(d, prog).backups == d.backups
  {
    var tx := d.journals[q.id];
    var a, b := UndoPayload(d, tx), [Save(With(d.registry, tx.ext, tx.previous)), PutTx(tx.(state := RolledBack))];
    UndoRuns(d, tx);
    RunConcat(d, a, b, k);
    RunConcat(d, a, b, |a + b|);
    PayloadMoves(d, a, q.At(), |a|);
    var e := Run(d, a);
    RunTwo(e, b[0], b[1]);
    RolledBackIs(s, q, d, e);
    if k <= |a| {
      PayloadMoves(d, a, q.At(), k);
      MovedUndoable(s, q, d, RunFor(d, a, k), a == []);
    } else if k == |a| + 1 {
      RunSnoc(e, b, 0);
      MovedUndoable(s, q, d, e, a == []);
      SavedUndoable(s, q, e, With(d.registry, tx.ext, tx.previous));
    } else {
      RunBeyond(e, b, k - |a|);
    }
  }

  lemma {:induction false} RunBeyond(s: Store, prog: seq<Step>, k: nat)
    requires k >= |prog|
    ensures RunFor(s, prog, k) == Run(s, prog)
    decreases |prog|
  {
    if prog != [] { RunBeyond(Apply(s, prog[0]), prog[1..], k - 1); }
  }

  lemma MovedUndoable(s: Store, q: Request, d: Store, e: Store, still: bool)
    requires Frame(s, q, d) && Undoable(s, q, d)
    requires still ==> e == d
    requires !still ==> (d.journals[q.id].backup && q.id in d.backups) || !Registered(s, q)
    requires e.payloads - {q.At()} == d.payloads - {q.At()} && e.registry == d.registry && e.journals == d.journals && e.backups == d.backups
    ensures Frame(s, q, e) && Undoable(s, q, e)
  {
  }

  lemma SavedUndoable(s: Store, q: Request, e: Store, r: Registry)
    requires Frame(s, q, e) && Undoable(s, q, e) && r - {q.ext} == e.registry - {q.ext}
    ensures Frame(s, q, Apply(e, Save(r))) && Undoable(s, q, Apply(e, Save(r)))
  {
  }

  lemma RolledBackIs(s: Store, q: Request, d: Store, e: Store)
    requires Frame(s, q, d) && Undoable(s, q, d)
    requires e.registry == d.registry && e.journals == d.journals && e.payloads - {q.At()} == d.payloads - {q.At()}
    requires var tx := d.journals[q.id];
             e.payloads == if tx.backup && tx.id in d.backups then d.payloads[q.At() := d.backups[tx.id]]
                           else if tx.previous.Some? && tx.ver in tx.previous.value.versions then d.payloads
                           else d.payloads - {q.At()}
    ensures var tx := d.journals[q.id];
            var f := Apply(Apply(e, Save(With(d.registry, tx.ext, tx.previous))), PutTx(tx.(state := RolledBack)));
            Frame(s, q, f) && Undone(s, q, f)
  {
    var tx := d.journals[q.id];
    var r := With(d.registry, tx.ext, tx.previous);
    assert r - {q.ext} == d.registry - {q.ext};
    assert e.journals[q.id := tx.(state := RolledBack)] - {q.id} == e.journals - {q.id};
  }

  lemma CleanMoves(d: Store, tx: Tx, k: nat)
    ensures var e := RunFor(d, CleanBackup(d, tx), k);
            e == d.(backups := e.backups) && e.backups - {tx.id} == d.backups - {tx.id}
    ensures |CleanBackup(d, tx)| <= 2
  {
    var prog := CleanBackup(d, tx);
    if prog != [] && k > 0 {
      RunSnoc(d, prog, 0);
      RunSnoc(d, prog, 1);
      if k > 2 { RunBeyond(d, prog, k); }
    }
  }

  /** Clearing a backup disturbs only an operation that still needs it. */
  lemma ClearedKeeps(s: Store, q: Request, d: Store, e: Store, id: Id, fate: Fate)
    requires Phase(s, q, d, fate) && e == d.(backups := e.backups) && e.backups - {id} == d.backups - {id}
    requires id == q.id ==> !Undoable(s, q, d)
    ensures Phase(s, q, e, fate)
    ensures Untouched(s, q, d) ==> Untouched(s, q, e)
    ensures Undone(s, q, d) ==> Undone(s, q, e)
    ensures Undoable(s, q, d) ==> Undoable(s, q, e)
    ensures Installed(s, q, d) ==> Installed(s, q, e)
  {
    if id != q.id { SameElsewhere(e.backups, d.backups, id, q.id); }
  }

  lemma SameElsewhere<K, V>(a: map<K, V>, b: map<K, V>, k: K, x: K)
    requires a - {k} == b - {k} && x != k
    ensures (x in a <==> x in b) && (x in a ==> a[x] == b[x])
  {
    assert x in a <==> x in a - {k};
    assert x in b <==> x in b - {k};
    assert x in a ==> (a - {k})[x] == (b - {k})[x];
  }

  /** How an operation can end. */
  ghost predicate Final(s: Store, q: Request, d: Store, fate: Fate) {
    && Frame(s, q, d)
    && match fate
       case Never => Untouched(s, q, d)
       case Open(saved) => Undone(s, q, d) && d.journals[q.id].backup == saved
       case Landed => Installed(s, q, d) && q.id !in d.journals
  }

  lemma FinishEnds(s: Store, q: Request, d: Store, k: nat)
    requires Frame(s, q, d) && Installed(s, q, d) && q.id in d.journals
    ensures var prog := RecoverTx(d, d.journals[q.id]);
            |prog| <= 3 && Phase(s, q, RunFor(d, prog, k), Landed) && Final(s, q, Run(d, prog), Landed)
  {
    var tx := d.journals[q.id];
    var a, b := CleanBackup(d, tx), [DropTx(tx.id)];
    RunConcat(d, a, b, k);
    RunConcat(d, a, b, |a + b|);
    CleanMoves(d, tx, |a|);
    RunOne(Run(d, a), DropTx(tx.id));
    ClearedKeeps(s, q, d, Run(d, a), q.id, Landed);
    assert Final(s, q, Run(d, a + b), Landed);
    if k <= |a| {
      CleanMoves(d, tx, k);
      ClearedKeeps(s, q, d, RunFor(d, a, k), q.id, Landed);
    } else {
      RunBeyond(Run(d, a), b, k - |a|);
    }
  }

  lemma UndoneNotUndoable(s: Store, q: Request, f: Store)
    requires Undone(s, q, f)
    ensures !Undoable(s, q, f)
  {
  }

  /** Clearing the backup of an operation that was rolled back. */
  lemma CleanedFinal(s: Store, q: Request, d: Store, tx: Tx, k: nat)
    requires Final(s, q, d, Open(tx.backup)) && tx.id == q.id
    ensures var e := RunFor(d, CleanBackup(d, tx), k); Final(s, q, e, Open(tx.backup)) && Phase(s, q, e, Open(tx.backup))
  {
    CleanMoves(d, tx, k);
    hide Undone, Frame, RunFor, CleanBackup;
    UndoneNotUndoable(s, q, d);
    ClearedKeeps(s, q, d, RunFor(d, CleanBackup(d, tx), k), q.id, Open(tx.backup));
  }

  lemma OwnSteps(s: Store, q: Request, d: Store)
    requires q.id in d.journals
    ensures !Untouched(s, q, d)
    ensures Undoable(s, q, d) ==> RecoverTx(d, d.journals[q.id]) == RollbackSteps(d, d.journals[q.id])
    ensures Undone(s, q, d) ==> RecoverTx(d, d.journals[q.id]) == CleanBackup(d, d.journals[q.id])
  {
    hide RollbackSteps, CleanBackup;
  }

  lemma RecoverOwnKeeps(s: Store, q: Request, d: Store, k: nat, fate: Fate)
    requires Ready(s, q) && Phase(s, q, d, fate) && q.id in d.journals && d.journals[q.id].id == q.id
    ensures var prog := RecoverTx(d, d.journals[q.id]);
            |prog| <= 6 && Phase(s, q, RunFor(d, prog, k), fate) && Final(s, q, Run(d, prog), fate)
  {
    hide Ready, Frame, Untouched, Undoable, Undone, Installed, RunFor, CleanBackup, RollbackSteps, RecoverTx;
    OwnSteps(s, q, d);
    var tx := d.journals[q.id];
    if fate.Landed? {
      FinishEnds(s, q, d, k);
    } else if Undoable(s, q, d) {
      RollbackUndoes(s, q, d, k);
    } else {
      CleanMoves(d, tx, k);
      CleanedFinal(s, q, d, tx, k);
      CleanedFinal(s, q, d, tx, |CleanBackup(d, tx)|);
    }
  }

  lemma RecoverOtherKeeps(s: Store, q: Request, d: Store, tx: Tx, k: nat, fate: Fate)
    requires Ready(s, q) && Phase(s, q, d, fate) && tx.id in d.journals && d.journals[tx.id] == tx && tx.id != q.id
    ensures var prog := RecoverTx(d, tx);
            && prog == CleanBackup(d, tx) && |prog| <= 2
            && Phase(s, q, RunFor(d, prog, k), fate)
            && (Final(s, q, d, fate) ==> Final(s, q, RunFor(d, prog, k), fate))
  {
    assert tx.id in d.journals - {q.id} && (s.journals - {q.id})[tx.id] == tx;
    CleanMoves(d, tx, k);
    hide Ready, RunFor, CleanBackup, Consistent;
    ClearedKeeps(s, q, d, RunFor(d, CleanBackup(d, tx), k), tx.id, fate);
  }

  ghost predicate TouchesOnly(prog: seq<Step>, id: Id) {
    forall i | 0 <= i < |prog| :: (prog[i].PutTx? ==> prog[i].tx.id == id) && (prog[i].DropTx? ==> prog[i].id == id)
  }

  lemma TouchStep(d: Store, c: Step, id: Id)
    requires (c.PutTx? ==> c.tx.id == id) && (c.DropTx? ==> c.id == id)
    ensures Apply(d, c).journals - {id} == d.journals - {id}
  {
  }

  lemma {:induction false} TouchedOnly(d: Store, prog: seq<Step>, id: Id)
    requires TouchesOnly(prog, id)
    ensures Run(d, prog).journals - {id} == d.journals - {id}
    decreases |prog|
  {
    if prog != [] {
      TouchStep(d, prog[0], id);
      hide Apply;
      TouchedOnly(Apply(d, prog[0]), prog[1..], id);
    }
  }

  /** Recovering one journal touches no other. */
  lemma OthersStay(d: Store, tx: Tx)
    ensures Run(d, RecoverTx(d, tx)).journals - {tx.id} == d.journals - {tx.id}
  {
    assert TouchesOnly(RecoverTx(d, tx), tx.id) by { hide RunFor, With; }
    hide RunFor, RecoverTx, TouchesOnly;
    TouchedOnly(d, RecoverTx(d, tx), tx.id);
  }

  /** One journal, whoever it belongs to, with power lost after any number of its steps. */
  lemma RecoverOneKeeps(s: Store, q: Request, d: Store, tx: Tx, k: nat, fate: Fate)
    requires Ready(s, q) && Phase(s, q, d, fate) && tx.id in d.journals && d.journals[tx.id] == tx
    ensures var prog := RecoverTx(d, tx);
            && |prog| <= 6 && Phase(s, q, RunFor(d, prog, k), fate)
            && Run(d, prog).journals - {tx.id} == d.journals - {tx.id}
            && (tx.id == q.id || Final(s, q, d, fate) ==> Final(s, q, Run(d, prog), fate))
  {
    hide Ready, Phase, Final, RecoverTx, RunFor, CleanBackup;
    OthersStay(d, tx);
    if tx.id == q.id {
      RecoverOwnKeeps(s, q, d, k, fate);
    } else {
      RecoverOtherKeeps(s, q, d, tx, k, fate);
      RecoverOtherKeeps(s, q, d, tx, |RecoverTx(d, tx)|, fate);
    }
  }

  ghost predicate Pending(txs: seq<Tx>, journals: map<Id, Tx>) {
    && (forall i | 0 <= i < |txs| :: txs[i].id in journals && journals[txs[i].id] == txs[i])
    && (forall i, j | 0 <= i < j < |txs| :: txs[i].id != txs[j].id)
  }

  lemma PendingTail(txs: seq<Tx>, before: map<Id, Tx>, later: map<Id, Tx>)
    requires txs != [] && Pending(txs, before) && later - {txs[0].id} == before - {txs[0].id}
    ensures Pending(txs[1..], later)
  {
    forall i | 0 <= i < |txs[1..]| ensures txs[1..][i].id in later && later[txs[1..][i].id] == txs[1..][i] {
      assert txs[i + 1].id in before - {txs[0].id} && txs[i + 1].id in later - {txs[0].id};
    }
  }

  lemma {:induction false} RecoverTxsKeeps(s: Store, q: Request, d: Store, txs: seq<Tx>, power: nat, fate: Fate)
    requires Ready(s, q) && Phase(s, q, d, fate) && Pending(txs, d.journals)
    ensures var (e, done) := RecoverTxs(d, txs, power);
            && Phase(s, q, e, fate) && (power >= 6 * |txs| ==> done)
            && (done && (Final(s, q, d, fate) || exists i | 0 <= i < |txs| :: txs[i].id == q.id) ==> Final(s, q, e, fate))
    decreases |txs|
  {
    if txs != [] {
      hide Phase, Final, Ready;
      var prog := RecoverTx(d, txs[0]);
      RecoverOneKeeps(s, q, d, txs[0], power, fate);
      RecoverOneKeeps(s, q, d, txs[0], |prog|, fate);
      if power >= |prog| {
        PendingTail(txs, d.journals, Run(d, prog).journals);
        RecoverTxsKeeps(s, q, Run(d, prog), txs[1..], power - |prog|, fate);
        if i :| 0 < i < |txs| && txs[i].id == q.id {
          assert txs[1..][i - 1].id == q.id;
        }
      }
    }
  }

  lemma StartupKeeps(s: Store, q: Request, d: Store, txs: seq<Tx>, power: nat, fate: Fate)
    requires Ready(s, q) && Phase(s, q, d, fate) && Lists(txs, d.journals)
    ensures var (e, done) := Startup(d, txs, power);
            && Phase(s, q, e, fate) && (power >= 6 * |txs| + 1 ==> done) && (done ==> Final(s, q, e, fate))
  {
    hide Phase, Final, Ready, Lists, RepairSteps, RecoverTxs;
    RepairKeeps(s, q, d, fate);
    var repair := RepairSteps(d);
    if power >= |repair| {
      ListedOrFinal(s, q, Run(d, repair), txs, fate);
      RecoverTxsKeeps(s, q, Run(d, repair), txs, power - |repair|, fate);
    }
  }

  lemma ListedOrFinal(s: Store, q: Request, d: Store, txs: seq<Tx>, fate: Fate)
    requires Ready(s, q) && Phase(s, q, d, fate) && Lists(txs, d.journals)
    ensures Pending(txs, d.journals)
    ensures Final(s, q, d, fate) || exists i | 0 <= i < |txs| :: txs[i].id == q.id
  {
    hide Consistent;
  }

  // ---- theorems ----

  ghost predicate Restarted(d: Store, e: Store) {
    exists txs, power :: StartsAs(d, txs, power, e)
  }

  ghost predicate StartsAs(d: Store, txs: seq<Tx>, power: nat, e: Store) {
    Lists(txs, d.journals) && e == Startup(d, txs, power).0
  }

  ghost predicate Restarts(trail: seq<Store>) {
    trail != [] && forall i | 0 < i < |trail| :: Restarted(trail[i - 1], trail[i])
  }

  lemma {:induction false} RestartsKeep(s: Store, q: Request, trail: seq<Store>, n: nat, fate: Fate)
    requires Ready(s, q) && Restarts(trail) && Phase(s, q, trail[0], fate) && n < |trail|
    ensures Phase(s, q, trail[n], fate)
  {
    if n > 0 {
      RestartsKeep(s, q, trail, n - 1, fate);
      var txs, power :| StartsAs(trail[n - 1], txs, power, trail[n]);
      StartupKeeps(s, q, trail[n - 1], txs, power, fate);
    }
  }

  /** The whole registry and every payload as before. Only a payload that no record mentions can be
      missing: when the operation had begun but not yet journalled a backup of it. */
  ghost predicate AllBefore(s: Store, q: Request, d: Store, lost: bool) {
    d.registry == s.registry && d.payloads == if lost then s.payloads - {q.At()} else s.payloads
  }

  /** The record, one field at a time: the version joins those there were, and its manifest and hash are recorded. */
  predicate Recorded(rec: Record, prior: Option<Record>, q: Request) {
    && rec.versions == (if prior.Some? then prior.value.versions else {}) + {q.ver}
    && rec.manifest == q.manifest
    && rec.hashes == (if prior.Some? then prior.value.hashes else map[])[q.ver := q.content]
  }

  /** The new version is recorded and active over its payload; every other record and payload is as before. */
  ghost predicate AllAfter(s: Store, q: Request, d: Store) {
    && q.ext in d.registry && d.registry[q.ext].active == q.ver
    && Recorded(d.registry[q.ext], if q.ext in s.registry then Some(s.registry[q.ext]) else None, q)
    && (forall ext | ext != q.ext :: (ext in d.registry <==> ext in s.registry) && (ext in d.registry ==> d.registry[ext] == s.registry[ext]))
    && q.At() in d.payloads && d.payloads[q.At()] == Whole(q.content)
    && forall at | at != q.At() :: (at in d.payloads <==> at in s.payloads) && (at in d.payloads ==> d.payloads[at] == s.payloads[at])
  }

  lemma SwitchedIsAfter(s: Store, q: Request, d: Store)
    requires d.registry == s.registry[q.ext := Switched(s.registry, q)] && d.payloads == s.payloads[q.At() := Whole(q.content)]
    ensures AllAfter(s, q, d)
  {
  }

  /** Everything is installed after the last step. */
  lemma InstalledWhole(s: Store, q: Request)
    requires Ready(s, q)
    ensures AllAfter(s, q, Run(s, InstallProgram(s, q)))
  {
    hide Ready, RunFor, AllAfter, JournalAt, BackupAt, InstallProgram, Switched;
    var n := |InstallProgram(s, q)|;
    PrefixAt(s, q, n);
    LastAt(s, q, n);
    SwitchedIsAfter(s, q, Run(s, InstallProgram(s, q)));
  }

  lemma LastAt(s: Store, q: Request, n: nat)
    requires n == |InstallProgram(s, q)|
    ensures RegistryAt(s, q, n) == s.registry[q.ext := Switched(s.registry, q)] && PayloadAt(s, q, n) == Some(Whole(q.content))
  {
    hide Added, Switched;
  }

  lemma WholeMap<K, V>(a: map<K, V>, b: map<K, V>, k: K)
    requires a - {k} == b - {k} && (k in a <==> k in b) && (k in a ==> a[k] == b[k])
    ensures a == b
  {
    forall x | x in a ensures x in b && a[x] == b[x] {
      if x != k { assert x in a - {k}; assert (a - {k})[x] == (b - {k})[x]; }
    }
    forall x | x in b ensures x in a {
      if x != k { assert x in b - {k}; }
    }
  }

  predicate Loses(s: Store, q: Request, fate: Fate) { Orphan(s, q) && fate == Open(false) }

  lemma FinalIs(s: Store, q: Request, d: Store, fate: Fate)
    requires Final(s, q, d, fate)
    ensures if fate.Landed? then AllAfter(s, q, d) && q.id !in d.journals else AllBefore(s, q, d, Loses(s, q, fate))
  {
    if fate.Landed? {
      WholeMap(d.registry, s.registry[q.ext := Switched(s.registry, q)], q.ext);
      WholeMap(d.payloads, s.payloads[q.At() := Whole(q.content)], q.At());
      hide Switched;
      SwitchedIsAfter(s, q, d);
    } else {
      WholeMap(d.registry, s.registry, q.ext);
      WholeMap(d.payloads, if Loses(s, q, fate) then s.payloads - {q.At()} else s.payloads, q.At());
    }
  }

  /** Atomicity: lose power before any step k of an install or upgrade, restart and lose power again as
      often as you like; the first startup that runs to its end has the whole registry and every
      payload as before, or as after. As after exactly when the success of the callback had been
      journalled. */
  lemma InstallAtomicity(s: Store, q: Request, k: nat, trail: seq<Store>, txs: seq<Tx>, power: nat)
    requires Ready(s, q) && k <= |InstallProgram(s, q)| && Restarts(trail) && trail[0] == RunFor(s, InstallProgram(s, q), k)
    requires Lists(txs, trail[|trail| - 1].journals)
    ensures var (e, done) := Startup(trail[|trail| - 1], txs, power);
            && (power >= 6 * |txs| + 1 ==> done)
            && (done ==> if k > Success(s, q) then AllAfter(s, q, e) && q.id !in e.journals
                         else AllBefore(s, q, e, Orphan(s, q) && 1 <= k <= 5))
  {
    PrefixAt(s, q, k);
    var fate := FateAt(s, q, k);
    assert Loses(s, q, fate) <==> Orphan(s, q) && 1 <= k <= 5;
    hide Phase, Final, AllBefore, AllAfter, Ready, Lists, Startup, FateAt, Loses;
    AtPhase(s, q, trail[0], k);
    RestartsKeep(s, q, trail, |trail| - 1, fate);
    StartupKeeps(s, q, trail[|trail| - 1], txs, power, fate);
    var (e, done) := Startup(trail[|trail| - 1], txs, power);
    if done { FinalIs(s, q, e, fate); }
  }
}
