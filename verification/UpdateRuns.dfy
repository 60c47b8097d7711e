/** Every crash of a confirmed update and every way to restart: power is lost before any step of execute, and then in
    any number of startups, each of them while it recovers the publisher or while it recovers the update. */
module UpdateRuns {
  import opened Knowledge
  import opened Storage
  import opened PublishProtocol
  import opened PublishAtomicity
  import opened PublishRecovery
  import opened UpdateProtocol
  import opened UpdateAtomicity
  import opened UpdateRestarts
  import H = PublishHandlerCrash

  // ---- startups ----

  /** A startup: the publication journals as they are listed, the power that recovering them may use, the step of
      the update recovery before which power is lost, and the clock that this reads. */
  datatype Start = Start(txs: seq<PublishTx>, power: nat, at: nat, now: Stamp) {
    function Stop(): Restart { Restart(at, now) }
  }

  ghost predicate Reaches(d: Disk, s: Start) { RecoverAll(d, s.txs, s.power).1 == Ready }

  /** The disk that a startup leaves: the update is recovered only once the publisher is. */
  ghost function Boot(d: Disk, id: Id, s: Start): Disk {
    var e := RecoverAll(d, s.txs, s.power).0;
    if Reaches(d, s) then Interrupt(e, id, s.Stop()) else e
  }

  ghost function Boots(d: Disk, id: Id, ss: seq<Start>): Disk
    decreases |ss|
  {
    if ss == [] then d else Boots(Boot(d, id, ss[0]), id, ss[1..])
  }

  /** Every startup lists the journals that it finds. */
  ghost predicate Listed(d: Disk, id: Id, ss: seq<Start>)
    decreases |ss|
  {
    ss == [] || (Lists(ss[0].txs, d.journals) && Listed(Boot(d, id, ss[0]), id, ss[1..]))
  }

  function Stops(ss: seq<Start>): seq<Restart> { seq(|ss|, i requires 0 <= i < |ss| => ss[i].Stop()) }

  /** The startups that came as far as the update. */
  ghost function Reached(d: Disk, id: Id, ss: seq<Start>): seq<Restart>
    decreases |ss|
  {
    if ss == [] then []
    else (if Reaches(d, ss[0]) then [ss[0].Stop()] else []) + Reached(Boot(d, id, ss[0]), id, ss[1..])
  }

  /** The disk on which the publisher is recovered for the first time, at the latest by the last startup. */
  ghost function Arrival(d: Disk, id: Id, ss: seq<Start>, last: seq<PublishTx>, power: nat): Disk
    decreases |ss|
  {
    if ss == [] then RecoverAll(d, last, power).0
    else if Reaches(d, ss[0]) then RecoverAll(d, ss[0].txs, ss[0].power).0
    else Arrival(Boot(d, id, ss[0]), id, ss[1..], last, power)
  }

  // ---- while the publisher is being recovered ----

  /** The publication is in flight, the books of the update are those of step k. */
  ghost predicate Suspended(d0: Disk, c: Change, d: Disk, k: nat) {
    && InFlight(Base(d0, d), c.Publication(), d) && BooksAt(d0, c, d, k)
    && (Before(Base(d0, d), c.Publication(), d) <==> k <= FirstMove(d0, c))
    && (k > Tail(d0, c) ==> Landed(Base(d0, d), c.Publication(), d))
  }

  lemma CrashSuspends(d0: Disk, c: Change, k: nat)
    requires Startable(d0, c) && k <= Tail(d0, c) + 6
    ensures Suspended(d0, c, RunFor(d0, UpdateProgram(d0, c), k), k)
  {
    hide RunFor, UpdateProgram, At, BooksAt, Before, Between, Unjournalled, AfterSwap, Landed, InFlight, Startable;
    UpdatePrefix(d0, c, k);
    var d, r := RunFor(d0, UpdateProgram(d0, c), k), c.Publication();
    BaseSwap(d0, d, r);
    AtInFlight(Base(d0, d), r, d, PublishSteps(d0, c, k));
    UpdateAtomicity.AtPhase(Base(d0, d), r, d, PublishSteps(d0, c, k));
    OwnPhases(Base(d0, d), r, d);
  }

  lemma SettledCases(d0: Disk, r: Request, d: Disk, e: Disk)
    requires InFlight(d0, r, d) && Resolves(d0, r, d, e)
    ensures Frame(d0, r, e) && (Before(d0, r, e) || Unjournalled(d0, r, e) || Landed(d0, r, e))
    ensures e.updates == d0.updates && e.schema == d0.schema && e.schemaSnaps == d0.schemaSnaps
  {
    hide Before, Unjournalled, Landed, InFlight;
  }

  lemma InFlightBooks(d0: Disk, r: Request, e: Disk)
    requires InFlight(d0, r, e)
    ensures e.updates == d0.updates && e.schema == d0.schema && e.schemaSnaps == d0.schemaSnaps
  {
  }

  lemma SameBooksAt(d0: Disk, c: Change, d: Disk, e: Disk, k: nat)
    requires BooksAt(d0, c, d, k) && SameBooks(d, e)
    ensures BooksAt(d0, c, e, k)
  {
    hide JournalAt, NewHistory, SwapIndex;
  }

  lemma PublisherStops(d0: Disk, c: Change, d: Disk, k: nat, txs: seq<PublishTx>, power: nat)
    requires Startable(d0, c) && Suspended(d0, c, d, k) && Lists(txs, d.journals)
    ensures var (e, s) := RecoverAll(d, txs, power);
            && s != Stuck && (power >= 6 * |txs| ==> s == Ready)
            && (s == Crashed ==> Suspended(d0, c, e, k))
            && (s == Ready ==> Recovered(d0, c, e, k) && e.journals == map[])
  {
    hide RecoverAll, Lists, Quiet, Frame, Before, Between, Unjournalled, AfterSwap, Landed, BooksAt, InFlight, FirstMove, Tail;
    var b, r := Base(d0, d), c.Publication();
    QuietBase(d0, d, r);
    RecoverAllKeeps(b, r, d, txs, power);
    var (e, s) := RecoverAll(d, txs, power);
    InFlightBooks(b, r, e);
    assert Base(d0, e) == b;
    SameBooksAt(d0, c, d, e, k);
    if s == Ready { SettledCases(b, r, d, e); }
  }

  // ---- once it is recovered ----

  lemma NoTxWrites(d: Disk, tx: UpdateTx, now: Stamp)
    ensures forall i | 0 <= i < |RecoverUpdate(d, tx, now).cmds| ::
              !RecoverUpdate(d, tx, now).cmds[i].PutTx? && !RecoverUpdate(d, tx, now).cmds[i].DropTx?
  {
    hide SchemaVisible, TransactionVisible, Carries, LatestSnapshot, Replay, IndexOf, RestoredPointer, RollbackEntry, Apply;
  }

  lemma InterruptKeepsJournals(d: Disk, id: Id, r: Restart)
    ensures Interrupt(d, id, r).journals == d.journals
  {
    hide RecoverUpdate, RunFor;
    if id in d.updates {
      NoTxWrites(d, d.updates[id], r.now);
      H.JournalsKept(d, RecoverUpdate(d, d.updates[id], r.now).cmds, r.at);
    }
  }

  lemma NoJournals(d: Disk, txs: seq<PublishTx>, power: nat)
    requires d.journals == map[] && Lists(txs, d.journals)
    ensures RecoverAll(d, txs, power) == (d, Ready)
  {
    FirstInJournals(txs, d.journals);
  }

  lemma FirstInJournals(txs: seq<PublishTx>, journals: map<Id, PublishTx>)
    requires Lists(txs, journals)
    ensures txs != [] ==> txs[0].publishId in journals
  {
  }

  /** From then on every startup works on the update alone. */
  lemma {:induction false} AllReach(d: Disk, id: Id, ss: seq<Start>)
    requires d.journals == map[] && Listed(d, id, ss)
    ensures Reached(d, id, ss) == Stops(ss)
    ensures Boots(d, id, ss) == UpdateRestarts.Interrupted(d, id, Stops(ss)) && Boots(d, id, ss).journals == map[]
    decreases |ss|
  {
    hide RecoverAll, Interrupt, Lists;
    if ss != [] {
      NoJournals(d, ss[0].txs, ss[0].power);
      InterruptKeepsJournals(d, id, ss[0].Stop());
      AllReach(Boot(d, id, ss[0]), id, ss[1..]);
      assert Stops(ss) == [ss[0].Stop()] + Stops(ss[1..]);
      assert Stops(ss)[1..] == Stops(ss[1..]);
    }
  }

  // ---- the two phases of a run ----

  lemma LaterClocks(rs: seq<Restart>, now: Stamp, later: Stamp)
    requires Clocks(rs, later) && now <= later
    ensures Clocks(rs, now) && ClockAfter(rs, now) <= ClockAfter(rs, later)
  {
  }

  /** However the startups end, the update is recovered from one settled disk, interrupted by those that reach it. */
  lemma {:induction false} TwoPhases(d0: Disk, c: Change, d: Disk, k: nat, ss: seq<Start>, last: seq<PublishTx>, power: nat, now: Stamp)
    requires Startable(d0, c) && Suspended(d0, c, d, k) && Listed(d, c.txId, ss) && Clocks(Stops(ss), now)
    requires Lists(last, Boots(d, c.txId, ss).journals) && power >= 6 * |last|
    ensures var e, rs := Arrival(d, c.txId, ss, last, power), Reached(d, c.txId, ss);
            && Recovered(d0, c, e, k)
            && RecoverAll(Boots(d, c.txId, ss), last, power) == (UpdateRestarts.Interrupted(e, c.txId, rs), Ready)
            && Clocks(rs, now) && ClockAfter(rs, now) <= ClockAfter(Stops(ss), now)
    decreases |ss|
  {
    hide RecoverAll, Interrupt, Lists, Startable, Suspended, Recovered;
    var id := c.txId;
    if ss == [] {
      PublisherStops(d0, c, d, k, last, power);
    } else {
      var s := ss[0];
      assert Stops(ss)[1..] == Stops(ss[1..]);
      PublisherStops(d0, c, d, k, s.txs, s.power);
      var e := RecoverAll(d, s.txs, s.power).0;
      if Reaches(d, s) {
        InterruptKeepsJournals(e, id, s.Stop());
        AllReach(Boot(d, id, s), id, ss[1..]);
        assert Reached(d, id, ss) == Stops(ss);
        NoJournals(Boots(d, id, ss), last, power);
      } else {
        TwoPhases(d0, c, e, k, ss[1..], last, power, s.now + 1);
        assert Reached(d, id, ss) == Reached(e, id, ss[1..]);
        LaterClocks(Reached(d, id, ss), now, s.now + 1);
      }
    }
  }

  // ---- what the settled disk decides ----

  /** The publication is journalled over an old tree, and the history is not committed: rolled back by renaming. */
  predicate Renames(d0: Disk, c: Change, k: nat) {
    !KeysStale(d0, c) && k == Tail(d0, c) + 1 && c.Target() in d0.trees
  }

  /** The journal names no snapshot, and the history is not committed: rolled back by deletion. */
  predicate Drops(d0: Disk, c: Change, k: nat) {
    !KeysStale(d0, c) && (FirstMove(d0, c) < k <= Tail(d0, c) || (k == Tail(d0, c) + 1 && c.Target() !in d0.trees))
  }

  /** Where a run ends. Only the two rollbacks depend on the restarts. */
  ghost predicate EndsRun(d0: Disk, c: Change, k: nat, halfway: nat, beyond: nat, f: Disk, ok: bool) {
    if Renames(d0, c, k) then
      && ok && f.schema == d0.schema && f.updates == map[]
      && (HoldsNew(c, f) <==> halfway % 2 == 1) && (!HoldsNew(c, f) ==> SameAt(d0, f, c.Target()))
    else if Drops(d0, c, k) then
      && f.schema == d0.schema && (ok ==> f.updates == map[])
      && (ok <==> !(k == Tail(d0, c) + 1 && 3 <= beyond <= 4))
      && (c.Target() in f.trees <==> beyond == 3) && (c.Target() in f.trees ==> f.trees[c.Target()] == Torn(None))
    else ok && f.updates == map[] && Ends(d0, c, f, FateOf(d0, c, k))
  }

  /** The journal is dropped, committed or not, and nothing else moves. */
  ghost predicate Harmless(c: Change, e: Disk, d: Disk) {
    && d.trees == e.trees && d.schema == e.schema
    && (d == e || d.updates == map[] || exists tx: UpdateTx :: tx.txId == c.txId && tx.state == UpdCommitted && d.updates == map[c.txId := tx])
  }

  predicate Closes(rec: Recovery, tx: UpdateTx) {
    rec == Recovery(Remove(tx), true) || rec == Recovery([PutUpd(tx.(state := UpdCommitted))] + Remove(tx), true)
  }

  lemma OtherwiseCloses(d0: Disk, c: Change, e: Disk, k: nat, now: Stamp)
    requires Startable(d0, c) && Recovered(d0, c, e, k) && 2 <= k <= Tail(d0, c) + 4 && !Renames(d0, c, k) && !Drops(d0, c, k)
    ensures c.txId in e.updates && e.updates == map[c.txId := e.updates[c.txId]] && e.updates[c.txId].txId == c.txId
    ensures Closes(RecoverUpdate(e, e.updates[c.txId], now), e.updates[c.txId])
  {
    hide RecoverUpdate, RollBack, BooksAt, Startable, KeysStale, Frame, Before, Unjournalled, Landed;
    OnlyJournal(d0, c, e, k);
    TailLate(d0, c);
    if k <= FirstMove(d0, c) { Abandoned(d0, c, e, k, now); }
    else if k <= Tail(d0, c) { UpdateAtomicity.Interrupted(d0, c, e, k, now); }
    else if k == Tail(d0, c) + 1 { UpdateAtomicity.Uncommitted(d0, c, e, now); }
    else { Completed(d0, c, e, k, now); }
  }

  /** Three steps at most, and the journal is what it was, committed, or gone. */
  lemma ClosingPrefix(d: Disk, tx: UpdateTx, rec: Recovery, j: nat)
    requires d.updates == map[tx.txId := tx] && Closes(rec, tx)
    ensures var g := RunFor(d, rec.cmds, j);
            && g.trees == d.trees && g.schema == d.schema
            && (g == d || g.updates == map[] || g.updates == map[tx.txId := tx.(state := UpdCommitted)])
            && (j >= |rec.cmds| ==> g.updates == map[])
  {
    hide RunFor;
    var done := tx.(state := UpdCommitted);
    if rec.cmds == Remove(tx) {
      RemovePrefix(d, tx, j);
    } else {
      assert map[tx.txId := tx][tx.txId := done] == map[tx.txId := done];
      RunNone(d, rec.cmds);
      RunConcat(d, [PutUpd(done)], Remove(tx), j);
      RunOne(d, PutUpd(done));
      if j > 0 { RemovePrefix(Apply(d, PutUpd(done)), done, j - 1); }
    }
  }

  lemma HarmlessStep(c: Change, e: Disk, d: Disk, r: Restart)
    requires Harmless(c, e, d)
    requires e.updates == map[] || (c.txId in e.updates && e.updates == map[c.txId := e.updates[c.txId]] && e.updates[c.txId].txId == c.txId)
    requires c.txId in e.updates ==> Closes(RecoverUpdate(e, e.updates[c.txId], r.now), e.updates[c.txId])
    ensures Harmless(c, e, Interrupt(d, c.txId, r))
    ensures c.txId in d.updates ==>
              var rec := RecoverUpdate(d, d.updates[c.txId], r.now);
              rec.ok && d.updates == map[c.txId := d.updates[c.txId]] && (r.at >= |rec.cmds| ==> Interrupt(d, c.txId, r).updates == map[])
  {
    hide RunFor, Closes;
    if c.txId in d.updates {
      var tx := d.updates[c.txId];
      if tx.state == UpdCommitted { CommittedCloses(d, tx, r.now); }
      ClosesOk(RecoverUpdate(d, tx, r.now), tx);
      hide RecoverUpdate;
      ClosingPrefix(d, tx, RecoverUpdate(d, tx, r.now), r.at);
    }
  }

  lemma CommittedCloses(d: Disk, tx: UpdateTx, now: Stamp)
    requires tx.state == UpdCommitted
    ensures Closes(RecoverUpdate(d, tx, now), tx)
  {
  }

  lemma ClosesOk(rec: Recovery, tx: UpdateTx)
    requires Closes(rec, tx)
    ensures rec.ok
  {
  }

  lemma {:induction false} HarmlessRun(d0: Disk, c: Change, e: Disk, k: nat, d: Disk, rs: seq<Restart>)
    requires Startable(d0, c) && Recovered(d0, c, e, k) && k <= Tail(d0, c) + 6 && !Renames(d0, c, k) && !Drops(d0, c, k)
    requires Harmless(c, e, d)
    ensures Harmless(c, e, UpdateRestarts.Interrupted(d, c.txId, rs))
    decreases |rs|
  {
    hide Startable, Recovered, Harmless, Interrupt, Closes, RecoverUpdate, Tail, Renames, Drops, FirstMove;
    if rs != [] {
      HarmlessOnce(d0, c, e, k, d, rs[0]);
      HarmlessRun(d0, c, e, k, Interrupt(d, c.txId, rs[0]), rs[1..]);
    }
  }

  lemma HarmlessOnce(d0: Disk, c: Change, e: Disk, k: nat, d: Disk, r: Restart)
    requires Startable(d0, c) && Recovered(d0, c, e, k) && k <= Tail(d0, c) + 6 && !Renames(d0, c, k) && !Drops(d0, c, k)
    requires Harmless(c, e, d)
    ensures Harmless(c, e, Interrupt(d, c.txId, r))
    ensures c.txId in d.updates ==>
              var rec := RecoverUpdate(d, d.updates[c.txId], r.now);
              rec.ok && d.updates == map[c.txId := d.updates[c.txId]] && (r.at >= |rec.cmds| ==> Interrupt(d, c.txId, r).updates == map[])
  {
    hide Startable, Recovered, Harmless, Interrupt, Closes, RecoverUpdate, Tail, Renames, Drops, FirstMove;
    if 2 <= k <= Tail(d0, c) + 4 { OtherwiseCloses(d0, c, e, k, r.now); } else { RecoveredIdle(d0, c, e, k); }
    HarmlessStep(c, e, d, r);
  }

  lemma EndsAsTrees(d0: Disk, c: Change, e: Disk, f: Disk, fate: Fate)
    requires Ends(d0, c, e, fate) && f.trees == e.trees && f.schema == e.schema
    ensures Ends(d0, c, f, fate)
  {
    hide NewHistory;
  }

  lemma SettledFate(d0: Disk, c: Change, e: Disk, k: nat)
    requires Startable(d0, c) && Recovered(d0, c, e, k) && k <= Tail(d0, c) + 6 && !Renames(d0, c, k) && !Drops(d0, c, k)
    ensures Ends(d0, c, e, FateOf(d0, c, k))
  {
    hide Startable, Recovered, Ends, RecoverUpdate, KeysStale;
    if 2 <= k <= Tail(d0, c) + 4 {
      var now := c.now + 1;
      OtherwiseCloses(d0, c, e, k, now);
      UpdateEnds(d0, c, e, k, now);
      var tx := e.updates[c.txId];
      var rec := RecoverUpdate(e, tx, now);
      ClosingPrefix(e, tx, rec, |rec.cmds|);
      EndsAsTrees(d0, c, Run(e, rec.cmds), e, FateOf(d0, c, k));
    } else {
      RecoveredIdle(d0, c, e, k);
    }
  }

  lemma ClosedEnds(d0: Disk, c: Change, e: Disk, k: nat, rs: seq<Restart>, later: Stamp, updates: seq<UpdateTx>)
    requires Startable(d0, c) && Recovered(d0, c, e, k) && k <= Tail(d0, c) + 6 && !Renames(d0, c, k) && !Drops(d0, c, k)
    requires ListsUpdates(updates, UpdateRestarts.Interrupted(e, c.txId, rs).updates)
    ensures var (f, ok) := RecoverUpdates(UpdateRestarts.Interrupted(e, c.txId, rs), updates, later);
            ok && f.updates == map[] && Ends(d0, c, f, FateOf(d0, c, k))
  {
    hide Startable, Recovered, Ends, RecoverUpdate, ListsUpdates, Renames, Drops, Tail, FateOf;
    HarmlessRun(d0, c, e, k, e, rs);
    var d := UpdateRestarts.Interrupted(e, c.txId, rs);
    SettledFate(d0, c, e, k);
    if c.txId in d.updates {
      var rec := RecoverUpdate(d, d.updates[c.txId], later);
      HarmlessOnce(d0, c, e, k, d, Restart(|rec.cmds|, later));
      SingleUpdate(updates, d.updates, c.txId);
      RecoverSingle(d, d.updates[c.txId], later);
      EndsAsTrees(d0, c, e, Run(d, rec.cmds), FateOf(d0, c, k));
    } else {
      HarmlessEmpty(d0, c, e, k, d);
      NoUpdates(updates, d.updates);
      EndsAsTrees(d0, c, e, d, FateOf(d0, c, k));
    }
  }

  lemma HarmlessEmpty(d0: Disk, c: Change, e: Disk, k: nat, d: Disk)
    requires Startable(d0, c) && Recovered(d0, c, e, k) && k <= Tail(d0, c) + 6 && Harmless(c, e, d) && c.txId !in d.updates
    ensures d.updates == map[]
  {
    hide Startable, Recovered;
    if 2 <= k <= Tail(d0, c) + 4 { RecoveredJournal(d0, c, e, k); } else { RecoveredIdle(d0, c, e, k); }
  }

  lemma RestartsDecide(d0: Disk, c: Change, e: Disk, k: nat, rs: seq<Restart>, later: Stamp, updates: seq<UpdateTx>)
    requires Startable(d0, c) && Recovered(d0, c, e, k) && k <= Tail(d0, c) + 6
    requires Clocks(rs, c.now + 1) && ClockAfter(rs, c.now + 1) <= later
    requires ListsUpdates(updates, UpdateRestarts.Interrupted(e, c.txId, rs).updates)
    ensures var (f, ok) := RecoverUpdates(UpdateRestarts.Interrupted(e, c.txId, rs), updates, later);
            EndsRun(d0, c, k, Halfway(e, c.txId, rs), FirstBeyond(rs), f, ok)
  {
    hide Startable, Recovered, Ends, RecoverUpdates, ListsUpdates, UpdateRestarts.Interrupted, Halfway, FirstBeyond, KeysStale, Deletes, Tail, FirstMove;
    if Renames(d0, c, k) {
      RestartsToggle(d0, c, e, c.now + 1, rs, later, updates);
    } else if Drops(d0, c, k) {
      DeletesArises(d0, c, e, k);
      DropState(d0, c, e, k);
      RestartsWhileDeleting(c, e, e.updates[c.txId], rs, later, updates);
    } else {
      ClosedEnds(d0, c, e, k, rs, later, updates);
    }
  }

  lemma DropState(d0: Disk, c: Change, e: Disk, k: nat)
    requires Recovered(d0, c, e, k) && Drops(d0, c, k)
    ensures c.txId in e.updates && e.schema == d0.schema
    ensures e.updates[c.txId].state == UpdSkillPublished <==> k == Tail(d0, c) + 1
  {
    hide Frame, Before, Unjournalled, Landed, KeysStale, PublishedIndex, Keys, NewHistory;
    TailLate(d0, c);
  }

  // ---- theorem ----

  /** Lose power before any step k of a confirmed update, then in any number of startups, each in either recovery,
      and let one startup run to its end. Outside the two rollbacks the fate of the update is decided by k alone.
      A rollback by renaming brings the rejected tree back exactly when an odd number of the startups stopped halfway
      through it; a rollback by deletion leaves a torn slot, or refuses, exactly as the first startup decides
      that came past the readable metadata. The history is the old one whenever it was not committed. */
  lemma AnyRun(d0: Disk, c: Change, k: nat, ss: seq<Start>, last: seq<PublishTx>, power: nat, updates: seq<UpdateTx>, later: Stamp)
    requires Startable(d0, c) && k <= Tail(d0, c) + 6
    requires var d := RunFor(d0, UpdateProgram(d0, c), k);
             && Listed(d, c.txId, ss) && Lists(last, Boots(d, c.txId, ss).journals) && power >= 6 * |last|
             && ListsUpdates(updates, RecoverAll(Boots(d, c.txId, ss), last, power).0.updates)
    requires Clocks(Stops(ss), c.now + 1) && ClockAfter(Stops(ss), c.now + 1) <= later
    ensures var d := RunFor(d0, UpdateProgram(d0, c), k);
            var (g, s) := RecoverAll(Boots(d, c.txId, ss), last, power);
            var (f, ok) := RecoverUpdates(g, updates, later);
            var e, rs := Arrival(d, c.txId, ss, last, power), Reached(d, c.txId, ss);
            s == Ready && EndsRun(d0, c, k, Halfway(e, c.txId, rs), FirstBeyond(rs), f, ok)
  {
    hide RunFor, UpdateProgram, RecoverAll, RecoverUpdates, Startable, Recovered, Suspended, Listed, Lists, ListsUpdates, EndsRun, Boots, Arrival,
         Reached, Stops, Clocks, ClockAfter, Halfway, FirstBeyond, Tail;
    var d := RunFor(d0, UpdateProgram(d0, c), k);
    CrashSuspends(d0, c, k);
    TwoPhases(d0, c, d, k, ss, last, power, c.now + 1);
    RestartsDecide(d0, c, Arrival(d, c.txId, ss, last, power), k, Reached(d, c.txId, ss), later, updates);
  }
}
