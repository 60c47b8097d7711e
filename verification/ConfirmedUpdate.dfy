/** From the plan to the transaction: the update that execute carries out appends what the fold-in prepared
    (src/book2skill/application/update.py, lines 336-516), and this is when its crash recovery can be deceived. */
module ConfirmedUpdate {
  import opened Knowledge
  import opened Views
  import opened Merge
  import opened FoldIn
  import opened FoldInLaws
  import opened Storage
  import opened PublishProtocol
  import P = UpdateProtocol
  import U = UpdateAtomicity

  /** What execute knows besides the plan. */
  datatype Intent = Intent(txId: Id, coll: string, name: string, now: Stamp, publishId: Id, artifact: Id, counts: nat)

  /** The change that is carried out once a plan is confirmed. */
  function Confirmed(d0: Disk, i: Intent, analysed: seq<Unit>, active: seq<Override>, removals: bool): P.Change
    requires AllValid(active)
  {
    var s := Plan(P.HistoryOf(d0, i.coll), analysed, active, removals);
    P.Change(i.txId, i.coll, Pending(s, Approve(s)), i.name, i.now, i.publishId, i.artifact, i.counts)
  }

  predicate Appends(history: seq<Unit>, analysed: seq<Unit>, removals: bool, id: string) {
    || Adds(history, analysed, id) || Modifies(history, analysed, id)
    || (removals && Before(history, id).Some? && Proposed(history, analysed, id).None?)
  }

  /** All that the update appends are units that come back under a key that the history has. */
  ghost predicate OnlyReAdds(history: seq<Unit>, analysed: seq<Unit>, removals: bool) {
    forall id | Appends(history, analysed, removals, id) :: Adds(history, analysed, id) && HasKey(history, id, 1)
  }

  lemma AppendsIs(history: seq<Unit>, analysed: seq<Unit>, active: seq<Override>, removals: bool, id: string)
    requires AllValid(active) && Versioned(history, analysed)
    ensures var s := Plan(history, analysed, active, removals);
            Current(Pending(s, Approve(s)), id).Some? <==> Appends(history, analysed, removals, id)
  {
    hide Plan, Approve, Pending, Published, Proposed, ChangedFields, Current;
    PendingIs(history, analysed, active, removals, id);
    PublishedSame(history, analysed, active, removals);
    InPublished(history, analysed, active, removals, id);
  }

  lemma KeyThere(history: seq<Unit>, id: string, version: nat)
    ensures (id, version) in P.Keys(history) <==> HasKey(history, id, version)
  {
    if i :| 0 <= i < |history| && history[i].unitId == id && history[i].recordVersion == version {
      assert P.Keys(history)[i] == (id, version);
    }
    if (id, version) in P.Keys(history) {
      var i :| 0 <= i < |P.Keys(history)| && P.Keys(history)[i] == (id, version);
      assert history[i].unitId == id && history[i].recordVersion == version;
    }
  }

  /** All pending keys are in the history already exactly when the update does nothing but bring units back. */
  lemma StaleIsReAdding(history: seq<Unit>, analysed: seq<Unit>, active: seq<Override>, removals: bool)
    requires AllValid(active) && Versioned(history, analysed)
    ensures var s := Plan(history, analysed, active, removals);
            P.AllPresent(P.Keys(Pending(s, Approve(s))), history) <==> OnlyReAdds(history, analysed, removals)
  {
    hide Plan, Approve, Pending, Appends, Adds, Current, HasKey;
    var s := Plan(history, analysed, active, removals);
    var pending := Pending(s, Approve(s));
    PendingKey(history, analysed, active, removals, "");
    forall id
      ensures Current(pending, id).Some? <==> Appends(history, analysed, removals, id)
      ensures HasKey(history, id, 1) && Adds(history, analysed, id) <==> Collides(history, pending, id)
    {
      AppendsIs(history, analysed, active, removals, id);
      PendingKey(history, analysed, active, removals, id);
    }
    if P.AllPresent(P.Keys(pending), history) {
      forall id | Current(pending, id).Some? ensures Collides(history, pending, id) {
        var u := Current(pending, id).value;
        var i :| 0 <= i < |pending| && pending[i] == u;
        assert P.Keys(pending)[i] == (id, u.recordVersion);
        KeyThere(history, id, u.recordVersion);
      }
    }
    if OnlyReAdds(history, analysed, removals) {
      forall i | 0 <= i < |pending| ensures P.Keys(pending)[i] in P.Keys(history) {
        var u := pending[i];
        assert u in pending;
        CurrentInView(pending, u);
        KeyThere(history, u.unitId, u.recordVersion);
      }
    }
  }

  /** All or nothing for a confirmed plan: after a crash before any step of execute and a full restart, slot and
      history disagree exactly when the update only brings units back and the crash fell between the first move of a
      tree and the commit of the history. */
  lemma ConfirmedAllOrNothing(
      d0: Disk, i: Intent, analysed: seq<Unit>, active: seq<Override>, removals: bool,
      k: nat, txs: seq<PublishTx>, power: nat, updates: seq<UpdateTx>, now: Stamp)
    requires AllValid(active) && Versioned(P.HistoryOf(d0, i.coll), analysed)
    requires var c := Confirmed(d0, i, analysed, active, removals);
             && U.Startable(d0, c) && k <= P.Tail(d0, c) + 6 && c.now < now
             && Lists(txs, RunFor(d0, P.UpdateProgram(d0, c), k).journals) && power >= 6 * |txs|
             && P.ListsUpdates(updates, RecoverAll(RunFor(d0, P.UpdateProgram(d0, c), k), txs, power).0.updates)
    ensures var c := Confirmed(d0, i, analysed, active, removals);
            var f := U.RestartedDisk(d0, c, k, txs, power, updates, now);
            U.Agree(d0, c, f) <==>
              !(OnlyReAdds(P.HistoryOf(d0, i.coll), analysed, removals) && U.FirstMove(d0, c) < k <= P.Tail(d0, c) + 1)
  {
    hide RunFor, P.UpdateProgram, RecoverAll, U.Startable, U.Agree, U.RestartedDisk, OnlyReAdds, Lists, P.ListsUpdates, P.AllPresent, Plan, P.Tail, U.FirstMove;
    StaleIsReAdding(P.HistoryOf(d0, i.coll), analysed, active, removals);
    U.AllOrNothing(d0, Confirmed(d0, i, analysed, active, removals), k, txs, power, updates, now);
  }

  // ---- such an update exists ----

  /** A data home with one published Skill, and the history of a unit that was deprecated. */
  function Home(w: Unit, v: Unit): Disk {
    Disk(map[Slot("skill") := Whole(Some(3), None)], map[], map[], [], None, map[], map["book" := Deprecating(w, v)], map[])
  }

  const PLAIN := Intent(7, "book", "skill", 5, 8, 9, 1)

  /** The deprecated unit comes back, and nothing else. */
  function Comeback(w: Unit, v: Unit): P.Change { Confirmed(Home(w, v), PLAIN, [Analysed(v)], [], false) }

  lemma ComebackIsStale(w: Unit, v: Unit)
    requires TwoUnits(w, v)
    ensures PlanOrRefuse(Deprecating(w, v), Some([Analysed(v)]), [], false).Planned?
    ensures Versioned(Deprecating(w, v), [Analysed(v)]) && OnlyReAdds(Deprecating(w, v), [Analysed(v)], false)
    ensures U.Startable(Home(w, v), Comeback(w, v))
    ensures U.FirstMove(Home(w, v), Comeback(w, v)) == 7 && P.Tail(Home(w, v), Comeback(w, v)) == 16
  {
    hide Plan, Active, Adjusted, Approve, Pending, Current, Deprecating, Before;
    var history, analysed := Deprecating(w, v), [Analysed(v)];
    ReAddingArises(w, v, false);
    Deprecated(w, v);
    BackBehindTombstone(w, v, analysed);
    forall id | Appends(history, analysed, false, id) ensures Adds(history, analysed, id) && HasKey(history, id, 1) {
      AnalysedProposed(history, analysed, id);
    }
    AppendsIs(history, analysed, [], false, v.unitId);
    SomethingPending(history, analysed, v.unitId);
  }

  lemma SomethingPending(history: seq<Unit>, analysed: seq<Unit>, id: string)
    requires var s := Plan(history, analysed, [], false); Current(Pending(s, Approve(s)), id).Some?
    ensures var s := Plan(history, analysed, [], false); Pending(s, Approve(s)) != []
  {
    hide Plan, Pending, Approve;
  }

  /** The program's own fold-in deceives its recovery: whatever step of the window power is lost at, after a full restart
      the new tree stays while the history keeps the old records. */
  lemma StaleKeysBreak(w: Unit, v: Unit, k: nat, txs: seq<PublishTx>, power: nat, updates: seq<UpdateTx>, now: Stamp)
    requires TwoUnits(w, v) && 7 < k <= 17
    requires var d0, c := Home(w, v), Comeback(w, v);
             && Lists(txs, RunFor(d0, P.UpdateProgram(d0, c), k).journals) && power >= 6 * |txs| && c.now < now
             && P.ListsUpdates(updates, RecoverAll(RunFor(d0, P.UpdateProgram(d0, c), k), txs, power).0.updates)
    ensures var d0, c := Home(w, v), Comeback(w, v);
            var f := U.RestartedDisk(d0, c, k, txs, power, updates, now);
            && PlanOrRefuse(P.HistoryOf(d0, c.coll), Some([Analysed(v)]), [], false).Planned? && U.Startable(d0, c)
            && U.HoldsNew(c, f) && f.schema == d0.schema && !U.Agree(d0, c, f)
  {
    hide RunFor, P.UpdateProgram, RecoverAll, P.RecoverUpdates, U.Startable, Lists, P.ListsUpdates, U.Agree, Deprecating, OnlyReAdds, Plan,
         P.Tail, U.FirstMove, P.AllPresent, Active;
    ComebackIsStale(w, v);
    var d0, c := Home(w, v), Comeback(w, v);
    StaleIsReAdding(Deprecating(w, v), [Analysed(v)], [], false);
    U.OneCrash(d0, c, k, txs, power, updates, now);
    U.AllOrNothing(d0, c, k, txs, power, updates, now);
  }
}
