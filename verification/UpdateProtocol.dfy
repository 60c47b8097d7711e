/** The Update transaction around a publication: its journal (src/book2skill/application/update_transaction.py)
    and the steps of execute, of rollback and of startup recovery (src/book2skill/application/update.py). */
module UpdateProtocol {
  import opened Knowledge
  import opened Storage
  import opened PublishProtocol

  /** A confirmed update: what it publishes and the records it appends to the history. */
  datatype Change = Change(
    txId: Id, coll: string, pending: seq<Unit>,
    name: string, now: Stamp, publishId: Id, artifact: Id, counts: nat)
  {
    function Publication(): Request { Request(name, now, publishId, artifact, counts, Some(txId)) }
    function Target(): Path { Slot(name) }
    function Begun(existed: bool): UpdateTx {
      UpdateTx(txId, UpdPrepared, coll, name, Keys(pending), None, None, existed, None, None, None)
    }
  }

  function Key(u: Unit): (string, nat) { (u.unitId, u.recordVersion) }

  function Keys(units: seq<Unit>): seq<(string, nat)> { seq(|units|, i requires 0 <= i < |units| => Key(units[i])) }

  function HistoryOf(d: Disk, coll: string): seq<Unit> { if coll in d.schema then d.schema[coll] else [] }

  predicate CanTransition(current: UpdateState, target: UpdateState) {
    match current
    case UpdPrepared => target in {UpdPrepared, UpdPublishing, UpdRollbackRequired}
    case UpdPublishing => target in {UpdPublishing, UpdSkillPublished, UpdCommitted, UpdRollbackRequired}
    case UpdSkillPublished => target in {UpdSkillPublished, UpdSchemaCommitted, UpdCommitted, UpdRollbackRequired}
    case UpdSchemaCommitted => target in {UpdSchemaCommitted, UpdCommitted, UpdRollbackRequired}
    case UpdCommitted => target == UpdCommitted
    case UpdRollbackRequired => target == UpdRollbackRequired
  }

  // ---- the states ----

  predicate Final(s: UpdateState) { s == UpdCommitted || s == UpdRollbackRequired }

  function Place(s: UpdateState): nat {
    match s
    case UpdPrepared => 0
    case UpdPublishing => 1
    case UpdSkillPublished => 2
    case UpdSchemaCommitted => 3
    case UpdCommitted => 4
    case UpdRollbackRequired => 5
  }

  /** The two final states are never left. Any other may be written again, take the next place, give up, or, once
      publication has begun, be found committed; no place is ever skipped or taken again. */
  lemma TransitionsAre(current: UpdateState, target: UpdateState)
    ensures CanTransition(current, target) <==>
              || current == target
              || (!Final(current) && (Place(target) == Place(current) + 1 || target == UpdRollbackRequired))
              || (!Final(current) && current != UpdPrepared && target == UpdCommitted)
  {
  }

  // ---- execute ----

  function NewHistory(d: Disk, c: Change): seq<Unit> { HistoryOf(d, c.coll) + c.pending }

  function PublishedIndex(d: Disk, c: Change): Index { IndexOf(Replay(d.log + [Entry(d, c.Publication())])) }

  /** The journal once the publication has returned its record. */
  function PublishedTx(d: Disk, c: Change): UpdateTx {
    c.Begun(c.coll in d.schema).(
      state := UpdSkillPublished, snapshot := Snap(d, c.Publication()), artifact := Some(c.artifact),
      pointerSeen := Some(NewPointer(c.Publication())), indexSeen := Some(PublishedIndex(d, c)))
  }

  function CommittedTx(d: Disk, c: Change): UpdateTx {
    PublishedTx(d, c).(state := UpdSchemaCommitted, schemaSeen := Some(NewHistory(d, c)))
  }

  /** The first step after the publication. */
  function Tail(d: Disk, c: Change): nat { SwapIndex(d, c.Publication()) + 10 }

  function UpdateStep(d: Disk, c: Change, i: nat): Cmd {
    if i < 3 then
      match i
      case 0 => PutSchemaSnap(c.txId, HistoryOf(d, c.coll))
      case 1 => PutUpd(c.Begun(c.coll in d.schema))
      case _ => PutUpd(c.Begun(c.coll in d.schema).(state := UpdPublishing))
    else if i < Tail(d, c) then PublishStep(d, c.Publication(), i - 3)
    else
      match i - Tail(d, c)
      case 0 => PutUpd(PublishedTx(d, c))
      case 1 => PutSchema(c.coll, NewHistory(d, c))
      case 2 => PutUpd(CommittedTx(d, c))
      case 3 => PutUpd(CommittedTx(d, c).(state := UpdCommitted))
      case 4 => DropUpd(c.txId)
      case _ => DropSchemaSnap(c.txId)
  }

  function UpdateProgram(d: Disk, c: Change): (prog: seq<Cmd>)
    ensures |prog| == Tail(d, c) + 6
  {
    seq(Tail(d, c) + 6, i requires 0 <= i => UpdateStep(d, c, i))
  }

  // ---- startup recovery ----

  function Remove(tx: UpdateTx): seq<Cmd> { [DropUpd(tx.txId), DropSchemaSnap(tx.txId)] }

  predicate Carries(d: Disk, name: string, txId: Id) { Slot(name) in d.trees && d.trees[Slot(name)].txId == Some(txId) }

  predicate ResourcesMatch(d: Disk, tx: UpdateTx) {
    && (tx.pointerSeen.Some? ==> tx.name in d.pointers && d.pointers[tx.name] == tx.pointerSeen.value)
    && (tx.indexSeen.Some? ==> d.index == tx.indexSeen)
  }

  predicate TransactionVisible(d: Disk, tx: UpdateTx) {
    && Carries(d, tx.name, tx.txId)
    && (tx.artifact.Some? ==> d.trees[Slot(tx.name)].Whole? && d.trees[Slot(tx.name)].artifact == tx.artifact)
    && ResourcesMatch(d, tx)
  }

  predicate AllPresent(pending: seq<(string, nat)>, history: seq<Unit>) {
    forall i | 0 <= i < |pending| :: pending[i] in Keys(history)
  }

  predicate SchemaVisible(d: Disk, tx: UpdateTx) {
    && (if tx.pending == [] then tx.coll in d.schema else AllPresent(tx.pending, HistoryOf(d, tx.coll)))
    && (tx.schemaSeen.Some? ==> tx.coll in d.schema && d.schema[tx.coll] == tx.schemaSeen.value)
    && ResourcesMatch(d, tx)
    && (tx.artifact.Some? ==>
          && Slot(tx.name) in d.trees && d.trees[Slot(tx.name)].Whole?
          && d.trees[Slot(tx.name)].artifact == tx.artifact)
  }

  function RestoreSchema(d: Disk, tx: UpdateTx): Cmd
    requires tx.txId in d.schemaSnaps
  {
    if tx.schemaExisted then PutSchema(tx.coll, d.schemaSnaps[tx.txId]) else DropSchema(tx.coll)
  }

  function GiveUp(tx: UpdateTx): Cmd { PutUpd(tx.(state := UpdRollbackRequired)) }

  /** rmtree of the slot: at first its metadata is still readable. */
  function DropSlot(tx: UpdateTx): seq<Cmd> {
    [WriteTree(Slot(tx.name), Torn(Some(tx.txId))), WriteTree(Slot(tx.name), Torn(None)), DropTree(Slot(tx.name))]
  }

  ghost function RollBack(d: Disk, tx: UpdateTx, now: Stamp): Recovery {
    if tx.txId !in d.schemaSnaps then Recovery([GiveUp(tx)], false)
    else
      var restore := RestoreSchema(d, tx);
      var e := Apply(d, restore);
      if tx.snapshot.Some? then
        if LatestSnapshot(e, tx.name).Some? then Recovery([restore] + RollbackProgram(e, tx.name, now) + Remove(tx), true)
        else Recovery([restore, GiveUp(tx)], false)
      else if Carries(e, tx.name, tx.txId) then Recovery([restore] + DropSlot(tx) + Remove(tx), true)
      else Recovery([restore, GiveUp(tx)], false)
  }

  ghost function RecoverUpdate(d: Disk, tx: UpdateTx, now: Stamp): Recovery {
    match tx.state
    case UpdCommitted => Recovery(Remove(tx), true)
    case UpdRollbackRequired => Recovery([], false)
    case UpdPrepared => Recovery(Remove(tx), true)
    case _ =>
      if tx.state == UpdPublishing && !TransactionVisible(d, tx) then Recovery(Remove(tx), true)
      else if SchemaVisible(d, tx) then Recovery([PutUpd(tx.(state := UpdCommitted))] + Remove(tx), true)
      else RollBack(d, tx, now)
  }

  /** Reconcile the pending journals one after the other; each rollback reads a later clock. */
  ghost function RecoverUpdates(d: Disk, txs: seq<UpdateTx>, now: Stamp): (Disk, bool)
    decreases |txs|
  {
    if txs == [] then (d, true)
    else
      var rec := RecoverUpdate(d, txs[0], now);
      var e := Run(d, rec.cmds);
      if rec.ok then RecoverUpdates(e, txs[1..], now + 1) else (e, false)
  }

  ghost predicate ListsUpdates(txs: seq<UpdateTx>, updates: map<Id, UpdateTx>) {
    && (forall i | 0 <= i < |txs| :: txs[i].txId in updates && updates[txs[i].txId] == txs[i])
    && (forall i, j | 0 <= i < j < |txs| :: txs[i].txId != txs[j].txId)
    && (forall id | id in updates :: exists i | 0 <= i < |txs| :: txs[i].txId == id)
  }
}
