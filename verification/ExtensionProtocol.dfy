/** Installing and upgrading an extension: registry record, payload directory, backup and journal
    (src/book2skill/extensions/installer.py, src/book2skill/extensions/registry.py). Directory copies
    and deletions are not atomic, so each passes through a torn state. */
module ExtensionProtocol {
  import opened Knowledge

  type Id = nat
  type Ver = nat   // a version string, by its rank in string order: max() compares strings

  datatype Payload = Whole(content: Id) | Torn

  datatype Record = Record(versions: set<Ver>, active: Ver, manifest: Id, hashes: map<Ver, Id>)

  type Registry = map<string, Record>

  datatype TxState = Prepared | Staged | Validated | ActivationStarted | ActiveSwitched | Activated | Committed
                   | RollbackRequired | RolledBack

  datatype Tx = Tx(id: Id, ext: string, ver: Ver, previous: Option<Record>, state: TxState, backup: bool)

  /** registry.json, versions/ext/version, the journals, and the backup directory of each. */
  datatype Store = Store(registry: Registry, payloads: map<(string, Ver), Payload>, journals: map<Id, Tx>, backups: map<Id, Payload>)

  datatype Step =
    | Save(registry: Registry)
    | WritePayload(at: (string, Ver), payload: Payload)
    | DropPayload(at: (string, Ver))
    | PutTx(tx: Tx)
    | DropTx(id: Id)
    | WriteBackup(id: Id, payload: Payload)
    | DropBackup(id: Id)

  function Apply(s: Store, c: Step): Store {
    match c
    case Save(r) => s.(registry := r)
    case WritePayload(at, p) => s.(payloads := s.payloads[at := p])
    case DropPayload(at) => s.(payloads := s.payloads - {at})
    case PutTx(tx) => s.(journals := s.journals[tx.id := tx])
    case DropTx(id) => s.(journals := s.journals - {id})
    case WriteBackup(id, p) => s.(backups := s.backups[id := p])
    case DropBackup(id) => s.(backups := s.backups - {id})
  }

  function RunFor(s: Store, prog: seq<Step>, k: nat): Store
    decreases |prog|
  {
    if prog == [] || k == 0 then s else RunFor(Apply(s, prog[0]), prog[1..], k - 1)
  }

  function Run(s: Store, prog: seq<Step>): Store { RunFor(s, prog, |prog|) }

  // ---- install and upgrade ----

  /** One install or upgrade after its package was inspected and its dependencies resolved. */
  datatype Request = Request(id: Id, ext: string, ver: Ver, manifest: Id, content: Id) {
    function At(): (string, Ver) { (ext, ver) }
    function Begun(s: Store): Tx { Tx(id, ext, ver, RecordOf(s.registry, ext), Prepared, false) }
  }

  function RecordOf(r: Registry, ext: string): Option<Record> { if ext in r then Some(r[ext]) else None }

  /** The map with that value at the key, or without the key. */
  function With<K, V>(m: map<K, V>, k: K, o: Option<V>): map<K, V> {
    if o.Some? then m[k := o.value] else m - {k}
  }

  /** The record with the version added, the active version not yet switched. */
  function Added(r: Registry, q: Request): Record {
    if q.ext in r then
      r[q.ext].(versions := r[q.ext].versions + {q.ver}, manifest := q.manifest, hashes := r[q.ext].hashes[q.ver := q.content])
    else Record({q.ver}, q.ver, q.manifest, map[q.ver := q.content])
  }

  function Switched(r: Registry, q: Request): Record { Added(r, q).(active := q.ver) }

  predicate Replaces(s: Store, q: Request) { q.At() in s.payloads }

  /** How many steps the backup, and the removal of the old payload, take. */
  function BackupSteps(s: Store, q: Request): nat { if Replaces(s, q) then 3 else 0 }

  function RemovalSteps(s: Store, q: Request): nat { if Replaces(s, q) then 2 else 0 }

  /** The step that journals the start of the activation. */
  function Start(s: Store, q: Request): nat { 3 + BackupSteps(s, q) }

  /** The step that journals the success of the activation callback. */
  function Success(s: Store, q: Request): nat { Start(s, q) + RemovalSteps(s, q) + 6 }

  function Opened(s: Store, q: Request): Tx { q.Begun(s).(backup := Replaces(s, q)) }

  function InstallStep(s: Store, q: Request, i: nat): Step
    requires q.At() in s.payloads || !Replaces(s, q)
  {
    var start, copy, success := Start(s, q), Start(s, q) + 1 + RemovalSteps(s, q), Success(s, q);
    if i == 0 then PutTx(q.Begun(s))
    else if i == 1 then PutTx(q.Begun(s).(state := Staged))
    else if i == 2 then PutTx(q.Begun(s).(state := Validated))
    else if i < start then
      match i
      case 3 => WriteBackup(q.id, Torn)
      case 4 => WriteBackup(q.id, s.payloads[q.At()])
      case _ => PutTx(Opened(s, q).(state := Validated))
    else if i == start then PutTx(Opened(s, q).(state := ActivationStarted))
    else if i < copy then if i == start + 1 then WritePayload(q.At(), Torn) else DropPayload(q.At())
    else if i == copy then WritePayload(q.At(), Torn)
    else if i == copy + 1 then WritePayload(q.At(), Whole(q.content))
    else if i == copy + 2 then Save(s.registry[q.ext := Added(s.registry, q)])
    else if i == copy + 3 then Save(s.registry[q.ext := Switched(s.registry, q)])
    else if i == copy + 4 then PutTx(Opened(s, q).(state := ActiveSwitched))
    else if i == success then PutTx(Opened(s, q).(state := Activated))
    else if i == success + 1 then PutTx(Opened(s, q).(state := Committed))
    else if Replaces(s, q) && i == success + 2 then WriteBackup(q.id, Torn)
    else if Replaces(s, q) && i == success + 3 then DropBackup(q.id)
    else DropTx(q.id)
  }

  function InstallProgram(s: Store, q: Request): (prog: seq<Step>)
    ensures |prog| == Success(s, q) + RemovalSteps(s, q) + 3
  {
    seq(Success(s, q) + RemovalSteps(s, q) + 3, i requires 0 <= i => InstallStep(s, q, i))
  }

  // ---- rollback ----

  function RemovePayload(s: Store, at: (string, Ver)): seq<Step> {
    if at in s.payloads then [WritePayload(at, Torn), DropPayload(at)] else []
  }

  function CopyBack(at: (string, Ver), p: Payload): seq<Step> { [WritePayload(at, Torn), WritePayload(at, p)] }

  function UndoPayload(s: Store, tx: Tx): seq<Step> {
    var at := (tx.ext, tx.ver);
    if tx.backup && tx.id in s.backups then RemovePayload(s, at) + CopyBack(at, s.backups[tx.id])
    else if tx.previous.Some? && tx.ver in tx.previous.value.versions then []
    else RemovePayload(s, at)
  }

  function RollbackSteps(s: Store, tx: Tx): seq<Step> {
    UndoPayload(s, tx) + [Save(With(s.registry, tx.ext, tx.previous)), PutTx(tx.(state := RolledBack))]
  }

  function CleanBackup(s: Store, tx: Tx): seq<Step> {
    if tx.backup && tx.id in s.backups then [WriteBackup(tx.id, Torn), DropBackup(tx.id)] else []
  }

  /** The except block of an install. */
  function FailureSteps(s: Store, tx: Tx): seq<Step> {
    [PutTx(tx.(state := RollbackRequired))] + RollbackSteps(s, tx.(state := RollbackRequired)) + CleanBackup(s, tx)
  }

  // ---- startup ----

  function Available(s: Store, ext: string, rec: Record): set<Ver> { set v | v in rec.versions && (ext, v) in s.payloads }

  ghost function MaxOf(vs: set<Ver>): (m: Ver)
    requires vs != {}
    ensures m in vs && forall v | v in vs :: v <= m
  {
    var x :| x in vs;
    if vs == {x} then x else
      var m := MaxOf(vs - {x});
      assert forall v | v in vs :: v == x || v in vs - {x};
      if x < m then m else x
  }

  ghost function RepairedRecord(s: Store, ext: string, rec: Record): Record
    requires Available(s, ext, rec) != {}
  {
    var available := Available(s, ext, rec);
    rec.(versions := available, active := if rec.active in available then rec.active else MaxOf(available))
  }

  /** Drop versions without payload, and records without versions. */
  ghost function Repaired(s: Store): Registry {
    map ext | ext in s.registry && Available(s, ext, s.registry[ext]) != {} :: RepairedRecord(s, ext, s.registry[ext])
  }

  ghost function RepairSteps(s: Store): seq<Step> { if Repaired(s) == s.registry then [] else [Save(Repaired(s))] }

  function RecoverTx(s: Store, tx: Tx): seq<Step> {
    match tx.state
    case Committed => CleanBackup(s, tx) + [DropTx(tx.id)]
    case Activated => CleanBackup(s, tx) + [DropTx(tx.id)]
    case RolledBack => CleanBackup(s, tx)
    case _ => RollbackSteps(s, tx)
  }

  /** Every journal in listing order, until the power is used up. */
  function RecoverTxs(s: Store, txs: seq<Tx>, power: nat): (Store, bool)
    decreases |txs|
  {
    if txs == [] then (s, true)
    else
      var prog := RecoverTx(s, txs[0]);
      if power < |prog| then (RunFor(s, prog, power), false)
      else RecoverTxs(Run(s, prog), txs[1..], power - |prog|)
  }

  /** One start of the manager: repair the records, then recover the journals. */
  ghost function Startup(s: Store, txs: seq<Tx>, power: nat): (Store, bool) {
    var repair := RepairSteps(s);
    if power < |repair| then (s, false) else RecoverTxs(Run(s, repair), txs, power - |repair|)
  }

  ghost predicate Lists(txs: seq<Tx>, journals: map<Id, Tx>) {
    && (forall i | 0 <= i < |txs| :: txs[i].id in journals && journals[txs[i].id] == txs[i])
    && (forall i, j | 0 <= i < j < |txs| :: txs[i].id != txs[j].id)
    && (forall id | id in journals :: exists i | 0 <= i < |txs| :: txs[i].id == id)
  }
}
