/** Publishing, rollback and startup recovery of a Skill tree
    (src/book2skill/application/publisher.py). Every durable effect is one step of a program;
    the class performs the programs step by step, and PublishAtomicity and its companions reason about them. */
module PublishProtocol {
  import opened Knowledge
  import opened Storage

  /** One publish call after its quality gates passed: the tree it compiled and its fresh ids. */
  datatype Request = Request(
    name: string, now: Stamp, publishId: Id, artifact: Id, counts: nat, txId: Option<Id>)
  {
    function Tree(): Tree { Whole(Some(artifact), txId) }
    function Target(): Path { Slot(name) }
    function Staged(): Path { Staging(name, now) }
    function Backup(): Path { Snapshot(name, now) }
    function Tx(state: PublishState, snapshot: Option<Path>): PublishTx {
      PublishTx(publishId, state, name, Staged(), snapshot, artifact, Iso(now), counts, txId, Some(artifact))
    }
  }

  /** _iso keeps whole seconds only. */
  function Iso(now: Stamp): nat { now / 1_000_000 }

  // ---- log, in-memory history and derived index ----

  function SuccessEntry(tx: PublishTx): LogEntry {
    LogEntry(tx.publishedAt, Publish, tx.name, tx.snapshot, tx.counts, true, tx.txId, Some(tx.publishId), tx.artifact)
  }

  predicate SameAttempt(success: LogEntry, failed: LogEntry) {
    && success.action == failed.action == Publish
    && success.timestamp == failed.timestamp
    && success.name == failed.name
    && success.snapshot == failed.snapshot
    && success.counts == failed.counts
    && success.txId == failed.txId
    && success.publishId == failed.publishId
  }

  function Past(h: History, name: string): seq<LogEntry> { if name in h then h[name] else [] }

  function ApplyEntry(h: History, e: LogEntry): History {
    var past := Past(h, e.name);
    if e.success then h[e.name := past + [e]]
    else if past != [] && SameAttempt(past[|past| - 1], e) then h[e.name := past[..|past| - 1]]
    else h
  }

  function Replay(log: seq<LogEntry>): History {
    if log == [] then map[] else ApplyEntry(Replay(log[..|log| - 1]), log[|log| - 1])
  }

  function IndexOf(h: History): Index {
    map name | name in h && h[name] != [] ::
      var e := h[name][|h[name]| - 1]; Row(e.action, e.timestamp, e.snapshot)
  }

  // ---- programs ----

  /** rmtree: at first the metadata of the tree is still readable. */
  function RemoveTree(p: Path, t: Tree): seq<Cmd> { [WriteTree(p, Torn(t.txId)), WriteTree(p, Torn(None)), DropTree(p)] }

  function Cleanup(d: Disk, p: Path): seq<Cmd> { if p in d.trees then RemoveTree(p, d.trees[p]) else [] }

  /** The tree that publish moves aside, if the slot is taken. */
  function Snap(d: Disk, r: Request): Option<Path> {
    if r.Target() in d.trees then Some(r.Backup()) else None
  }

  function NewPointer(r: Request): Pointer { Pointer(ArtifactVersion(r.artifact), r.txId) }

  function Entry(d: Disk, r: Request): LogEntry { SuccessEntry(r.Tx(Swapped, Snap(d, r))) }

  /** The step that renames the staged tree into the slot. */
  function SwapIndex(d: Disk, r: Request): nat { if r.Target() in d.trees then 6 else 3 }

  /** The steps of publish in order; the snapshot steps exist only when the slot is taken. */
  function PublishStep(d: Disk, r: Request, i: nat): Cmd {
    if i < SwapIndex(d, r) then
      match i
      case 0 => WriteTree(r.Staged(), Torn(None))
      case 1 => WriteTree(r.Staged(), r.Tree())
      case 2 => PutTx(r.Tx(Prepared, None))
      case 3 => PutTx(r.Tx(Prepared, Snap(d, r)))
      case 4 => Rename(r.Target(), r.Backup())
      case _ => PutTx(r.Tx(Snapshotted, Snap(d, r)))
    else
      match i - SwapIndex(d, r)
      case 0 => Rename(r.Staged(), r.Target())
      case 1 => PutTx(r.Tx(Swapped, Snap(d, r)))
      case 2 => PutPointer(r.name, NewPointer(r))
      case 3 => Append(Entry(d, r))
      case 4 => PutIndex(IndexOf(Replay(d.log + [Entry(d, r)])))
      case 5 => PutTx(r.Tx(Committed, Snap(d, r)))
      case _ => DropTx(r.publishId)
  }

  function PublishProgram(d: Disk, r: Request): (prog: seq<Cmd>)
    ensures |prog| == SwapIndex(d, r) + 7
  {
    seq(SwapIndex(d, r) + 7, i requires 0 <= i => PublishStep(d, r, i))
  }

  function FailureEntry(r: Request, snap: Option<Path>): LogEntry {
    LogEntry(Iso(r.now), Publish, r.name, snap, r.counts, false, r.txId, Some(r.publishId), None)
  }

  /** The first ".failed" suffix from i on that no directory uses. */
  function FirstFree(taken: set<nat>, i: nat): (j: nat)
    ensures j >= i && j !in taken && forall k | i <= k < j :: k in taken
    decreases taken
  {
    if i in taken then FirstFree(taken - {i}, i + 1) else i
  }

  function UniqueSibling(d: Disk, name: string): (p: Path)
    ensures p.Displaced? && p.name == name && p.index >= 1 && p !in d.trees
    ensures forall k: nat | 1 <= k < p.index :: Displaced(name, k) in d.trees
  {
    var taken := set p | p in d.trees && p.Displaced? && p.name == name :: p.index;
    assert forall q | q in d.trees && q.Displaced? && q.name == name :: q.index in taken;
    assert forall k: nat | k in taken :: Displaced(name, k) in d.trees by {
      forall k: nat | k in taken ensures Displaced(name, k) in d.trees {
        var q :| q in d.trees && q.Displaced? && q.name == name && q.index == k;
        assert q == Displaced(name, k);
      }
    }
    Displaced(name, FirstFree(taken, 1))
  }

  function RestoreOnFailure(d: Disk, target: Path, snap: Path): seq<Cmd> {
    if target in d.trees then
      var aside := UniqueSibling(d, target.name);
      [Rename(target, aside), Rename(snap, target), WriteTree(aside, Torn(None)), DropTree(aside)]
    else
      [Rename(snap, target)]
  }

  /** Put the old tree back, or empty the slot of a first publish. */
  function Undo(d: Disk, r: Request): seq<Cmd> {
    if r.Backup() in d.trees then RestoreOnFailure(d, r.Target(), r.Backup()) else Cleanup(d, r.Target())
  }

  /** Close the journal, repoint, and log the failure. */
  function Report(had: bool, d: Disk, r: Request): seq<Cmd> {
    var failed := FailureEntry(r, if had then Some(r.Backup()) else None);
    [DropTx(r.publishId),
     if r.Backup() in d.trees then PutPointer(r.name, Pointer(StampVersion(r.now), d.trees[r.Backup()].txId)) else DropPointer(r.name),
     Append(failed),
     PutIndex(IndexOf(Replay(d.log + [failed])))]
  }

  /** The except block of publish, on the disk d that the failing attempt left. */
  function HandlerProgram(had: bool, d: Disk, r: Request, swapped: bool): seq<Cmd> {
    Cleanup(d, r.Staged()) +
    if r.Backup() in d.trees || swapped then Undo(d, r) + Report(had, d, r) else []
  }

  // ---- snapshots and rollback ----

  ghost function MaxOf(s: set<nat>): (m: nat)
    requires s != {}
    ensures m in s && forall k | k in s :: k <= m
  {
    var x :| x in s;
    if s == {x} then x else
      var m := MaxOf(s - {x});
      assert forall k | k in s :: k == x || k in s - {x};
      if x < m then m else x
  }

  function SnapshotStamps(d: Disk, name: string): set<nat> {
    set p | p in d.trees && p.Snapshot? && p.name == name :: p.at
  }

  ghost function LatestSnapshot(d: Disk, name: string): (p: Option<Path>)
    ensures p.Some? ==> p.value in d.trees && p.value.Snapshot? && p.value.name == name
    ensures p.Some? ==> forall q | q in d.trees && q.Snapshot? && q.name == name :: q.at <= p.value.at
    ensures p.None? ==> forall q | q in d.trees && q.Snapshot? :: q.name != name
  {
    var stamps := SnapshotStamps(d, name);
    assert forall q | q in d.trees && q.Snapshot? && q.name == name :: q.at in stamps;
    if stamps == {} then None else Some(Snapshot(name, MaxOf(stamps)))
  }

  function RestoredPointer(t: Tree, now: Stamp): Pointer {
    Pointer(if t.Whole? && t.artifact.Some? then ArtifactVersion(t.artifact.value) else StampVersion(now), t.txId)
  }

  function RollbackEntry(name: string, now: Stamp, snap: Option<Path>, t: Tree): LogEntry {
    LogEntry(Iso(now), Rollback, name, snap, 0, true, None, None, if t.Whole? then t.artifact else None)
  }

  ghost function RollbackProgram(d: Disk, name: string, now: Stamp): seq<Cmd>
    requires LatestSnapshot(d, name).Some?
  {
    var latest := LatestSnapshot(d, name).value;
    var had := Slot(name) in d.trees;
    var snap := if had then Some(Snapshot(name, now)) else None;
    var entry := RollbackEntry(name, now, snap, d.trees[latest]);
    (if had then [Rename(Slot(name), Snapshot(name, now))] else []) +
    [Rename(latest, Slot(name)), PutPointer(name, RestoredPointer(d.trees[latest], now)),
     Append(entry), PutIndex(IndexOf(Replay(d.log + [entry])))]
  }

  // ---- startup recovery ----

  /** What recovery does with one journal: its steps, and whether it raises after them. */
  datatype Recovery = Recovery(cmds: seq<Cmd>, ok: bool)

  predicate Verifies(t: Tree, artifact: Option<Id>) { artifact.Some? ==> t.Whole? && t.artifact == artifact }

  predicate Logged(log: seq<LogEntry>, id: Id) {
    exists i | 0 <= i < |log| :: log[i].publishId == Some(id) && log[i].success
  }

  /** Pointer, the success entry unless it is there already, and the index. */
  function Record(log: seq<LogEntry>, tx: PublishTx): seq<Cmd> {
    var pointer := PutPointer(tx.name, Pointer(ArtifactVersion(tx.version), tx.txId));
    var entry := SuccessEntry(tx);
    if Logged(log, tx.publishId) then [pointer, PutIndex(IndexOf(Replay(log))), DropTx(tx.publishId)]
    else [pointer, Append(entry), PutIndex(IndexOf(Replay(log + [entry]))), DropTx(tx.publishId)]
  }

  function RecoverSwapped(d: Disk, tx: PublishTx): Recovery {
    if Slot(tx.name) in d.trees then
      if Verifies(d.trees[Slot(tx.name)], tx.artifact) then Recovery(Record(d.log, tx), true)
      else Recovery([Record(d.log, tx)[0], PutTx(tx.(state := RollbackRequired))], false)
    else RestoreSnapshot(d, tx)
  }

  function RestoreSnapshot(d: Disk, tx: PublishTx): Recovery {
    if tx.snapshot.Some? && tx.snapshot.value in d.trees then
      Recovery([Rename(tx.snapshot.value, Slot(tx.name)), DropPointer(tx.name), DropTx(tx.publishId)], true)
    else Recovery([PutTx(tx.(state := RollbackRequired))], false)
  }

  function RecoverOne(d: Disk, tx: PublishTx): Recovery {
    match tx.state
    case RollbackRequired => Recovery([], false)
    case Committed => Recovery([DropTx(tx.publishId)], true)
    case Swapped => RecoverSwapped(d, tx)
    case _ =>
      if tx.snapshot.Some? && tx.snapshot.value in d.trees && Slot(tx.name) !in d.trees then
        if tx.staging in d.trees then
          var finish := [Rename(tx.staging, Slot(tx.name)), PutTx(tx.(state := Swapped))];
          var rest := RecoverSwapped(Run(d, finish), tx.(state := Swapped));
          Recovery(finish + rest.cmds, rest.ok)
        else RestoreSnapshot(d, tx)
      else Recovery(Cleanup(d, tx.staging) + [DropTx(tx.publishId)], true)
  }

  /** Recovery works through the journals found at startup, in whatever order the directory
      lists them. Stuck means that it raised and asks for manual repair. */
  datatype Startup = Ready | Crashed | Stuck

  function RecoverAll(d: Disk, txs: seq<PublishTx>, power: nat): (Disk, Startup)
    decreases |txs|
  {
    if txs == [] then (d, Ready)
    else
      var rec := RecoverOne(d, txs[0]);
      if power < |rec.cmds| then (RunFor(d, rec.cmds, power), Crashed)
      else if rec.ok then RecoverAll(Run(d, rec.cmds), txs[1..], power - |rec.cmds|)
      else (Run(d, rec.cmds), Stuck)
  }

  ghost predicate Lists(txs: seq<PublishTx>, journals: map<Id, PublishTx>) {
    && (forall i | 0 <= i < |txs| :: txs[i].publishId in journals && journals[txs[i].publishId] == txs[i])
    && (forall i, j | 0 <= i < j < |txs| :: txs[i].publishId != txs[j].publishId)
    && (forall id | id in journals :: exists i | 0 <= i < |txs| :: txs[i].publishId == id)
  }
}
