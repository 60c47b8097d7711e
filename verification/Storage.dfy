/** The durable state under one data home, the atomic steps that change it, and a device that
    may lose power before any step or fail one step with an I/O error. */
module Storage {
  import opened Knowledge

  type Id = nat      // uuid4 hex strings and SHA-256 identities: only equality matters
  type Stamp = nat   // microseconds since the epoch

  /** Directories the Publisher renames. Each is named by the Skill and, where the source
      appends one, by its time stamp. */
  datatype Path =
    | Slot(name: string)
    | Snapshot(name: string, at: Stamp)
    | Staging(name: string, at: Stamp)
    | Displaced(name: string, index: nat)

  /** A directory tree. A Whole tree is what a finished compilation wrote; its artifact id is
      an injective hash of its content. A Torn tree is one that a recursive write or delete
      left incomplete: its artifact never verifies, but its metadata may still be readable. */
  datatype Tree = Whole(artifact: Option<Id>, txId: Option<Id>) | Torn(txId: Option<Id>)

  datatype PublishState = Prepared | Snapshotted | Swapped | Committed | RollbackRequired

  datatype PublishTx = PublishTx(
    publishId: Id, state: PublishState, name: string, staging: Path, snapshot: Option<Path>,
    version: Id, publishedAt: nat, counts: nat, txId: Option<Id>, artifact: Option<Id>)

  datatype Version = ArtifactVersion(id: Id) | StampVersion(at: Stamp)

  datatype Pointer = Pointer(version: Version, txId: Option<Id>)

  datatype Action = Publish | Rollback

  datatype LogEntry = LogEntry(
    timestamp: nat, action: Action, name: string, snapshot: Option<Path>, counts: nat,
    success: bool, txId: Option<Id>, publishId: Option<Id>, artifact: Option<Id>)

  type History = map<string, seq<LogEntry>>

  datatype Row = Row(action: Action, timestamp: nat, snapshot: Option<Path>)

  type Index = map<string, Row>

  datatype UpdateState =
    | UpdPrepared | UpdPublishing | UpdSkillPublished | UpdSchemaCommitted | UpdCommitted | UpdRollbackRequired

  /** Hashes are injective, so a journalled hash is modelled by the value it was taken of. */
  datatype UpdateTx = UpdateTx(
    txId: Id, state: UpdateState, coll: string, name: string, pending: seq<(string, nat)>,
    snapshot: Option<Path>, artifact: Option<Id>, schemaExisted: bool,
    schemaSeen: Option<seq<Unit>>, pointerSeen: Option<Pointer>, indexSeen: Option<Index>)

  datatype Disk = Disk(
    trees: map<Path, Tree>,
    journals: map<Id, PublishTx>,
    pointers: map<string, Pointer>,
    log: seq<LogEntry>,
    index: Option<Index>,
    updates: map<Id, UpdateTx>,
    schema: map<string, seq<Unit>>,
    schemaSnaps: map<Id, seq<Unit>>)

  datatype Cmd =
    | WriteTree(path: Path, tree: Tree)
    | DropTree(path: Path)
    | Rename(src: Path, dst: Path)
    | PutTx(tx: PublishTx)
    | DropTx(id: Id)
    | PutPointer(name: string, pointer: Pointer)
    | DropPointer(name: string)
    | Append(entry: LogEntry)
    | PutIndex(index: Index)
    | PutUpd(upd: UpdateTx)
    | DropUpd(id: Id)
    | PutSchema(coll: string, units: seq<Unit>)
    | DropSchema(coll: string)
    | PutSchemaSnap(id: Id, units: seq<Unit>)
    | DropSchemaSnap(id: Id)

  /** os.replace needs its source, and every caller first makes sure its target is absent. */
  predicate Applicable(d: Disk, c: Cmd) {
    c.Rename? ==> c.src in d.trees && c.dst !in d.trees
  }

  function Apply(d: Disk, c: Cmd): Disk {
    match c
    case WriteTree(p, t) => d.(trees := d.trees[p := t])
    case DropTree(p) => d.(trees := d.trees - {p})
    case Rename(src, dst) => if src in d.trees then d.(trees := (d.trees - {src})[dst := d.trees[src]]) else d
    case PutTx(tx) => d.(journals := d.journals[tx.publishId := tx])
    case DropTx(id) => d.(journals := d.journals - {id})
    case PutPointer(n, p) => d.(pointers := d.pointers[n := p])
    case DropPointer(n) => d.(pointers := d.pointers - {n})
    case Append(e) => d.(log := d.log + [e])
    case PutIndex(i) => d.(index := Some(i))
    case PutUpd(u) => d.(updates := d.updates[u.txId := u])
    case DropUpd(id) => d.(updates := d.updates - {id})
    case PutSchema(coll, us) => d.(schema := d.schema[coll := us])
    case DropSchema(coll) => d.(schema := d.schema - {coll})
    case PutSchemaSnap(id, us) => d.(schemaSnaps := d.schemaSnaps[id := us])
    case DropSchemaSnap(id) => d.(schemaSnaps := d.schemaSnaps - {id})
  }

  /** The disk after the first k steps of a program, or after all of it: what a power loss
      before step k leaves behind. */
  function RunFor(d: Disk, prog: seq<Cmd>, k: nat): Disk
    decreases |prog|
  {
    if prog == [] || k == 0 then d else RunFor(Apply(d, prog[0]), prog[1..], k - 1)
  }

  function Run(d: Disk, prog: seq<Cmd>): Disk { RunFor(d, prog, |prog|) }

  lemma RunNone(d: Disk, prog: seq<Cmd>)
    ensures RunFor(d, prog, 0) == d
  {
  }

  lemma {:induction false} RunSnoc(d: Disk, prog: seq<Cmd>, k: nat)
    requires k < |prog|
    ensures RunFor(d, prog, k + 1) == Apply(RunFor(d, prog, k), prog[k])
    decreases |prog|
  {
    if k > 0 {
      RunSnoc(Apply(d, prog[0]), prog[1..], k - 1);
    }
  }

  lemma {:induction false} RunBeyond(d: Disk, prog: seq<Cmd>, k: nat)
    requires k >= |prog|
    ensures RunFor(d, prog, k) == Run(d, prog)
    decreases |prog|
  {
    if prog != [] {
      RunBeyond(Apply(d, prog[0]), prog[1..], k - 1);
    }
  }

  lemma {:induction false} RunConcat(d: Disk, a: seq<Cmd>, b: seq<Cmd>, k: nat)
    ensures k <= |a| ==> RunFor(d, a + b, k) == RunFor(d, a, k)
    ensures k >= |a| ==> RunFor(d, a + b, k) == RunFor(Run(d, a), b, k - |a|)
    decreases |a|
  {
    if a == [] {
      assert a + b == b;
    } else if k > 0 {
      assert (a + b)[1..] == a[1..] + b;
      RunConcat(Apply(d, a[0]), a[1..], b, k - 1);
    }
  }

  /** The outcome of a step or of a whole operation. Down is a power loss: no handler runs.
      Raised is a Python exception: the enclosing handler runs. */
  datatype Outcome = Done | Raised | Down {
    predicate IsFailure() { !Done? }
    function PropagateFailure(): Outcome requires IsFailure() { this }
  }

  /** A program in progress: where it started and how many steps the device had made then. */
  datatype Job = Job(start: Disk, prog: seq<Cmd>, base: nat)

  /** The disk, with an adversary that picks the step before which power is lost and the one
      step that fails with an I/O error. */
  class Device {
    var disk: Disk
    var steps: nat
    var powerLossAt: nat
    var faultAt: Option<nat>

    constructor (d: Disk, powerLossAt: nat, faultAt: Option<nat>)
      ensures disk == d && steps == 0 && this.powerLossAt == powerLossAt && this.faultAt == faultAt
    {
      disk, steps := d, 0;
      this.powerLossAt, this.faultAt := powerLossAt, faultAt;
    }

    /** Exactly the steps made since the job began are on the disk. */
    ghost predicate Follows(job: Job)
      reads this
    {
      && job.base <= steps <= job.base + |job.prog|
      && disk == RunFor(job.start, job.prog, steps - job.base)
    }

    method Do(cmd: Cmd, ghost job: Job) returns (o: Outcome)
      requires Follows(job) && steps < job.base + |job.prog|
      requires job.prog[steps - job.base] == cmd
      requires Applicable(disk, cmd)
      modifies this
      ensures Follows(job) && powerLossAt == old(powerLossAt)
      ensures o.Done? ==> steps == old(steps) + 1 && disk == Apply(old(disk), cmd) && faultAt == old(faultAt)
      ensures o.Down? ==> steps == old(steps) && disk == old(disk) && steps == powerLossAt && faultAt == old(faultAt)
      ensures o.Raised? ==> steps == old(steps) && disk == old(disk) && old(faultAt) == Some(steps) && faultAt == None
      ensures old(steps) <= powerLossAt ==> steps <= powerLossAt
    {
      if steps == powerLossAt {
        return Down;
      }
      if faultAt == Some(steps) {
        faultAt := None;
        return Raised;
      }
      RunSnoc(job.start, job.prog, steps - job.base);
      disk := Apply(disk, cmd);
      steps := steps + 1;
      return Done;
    }
  }
}
