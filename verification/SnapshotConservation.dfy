/** Publishing and rolling back never lose a tree: the slot and the snapshots of a Skill together
    hold every tree ever published to it. */
module SnapshotConservation {
  import opened Knowledge
  import opened Storage
  import opened PublishProtocol
  import opened PublishAtomicity

  // ---- the trees of one Skill as a multiset ----

  ghost function Kept(d: Disk, name: string): map<nat, Tree> {
    map at | at in SnapshotStamps(d, name) :: d.trees[Snapshot(name, at)]
  }

  /** The snapshots of a Skill are what the directory holds, stamp by stamp. */
  lemma KeptIs(d: Disk, name: string, m: map<nat, Tree>)
    requires forall at :: at in m <==> Snapshot(name, at) in d.trees
    requires forall at | at in m :: m[at] == d.trees[Snapshot(name, at)]
    ensures Kept(d, name) == m
  {
    forall at ensures at in Kept(d, name) <==> at in m {
      if at in m { assert Snapshot(name, at) in d.trees; }
    }
  }

  lemma KeptAt(d: Disk, name: string, at: nat)
    ensures at in Kept(d, name) <==> Snapshot(name, at) in d.trees
    ensures at in Kept(d, name) ==> Kept(d, name)[at] == d.trees[Snapshot(name, at)]
  {
    if Snapshot(name, at) in d.trees { assert Snapshot(name, at).at in SnapshotStamps(d, name); }
  }

  ghost function Values(m: map<nat, Tree>): multiset<Tree>
    decreases |m|
  {
    if m == map[] then multiset{}
    else
      var k := MaxOf(m.Keys);
      Values(m - {k}) + multiset{m[k]}
  }

  ghost function Bag(d: Disk, name: string): multiset<Tree> {
    Values(Kept(d, name)) + if Slot(name) in d.trees then multiset{d.trees[Slot(name)]} else multiset{}
  }

  lemma AddRemove(m: map<nat, Tree>, k: nat, v: Tree)
    requires k !in m
    ensures m[k := v] - {k} == m
  {
  }

  lemma {:induction false} ValuesAdd(m: map<nat, Tree>, k: nat, v: Tree)
    requires k !in m
    ensures Values(m[k := v]) == Values(m) + multiset{v}
    decreases |m|
  {
    var m' := m[k := v];
    assert k in m'.Keys;
    var x := MaxOf(m'.Keys);
    AddRemove(m, k, v);
    if x != k {
      assert x in m && x == MaxOf(m.Keys);
      ValuesAdd(m - {x}, k, v);
      AddCommutes(m, k, v, x);
    }
  }

  lemma AddCommutes(m: map<nat, Tree>, k: nat, v: Tree, x: nat)
    requires k !in m && x in m
    ensures m[k := v] - {x} == (m - {x})[k := v]
  {
  }

  lemma ValuesRemove(m: map<nat, Tree>, k: nat)
    requires k in m
    ensures Values(m) == Values(m - {k}) + multiset{m[k]}
  {
    ValuesAdd(m - {k}, k, m[k]);
    assert (m - {k})[k := m[k]] == m;
  }

  // ---- one operation ----

  lemma PublishConserves(d: Disk, r: Request, name: string)
    requires Quiet(d, r)
    ensures Bag(Run(d, PublishProgram(d, r)), name) == Bag(d, name) + if name == r.name then multiset{r.Tree()} else multiset{}
  {
    PrefixAt(d, r, SwapIndex(d, r) + 7);
    var e := Run(d, PublishProgram(d, r));
    if name == r.name {
      KeptAfterPublish(d, r, e);
      if r.Target() in d.trees { ValuesAdd(Kept(d, name), r.now, d.trees[r.Target()]); }
    } else {
      OthersKept(d, r, e, name);
    }
  }

  lemma KeptAfterPublish(d: Disk, r: Request, e: Disk)
    requires Quiet(d, r) && Frame(d, r, e) && Landed(d, r, e)
    ensures r.now !in Kept(d, r.name)
    ensures Kept(e, r.name) == if r.Target() in d.trees then Kept(d, r.name)[r.now := d.trees[r.Target()]] else Kept(d, r.name)
  {
    hide Kept, Replay, IndexOf, Entry, StaleJournal, Logged;
    var m := if r.Target() in d.trees then Kept(d, r.name)[r.now := d.trees[r.Target()]] else Kept(d, r.name);
    KeptAt(d, r.name, r.now);
    forall at ensures at in m <==> Snapshot(r.name, at) in e.trees
              ensures at in m ==> m[at] == e.trees[Snapshot(r.name, at)]
    {
      KeptAt(d, r.name, at);
      if at != r.now { assert SameAt(d, e, Snapshot(r.name, at)); }
    }
    KeptIs(e, r.name, m);
  }

  lemma OthersKept(d: Disk, r: Request, e: Disk, name: string)
    requires Frame(d, r, e) && name != r.name
    ensures Bag(e, name) == Bag(d, name)
  {
    assert SameAt(d, e, Slot(name));
    forall at ensures at in Kept(d, name) <==> Snapshot(name, at) in e.trees
              ensures at in Kept(d, name) ==> Kept(d, name)[at] == e.trees[Snapshot(name, at)]
    {
      KeptAt(d, name, at);
      assert SameAt(d, e, Snapshot(name, at));
    }
    KeptIs(e, name, Kept(d, name));
  }

  ghost predicate NewStamp(d: Disk, now: Stamp) {
    forall p: Path | p in d.trees && p.Snapshot? :: p.at < now
  }

  /** The trees after a rollback: slot and latest snapshot have changed places. */
  ghost function Swapped(d: Disk, name: string, now: Stamp): map<Path, Tree>
    requires LatestSnapshot(d, name).Some?
  {
    var latest := LatestSnapshot(d, name).value;
    var slot := Slot(name);
    var aside := if slot in d.trees then (d.trees - {slot})[Snapshot(name, now) := d.trees[slot]] else d.trees;
    (aside - {latest})[slot := d.trees[latest]]
  }

  lemma RollbackEffect(d: Disk, name: string, now: Stamp)
    requires LatestSnapshot(d, name).Some? && NewStamp(d, now)
    ensures var e := Run(d, RollbackProgram(d, name, now));
            e.trees == Swapped(d, name, now)
            && e.updates == d.updates && e.schema == d.schema && e.schemaSnaps == d.schemaSnaps && e.journals == d.journals
  {
    var latest := LatestSnapshot(d, name).value;
    var prog := RollbackProgram(d, name, now);
    var had := Slot(name) in d.trees;
    RunSnoc(d, prog, 0);
    RunSnoc(d, prog, 1);
    RunSnoc(d, prog, 2);
    RunSnoc(d, prog, 3);
    if had { RunSnoc(d, prog, 4); }
  }

  lemma RollbackConserves(d: Disk, name: string, now: Stamp, n: string)
    requires LatestSnapshot(d, name).Some? && NewStamp(d, now)
    ensures Bag(Run(d, RollbackProgram(d, name, now)), n) == Bag(d, n)
  {
    RollbackEffect(d, name, now);
    var e := Run(d, RollbackProgram(d, name, now));
    if n == name { BagAfterRollback(d, name, now, e); } else { OthersAfterRollback(d, name, now, e, n); }
  }

  lemma PathKept(d: Disk, name: string, now: Stamp, e: Disk, p: Path)
    requires LatestSnapshot(d, name).Some? && e.trees == Swapped(d, name, now) && p.name != name
    ensures SameAt(d, e, p)
  {
  }

  lemma OthersAfterRollback(d: Disk, name: string, now: Stamp, e: Disk, n: string)
    requires LatestSnapshot(d, name).Some? && e.trees == Swapped(d, name, now) && n != name
    ensures Bag(e, n) == Bag(d, n)
  {
    PathKept(d, name, now, e, Slot(n));
    forall at ensures at in Kept(d, n) <==> Snapshot(n, at) in e.trees
              ensures at in Kept(d, n) ==> Kept(d, n)[at] == e.trees[Snapshot(n, at)]
    {
      KeptAt(d, n, at);
      PathKept(d, name, now, e, Snapshot(n, at));
    }
    KeptIs(e, n, Kept(d, n));
  }

  lemma KeptAfterRollback(d: Disk, name: string, now: Stamp, e: Disk)
    requires LatestSnapshot(d, name).Some? && NewStamp(d, now) && e.trees == Swapped(d, name, now)
    ensures var at := LatestSnapshot(d, name).value.at;
            && at in Kept(d, name) && now !in Kept(d, name)
            && Kept(d, name)[at] == d.trees[LatestSnapshot(d, name).value]
            && Kept(e, name) == if Slot(name) in d.trees then (Kept(d, name) - {at})[now := d.trees[Slot(name)]] else Kept(d, name) - {at}
  {
    var at := LatestSnapshot(d, name).value.at;
    assert LatestSnapshot(d, name).value == Snapshot(name, at);
    KeptAt(d, name, at);
    KeptAt(d, name, now);
    var m := if Slot(name) in d.trees then (Kept(d, name) - {at})[now := d.trees[Slot(name)]] else Kept(d, name) - {at};
    forall x: nat ensures x in m <==> Snapshot(name, x) in e.trees
             ensures x in m ==> m[x] == e.trees[Snapshot(name, x)]
    {
      KeptAt(d, name, x);
    }
    KeptIs(e, name, m);
  }

  lemma BagAfterRollback(d: Disk, name: string, now: Stamp, e: Disk)
    requires LatestSnapshot(d, name).Some? && NewStamp(d, now) && e.trees == Swapped(d, name, now)
    ensures Bag(e, name) == Bag(d, name)
  {
    KeptAfterRollback(d, name, now, e);
    var at := LatestSnapshot(d, name).value.at;
    ValuesRemove(Kept(d, name), at);
    if Slot(name) in d.trees {
      ValuesAdd(Kept(d, name) - {at}, now, d.trees[Slot(name)]);
    }
  }

  // ---- any run ----

  datatype Op = DoPublish(r: Request) | DoRollback(name: string, now: Stamp)

  ghost predicate Allowed(d: Disk, op: Op) {
    match op
    case DoPublish(r) => Quiet(d, r)
    case DoRollback(name, now) => NewStamp(d, now)
  }

  /** A rollback without a snapshot raises before it touches anything. */
  ghost function Perform(d: Disk, op: Op): Disk {
    match op
    case DoPublish(r) => Run(d, PublishProgram(d, r))
    case DoRollback(name, now) => if LatestSnapshot(d, name).Some? then Run(d, RollbackProgram(d, name, now)) else d
  }

  ghost function PerformAll(d: Disk, ops: seq<Op>): Disk
    decreases |ops|
  {
    if ops == [] then d else PerformAll(Perform(d, ops[0]), ops[1..])
  }

  ghost predicate AllAllowed(d: Disk, ops: seq<Op>)
    decreases |ops|
  {
    ops == [] || (Allowed(d, ops[0]) && AllAllowed(Perform(d, ops[0]), ops[1..]))
  }

  function Gain(op: Op, name: string): multiset<Tree> {
    if op.DoPublish? && op.r.name == name then multiset{op.r.Tree()} else multiset{}
  }

  function Published(ops: seq<Op>, name: string): multiset<Tree> {
    if ops == [] then multiset{} else Gain(ops[0], name) + Published(ops[1..], name)
  }

  lemma OneConserves(d: Disk, op: Op, name: string)
    requires Allowed(d, op)
    ensures Bag(Perform(d, op), name) == Bag(d, name) + Gain(op, name)
  {
    match op {
      case DoPublish(r) => PublishConserves(d, r, name);
      case DoRollback(n, now) => if LatestSnapshot(d, n).Some? { RollbackConserves(d, n, now, name); }
    }
  }

  /** Conservation: over any run of publishes and rollbacks, the trees of a Skill are the ones it
      had plus exactly the published ones. */
  lemma {:induction false} RunConserves(d: Disk, ops: seq<Op>, name: string)
    requires AllAllowed(d, ops)
    ensures Bag(PerformAll(d, ops), name) == Bag(d, name) + Published(ops, name)
    decreases |ops|
  {
    if ops != [] {
      OneConserves(d, ops[0], name);
      RunConserves(Perform(d, ops[0]), ops[1..], name);
    }
  }

  /** Two rollbacks in a row put the slot back if and only if it was taken, and then keep every older
      snapshot where it was. A free slot stays taken. */
  lemma RollbackTwice(d: Disk, name: string, now: Stamp, later: Stamp)
    requires LatestSnapshot(d, name).Some? && NewStamp(d, now) && now < later
    ensures var f := Perform(Perform(d, DoRollback(name, now)), DoRollback(name, later));
            && (SameAt(d, f, Slot(name)) <==> Slot(name) in d.trees)
            && Slot(name) in f.trees
            && (Slot(name) in d.trees ==> Restacked(d, name, later, f))
  {
    hide RollbackProgram, RunFor, LatestSnapshot, Kept, Restacked;
    RollbackEffect(d, name, now);
    if Slot(name) in d.trees {
      TakenTwice(d, name, now, later);
    } else {
      var e := Perform(d, DoRollback(name, now));
      if LatestSnapshot(e, name).Some? {
        StampsStay(d, name, now, e);
        RollbackEffect(e, name, later);
      }
    }
  }

  /** The snapshot that was the latest one now has the newest stamp, and the older ones stay. */
  ghost predicate Restacked(d: Disk, name: string, later: Stamp, f: Disk)
    requires LatestSnapshot(d, name).Some?
  {
    && later in Kept(f, name) && Kept(f, name)[later] == d.trees[LatestSnapshot(d, name).value]
    && Kept(f, name) - {later} == Kept(d, name) - {LatestSnapshot(d, name).value.at}
  }

  lemma StampsStay(d: Disk, name: string, now: Stamp, e: Disk)
    requires LatestSnapshot(d, name).Some? && NewStamp(d, now) && e.trees == Swapped(d, name, now)
    ensures NewStamp(e, now + 1)
  {
  }

  lemma TakenTwice(d: Disk, name: string, now: Stamp, later: Stamp)
    requires Slot(name) in d.trees && LatestSnapshot(d, name).Some? && NewStamp(d, now) && now < later
    ensures var f := Perform(Perform(d, DoRollback(name, now)), DoRollback(name, later));
            SameAt(d, f, Slot(name)) && Slot(name) in f.trees && Restacked(d, name, later, f)
  {
    hide RollbackProgram, RunFor, LatestSnapshot, Kept;
    RollbackEffect(d, name, now);
    var e := Perform(d, DoRollback(name, now));
    assert Snapshot(name, now) in e.trees;
    LatestIsNewest(d, name, now, e);
    RollbackEffect(e, name, later);
    var f := Perform(e, DoRollback(name, later));
    KeptAfterRollback(d, name, now, e);
    KeptAfterRollback(e, name, later, f);
    KeptAt(d, name, later);
  }

  lemma LatestIsNewest(d: Disk, name: string, now: Stamp, e: Disk)
    requires LatestSnapshot(d, name).Some? && NewStamp(d, now) && Slot(name) in d.trees && e.trees == Swapped(d, name, now)
    ensures LatestSnapshot(e, name) == Some(Snapshot(name, now)) && NewStamp(e, now + 1)
  {
    StampsStay(d, name, now, e);
    assert Snapshot(name, now) in e.trees;
  }
}
