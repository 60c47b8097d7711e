/** What interruptions and resumes do to the result of a batch (src/book2skill/application/batch.py). */
module BatchResume {
  import opened Knowledge
  import opened Batch

  /** The checkpoint records what the analysis of each remembered file comes to. */
  ghost predicate Truthful(analyse: string -> Reply, cp: Checkpoint) {
    forall p | p in cp && Kept(cp[p]) :: cp[p] == StatusOf(analyse(p))
  }

  /** Every file that `a` remembers, `b` remembers. */
  ghost predicate Remembers(a: Checkpoint, b: Checkpoint) {
    forall p | p in a && Kept(a[p]) :: p in b && Kept(b[p])
  }

  /** A resumed run that stops after `budget` writes, if it has that many. */
  datatype Session = Session(workers: nat, budget: nat)

  function Resume(analyse: string -> Reply, files: seq<Found>, disk: Option<Checkpoint>, s: Session): Option<Checkpoint> {
    After(disk, Writes(analyse, files, s.workers, true, Loaded(disk)), s.budget)
  }

  function ResumeAll(analyse: string -> Reply, files: seq<Found>, disk: Option<Checkpoint>, ss: seq<Session>): Option<Checkpoint>
    decreases |ss|
  {
    if ss == [] then disk else ResumeAll(analyse, files, Resume(analyse, files, disk, ss[0]), ss[1..])
  }

  /** No session gets as far as removing the checkpoint. */
  ghost predicate AllInterrupted(analyse: string -> Reply, files: seq<Found>, disk: Option<Checkpoint>, ss: seq<Session>)
    decreases |ss|
  {
    ss == []
    || (&& ss[0].budget < |Writes(analyse, files, ss[0].workers, true, Loaded(disk))|
        && AllInterrupted(analyse, files, Resume(analyse, files, disk, ss[0]), ss[1..]))
  }

  // ---- the checkpoint over every run ----

  lemma {:induction false} RecordAllKeeps(analyse: string -> Reply, cp: Checkpoint, files: seq<Found>)
    ensures Truthful(analyse, cp) ==> Truthful(analyse, RecordAll(analyse, cp, files))
    ensures Remembers(cp, RecordAll(analyse, cp, files))
    decreases |files|
  {
    if files != [] { RecordAllKeeps(analyse, Record(analyse, cp, files[0]), files[1..]); }
  }

  lemma {:induction false} SavesKeep(analyse: string -> Reply, cp: Checkpoint, files: seq<Found>, n: nat)
    requires n < |files|
    ensures
      var w := Saves(analyse, cp, files)[n];
      && w.Some?
      && (Truthful(analyse, cp) ==> Truthful(analyse, w.value))
      && Remembers(cp, w.value)
    decreases |files|
  {
    if n > 0 { SavesKeep(analyse, Record(analyse, cp, files[0]), files[1..], n - 1); }
  }

  lemma ResumeKeeps(analyse: string -> Reply, files: seq<Found>, disk: Option<Checkpoint>, s: Session)
    requires Truthful(analyse, Loaded(disk))
    ensures Truthful(analyse, Loaded(Resume(analyse, files, disk, s)))
    ensures s.budget < |Writes(analyse, files, s.workers, true, Loaded(disk))|
            ==> Remembers(Loaded(disk), Loaded(Resume(analyse, files, disk, s)))
  {
    hide Saves, RecordAll, PendingOf;
    var cp := Loaded(disk);
    var pending := PendingOf(files, cp);
    RecordAllKeeps(analyse, cp, pending);
    forall n: nat | n < |pending| ensures Kindly(analyse, cp, Saves(analyse, cp, pending)[n]) {
      SavesKeep(analyse, cp, pending, n);
    }
  }

  ghost predicate Kindly(analyse: string -> Reply, cp: Checkpoint, w: Option<Checkpoint>) {
    w.Some? && (Truthful(analyse, cp) ==> Truthful(analyse, w.value)) && Remembers(cp, w.value)
  }

  /** However often a batch is interrupted and resumed, its checkpoint stays truthful. */
  lemma {:induction false} StaysTruthful(analyse: string -> Reply, files: seq<Found>, disk: Option<Checkpoint>, ss: seq<Session>)
    requires Truthful(analyse, Loaded(disk))
    ensures Truthful(analyse, Loaded(ResumeAll(analyse, files, disk, ss)))
    decreases |ss|
  {
    hide Resume;
    if ss != [] {
      ResumeKeeps(analyse, files, disk, ss[0]);
      StaysTruthful(analyse, files, Resume(analyse, files, disk, ss[0]), ss[1..]);
    }
  }

  /** A file that is once recorded is never processed again before the batch completes. */
  lemma {:induction false} NeverReprocessed(analyse: string -> Reply, files: seq<Found>, disk: Option<Checkpoint>, ss: seq<Session>)
    requires Truthful(analyse, Loaded(disk)) && AllInterrupted(analyse, files, disk, ss)
    ensures forall f | IsDone(f, Loaded(disk)) :: f !in PendingOf(files, Loaded(ResumeAll(analyse, files, disk, ss)))
  {
    hide PendingOf;
    var last := Loaded(ResumeAll(analyse, files, disk, ss));
    StillRemembered(analyse, files, disk, ss);
    PendingIsNotDone(files, last);
  }

  lemma {:induction false} StillRemembered(analyse: string -> Reply, files: seq<Found>, disk: Option<Checkpoint>, ss: seq<Session>)
    requires Truthful(analyse, Loaded(disk)) && AllInterrupted(analyse, files, disk, ss)
    ensures Remembers(Loaded(disk), Loaded(ResumeAll(analyse, files, disk, ss)))
    decreases |ss|
  {
    hide Resume, Writes;
    if ss != [] {
      ResumeKeeps(analyse, files, disk, ss[0]);
      StillRemembered(analyse, files, Resume(analyse, files, disk, ss[0]), ss[1..]);
    }
  }

  lemma {:induction false} PendingIsNotDone(files: seq<Found>, cp: Checkpoint)
    ensures forall f | f in PendingOf(files, cp) :: f in files && !IsDone(f, cp)
  {
    if files != [] { PendingIsNotDone(files[1..], cp); }
  }

  // ---- the result of the run that completes ----

  function Bag(outcomes: seq<Outcome>): multiset<(string, FileStatus)> {
    if outcomes == [] then multiset{} else multiset{(outcomes[0].path, outcomes[0].status)} + Bag(outcomes[1..])
  }

  /** Two runs report the same status for every path, the same counts, and the same failures in the same order. */
  ghost predicate Agree(a: seq<Outcome>, b: seq<Outcome>) {
    && Bag(a) == Bag(b)
    && Failures(a) == Failures(b)
    && |a| == |b|
    && forall s :: Count(a, s) == Count(b, s)
  }

  lemma {:induction false} ConcatBag(a: seq<Outcome>, b: seq<Outcome>)
    ensures Bag(a + b) == Bag(a) + Bag(b)
  {
    hide Bag;
    if a == [] {
      assert a + b == b;
      NothingInBag();
    } else {
      ConcatBag(a[1..], b);
      assert (a + b)[1..] == a[1..] + b && (a + b)[0] == a[0];
      BagCons(a + b);
      BagCons(a);
      Regroup(multiset{(a[0].path, a[0].status)}, Bag(a[1..]), Bag(b));
    }
  }

  lemma NothingInBag()
    ensures Bag([]) == multiset{}
  {
  }

  lemma BagCons(a: seq<Outcome>)
    requires a != []
    ensures Bag(a) == multiset{(a[0].path, a[0].status)} + Bag(a[1..])
  {
  }

  lemma Regroup<T>(a: multiset<T>, b: multiset<T>, c: multiset<T>)
    ensures a + (b + c) == (a + b) + c
  {
  }

  lemma {:induction false} ConcatFailures(a: seq<Outcome>, b: seq<Outcome>)
    ensures Failures(a + b) == Failures(a) + Failures(b)
  {
    if a == [] {
      assert a + b == b;
    } else {
      ConcatFailures(a[1..], b);
      assert (a + b)[1..] == a[1..] + b && (a + b)[0] == a[0];
    }
  }

  lemma {:induction false} ConcatCount(a: seq<Outcome>, b: seq<Outcome>, s: FileStatus)
    ensures Count(a + b, s) == Count(a, s) + Count(b, s)
  {
    if a == [] {
      assert a + b == b;
    } else {
      ConcatCount(a[1..], b, s);
      assert (a + b)[1..] == a[1..] + b && (a + b)[0] == a[0];
    }
  }

  lemma Concat(a: seq<Outcome>, b: seq<Outcome>)
    ensures Bag(a + b) == Bag(a) + Bag(b)
    ensures Failures(a + b) == Failures(a) + Failures(b)
    ensures forall s :: Count(a + b, s) == Count(a, s) + Count(b, s)
  {
    hide Bag, Failures, Count;
    ConcatBag(a, b);
    ConcatFailures(a, b);
    forall s ensures Count(a + b, s) == Count(a, s) + Count(b, s) {
      ConcatCount(a, b, s);
    }
  }

  lemma One(o: Outcome)
    ensures Bag([o]) == multiset{(o.path, o.status)}
    ensures Failures([o]) == if o.status in {Failed, Skipped} then o.errors else []
    ensures forall s :: Count([o], s) == if o.status == s then 1 else 0
  {
    assert [o][1..] == [];
  }

  lemma ProcessCons(analyse: string -> Reply, files: seq<Found>)
    requires files != []
    ensures ProcessAll(analyse, files) == [Processed(files[0], analyse(files[0].resolved))] + ProcessAll(analyse, files[1..])
  {
  }

  /** A remembered file comes out with the path and the status that processing it would give, and is no failure. */
  lemma Head(analyse: string -> Reply, files: seq<Found>, cp: Checkpoint, p: Outcome)
    requires Truthful(analyse, cp) && files != [] && p == Processed(files[0], analyse(files[0].resolved))
    ensures ProcessAll(analyse, files) == [p] + ProcessAll(analyse, files[1..])
    ensures IsDone(files[0], cp) ==>
      && PendingOf(files, cp) == PendingOf(files[1..], cp)
      && var r := Remembered(files[0], cp[files[0].resolved]);
      && RememberAll(files, cp) == [r] + RememberAll(files[1..], cp)
      && r.path == p.path && r.status == p.status && r.status !in {Failed, Skipped}
    ensures !IsDone(files[0], cp) ==>
      && RememberAll(files, cp) == RememberAll(files[1..], cp)
      && ProcessAll(analyse, PendingOf(files, cp)) == [p] + ProcessAll(analyse, PendingOf(files[1..], cp))
  {
    hide Processed, Truthful;
    var f := files[0];
    ProcessCons(analyse, files);
    StatusKept(analyse, f);
    PathKept(f, analyse(f.resolved));
    if IsDone(f, cp) {
      DoneIsTrue(analyse, f, cp);
    } else {
      var pending := PendingOf(files, cp);
      assert pending[1..] == PendingOf(files[1..], cp);
      ProcessCons(analyse, pending);
    }
  }

  lemma {:induction false} SplitBag(analyse: string -> Reply, files: seq<Found>, cp: Checkpoint)
    requires Truthful(analyse, cp)
    ensures Bag(RememberAll(files, cp)) + Bag(ProcessAll(analyse, PendingOf(files, cp))) == Bag(ProcessAll(analyse, files))
  {
    if files != [] {
      hide ProcessAll, Truthful, Processed, RememberAll, PendingOf, Bag;
      var f, rest := files[0], files[1..];
      var p := Processed(f, analyse(f.resolved));
      Head(analyse, files, cp, p);
      SplitBag(analyse, rest, cp);
      One(p);
      ConcatBag([p], ProcessAll(analyse, rest));
      if IsDone(f, cp) {
        var r := Remembered(f, cp[f.resolved]);
        One(r);
        ConcatBag([r], RememberAll(rest, cp));
        Regroup(Bag([r]), Bag(RememberAll(rest, cp)), Bag(ProcessAll(analyse, PendingOf(rest, cp))));
      } else {
        ConcatBag([p], ProcessAll(analyse, PendingOf(rest, cp)));
        Exchange(Bag(RememberAll(rest, cp)), Bag([p]), Bag(ProcessAll(analyse, PendingOf(rest, cp))));
      }
    }
  }

  lemma Exchange<T>(a: multiset<T>, b: multiset<T>, c: multiset<T>)
    ensures a + (b + c) == b + (a + c)
  {
  }

  /** Remembering some files and processing the others amounts to processing them all. */
  lemma {:induction false} Split(analyse: string -> Reply, files: seq<Found>, cp: Checkpoint)
    requires Truthful(analyse, cp)
    ensures
      var done, ran, all := RememberAll(files, cp), ProcessAll(analyse, PendingOf(files, cp)), ProcessAll(analyse, files);
      && Failures(done) == [] && Failures(ran) == Failures(all)
      && |done| + |ran| == |all|
      && forall s :: Count(done, s) + Count(ran, s) == Count(all, s)
  {
    if files != [] {
      hide ProcessAll, Truthful, Processed, RememberAll, PendingOf, Bag, Failures, Count;
      var f, rest := files[0], files[1..];
      var p := Processed(f, analyse(f.resolved));
      Head(analyse, files, cp, p);
      Split(analyse, rest, cp);
      One(p);
      ConcatFailures([p], ProcessAll(analyse, rest));
      forall s { ConcatCount([p], ProcessAll(analyse, rest), s); }
      if IsDone(f, cp) {
        var r := Remembered(f, cp[f.resolved]);
        One(r);
        ConcatFailures([r], RememberAll(rest, cp));
        forall s { ConcatCount([r], RememberAll(rest, cp), s); }
      } else {
        ConcatFailures([p], ProcessAll(analyse, PendingOf(rest, cp)));
        forall s { ConcatCount([p], ProcessAll(analyse, PendingOf(rest, cp)), s); }
      }
    }
  }

  lemma PathKept(f: Found, reply: Reply)
    ensures Processed(f, reply).path == f.path
  {
  }

  lemma DoneIsTrue(analyse: string -> Reply, f: Found, cp: Checkpoint)
    requires Truthful(analyse, cp) && IsDone(f, cp)
    ensures cp[f.resolved] == StatusOf(analyse(f.resolved))
  {
  }

  lemma {:induction false} NothingDone(files: seq<Found>)
    ensures PendingOf(files, map[]) == files && RememberAll(files, map[]) == []
  {
    if files != [] { NothingDone(files[1..]); }
  }

  lemma TruthfulAgrees(analyse: string -> Reply, files: seq<Found>, rejected: seq<Failure>, cp: Checkpoint)
    requires Truthful(analyse, cp)
    ensures Agree(Reported(analyse, files, rejected, cp), Reported(analyse, files, rejected, map[]))
  {
    hide RememberAll, ProcessAll, PendingOf, Rejections, Bag, Failures, Count;
    var skipped, done, ran, all := Rejections(rejected), RememberAll(files, cp), ProcessAll(analyse, PendingOf(files, cp)), ProcessAll(analyse, files);
    Split(analyse, files, cp);
    SplitBag(analyse, files, cp);
    NothingDone(files);
    Concat(skipped, done);
    Concat(skipped + done, ran);
    Concat(skipped, all);
    assert Reported(analyse, files, rejected, map[]) == skipped + all;
    assert Failures(skipped + done) == Failures(skipped);
  }

  /** A batch that is started afresh, interrupted and resumed any number of times, agrees in the end with one that
      was never interrupted, unless it was stopped before it cleared an older checkpoint that was not truthful. */
  lemma ResumeAgreesWithUninterrupted(
      analyse: string -> Reply, files: seq<Found>, rejected: seq<Failure>, disk: Option<Checkpoint>, first: Session, ss: seq<Session>)
    requires first.budget > 0 || Truthful(analyse, Loaded(disk))
    ensures
      var stopped := After(disk, Writes(analyse, files, first.workers, false, map[]), first.budget);
      var last := ResumeAll(analyse, files, stopped, ss);
      Agree(Reported(analyse, files, rejected, Loaded(last)), Reported(analyse, files, rejected, map[]))
  {
    hide Reported, ResumeAll;
    var stopped := After(disk, Writes(analyse, files, first.workers, false, map[]), first.budget);
    FreshKeeps(analyse, files, disk, first);
    StaysTruthful(analyse, files, stopped, ss);
    TruthfulAgrees(analyse, files, rejected, Loaded(ResumeAll(analyse, files, stopped, ss)));
  }

  lemma FreshKeeps(analyse: string -> Reply, files: seq<Found>, disk: Option<Checkpoint>, first: Session)
    requires first.budget > 0 || Truthful(analyse, Loaded(disk))
    ensures Truthful(analyse, Loaded(After(disk, Writes(analyse, files, first.workers, false, map[]), first.budget)))
  {
    hide Saves, RecordAll, PendingOf;
    var pending := PendingOf(files, map[]);
    RecordAllKeeps(analyse, map[], pending);
    forall n: nat | n < |pending| ensures Kindly(analyse, map[], Saves(analyse, map[], pending)[n]) {
      SavesKeep(analyse, map[], pending, n);
    }
  }

  // ---- the order of the outcomes ----

  function DoneOf(files: seq<Found>, cp: Checkpoint): seq<Found> {
    if files == [] then [] else (if IsDone(files[0], cp) then [files[0]] else []) + DoneOf(files[1..], cp)
  }

  function PathsOf(files: seq<Found>): seq<string> { seq(|files|, i requires 0 <= i < |files| => files[i].path) }

  function OutcomePaths(outcomes: seq<Outcome>): seq<string> { seq(|outcomes|, i requires 0 <= i < |outcomes| => outcomes[i].path) }

  /** No remembered file comes after one that is not. */
  ghost predicate DoneFirst(files: seq<Found>, cp: Checkpoint) {
    forall i, j | 0 <= i < j < |files| && IsDone(files[j], cp) :: IsDone(files[i], cp)
  }

  /** A resumed run reports the files in the order of their discovery if and only if the checkpoint remembers an
      initial stretch of them. */
  lemma OrderKept(analyse: string -> Reply, files: seq<Found>, cp: Checkpoint)
    requires forall f, g | f in files && g in files && f.path == g.path :: f == g
    ensures OutcomePaths(RememberAll(files, cp) + ProcessAll(analyse, PendingOf(files, cp))) == PathsOf(files) <==> DoneFirst(files, cp)
  {
    hide RememberAll, ProcessAll, PendingOf, DoneOf;
    var outcomes, order := RememberAll(files, cp) + ProcessAll(analyse, PendingOf(files, cp)), DoneOf(files, cp) + PendingOf(files, cp);
    PathsMatch(analyse, files, cp);
    Sides(files, cp);
    if OutcomePaths(outcomes) == PathsOf(files) {
      SamePaths(order, files);
      SortedIsDoneFirst(files, cp);
    }
    if DoneFirst(files, cp) {
      DoneFirstIsSorted(files, cp);
    }
  }

  lemma SortedIsDoneFirst(files: seq<Found>, cp: Checkpoint)
    requires DoneOf(files, cp) + PendingOf(files, cp) == files
    ensures DoneFirst(files, cp)
  {
    hide DoneOf, PendingOf;
    Sides(files, cp);
    var d := DoneOf(files, cp);
    forall j | 0 <= j < |files| ensures IsDone(files[j], cp) <==> j < |d| {
      assert files[j] == if j < |d| then d[j] else PendingOf(files, cp)[j - |d|];
    }
  }

  lemma {:induction false} Sides(files: seq<Found>, cp: Checkpoint)
    ensures forall f | f in DoneOf(files, cp) :: f in files && IsDone(f, cp)
    ensures forall f | f in PendingOf(files, cp) :: f in files && !IsDone(f, cp)
  {
    if files != [] { Sides(files[1..], cp); }
  }

  lemma {:induction false} DoneFirstIsSorted(files: seq<Found>, cp: Checkpoint)
    requires DoneFirst(files, cp)
    ensures DoneOf(files, cp) + PendingOf(files, cp) == files
  {
    if files == [] {
    } else if IsDone(files[0], cp) {
      DoneFirstIsSorted(files[1..], cp);
    } else {
      assert forall j | 0 <= j < |files| :: !IsDone(files[j], cp);
      AllPending(files, cp);
    }
  }

  lemma {:induction false} AllPending(files: seq<Found>, cp: Checkpoint)
    requires forall j | 0 <= j < |files| :: !IsDone(files[j], cp)
    ensures DoneOf(files, cp) == [] && PendingOf(files, cp) == files
  {
    if files != [] { AllPending(files[1..], cp); }
  }

  lemma SamePaths(a: seq<Found>, b: seq<Found>)
    requires forall f, g | f in b && g in b && f.path == g.path :: f == g
    requires (forall f | f in a :: f in b) && PathsOf(a) == PathsOf(b)
    ensures a == b
  {
    assert |PathsOf(a)| == |PathsOf(b)|;
    forall k | 0 <= k < |a| ensures a[k] == b[k] {
      assert PathsOf(a)[k] == PathsOf(b)[k];
    }
  }

  lemma {:induction false} PathsMatch(analyse: string -> Reply, files: seq<Found>, cp: Checkpoint)
    ensures OutcomePaths(RememberAll(files, cp) + ProcessAll(analyse, PendingOf(files, cp))) == PathsOf(DoneOf(files, cp) + PendingOf(files, cp))
  {
    RememberedPaths(files, cp);
    var p := PendingOf(files, cp);
    forall k | 0 <= k < |p| ensures ProcessAll(analyse, p)[k].path == p[k].path {
      PathKept(p[k], analyse(p[k].resolved));
    }
  }

  lemma {:induction false} RememberedPaths(files: seq<Found>, cp: Checkpoint)
    ensures |RememberAll(files, cp)| == |DoneOf(files, cp)|
    ensures forall k | 0 <= k < |DoneOf(files, cp)| :: RememberAll(files, cp)[k].path == DoneOf(files, cp)[k].path
  {
    if files != [] { RememberedPaths(files[1..], cp); }
  }

  /** The documented order is lost as soon as a file fails before another one succeeds: stopped just before the
      checkpoint is removed and resumed, the run reports the later file first. */
  lemma ResumeReorders(analyse: string -> Reply, bad: Found, good: Found, disk: Option<Checkpoint>)
    requires StatusOf(analyse(bad.resolved)) == Failed && Kept(StatusOf(analyse(good.resolved))) && bad.resolved != good.resolved
    ensures
      var stopped := After(disk, Writes(analyse, [bad, good], 1, false, map[]), 3);
      OutcomePaths(Reported(analyse, [bad, good], [], Loaded(stopped))) == [good.path, bad.path]
  {
    var files := [bad, good];
    var cp := map[good.resolved := StatusOf(analyse(good.resolved))];
    NothingDone(files);
    assert files[1..] == [good] && [good][1..] == [];
    assert Saves(analyse, map[], [good]) == [Some(cp)];
    assert Saves(analyse, map[], files) == [Some(map[]), Some(cp)];
    var ws := Writes(analyse, files, 1, false, map[]);
    assert ws == [Some(map[]), Some(map[]), Some(cp), None];
    assert After(disk, ws, 3) == Some(cp);
    assert PendingOf([good], cp) == [] && PendingOf([bad] + [good], cp) == [bad] + PendingOf([good], cp);
    assert [bad] + [good] == files;
    assert RememberAll([good], cp) == [Remembered(good, cp[good.resolved])] && RememberAll(files, cp) == RememberAll([good], cp);
    PathKept(bad, analyse(bad.resolved));
  }
}
