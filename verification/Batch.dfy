/** Batches of files with a checkpoint and resume (src/book2skill/application/batch.py). */
module Batch {
  import opened Knowledge

  datatype FileStatus = Success | Partial | Failed | Skipped

  datatype Failure = Failure(path: string, code: string, message: string, recovery: string)

  /** A discovered file. Its resolved path says which file it is. */
  datatype Found = Found(path: string, resolved: string, sourceId: string, format: string)

  /** What the analysis of one file comes to: a domain or model error, a bundle, or neither. */
  datatype Reply = Raised(error: Failure) | Bundled(bundle: string, bundleSource: string, errors: seq<Failure>) | NoBundle(errors: seq<Failure>)

  datatype Outcome = Outcome(path: string, sourceId: Option<string>, status: FileStatus, format: Option<string>,
                             bundle: Option<string>, errors: seq<Failure>)

  datatype Summary = Summary(total: nat, succeeded: nat, partly: nat, failed: nat, skipped: nat)

  datatype BatchResult = BatchResult(outcomes: seq<Outcome>, summary: Summary, failures: seq<Failure>)

  type Checkpoint = map<string, FileStatus>

  /** The outcomes a checkpoint remembers. The others are tried again. */
  predicate Kept(s: FileStatus) { s in {Success, Partial} }

  function StatusOf(reply: Reply): FileStatus {
    match reply
    case Bundled(_, _, errors) => if errors == [] then Success else Partial
    case _ => Failed
  }

  // ---- what a run reports and writes ----

  function Rejection(e: Failure): Outcome { Outcome(e.path, None, Skipped, None, None, [e]) }

  function Remembered(f: Found, s: FileStatus): Outcome { Outcome(f.path, Some(f.sourceId), s, Some(f.format), None, []) }

  function Processed(f: Found, reply: Reply): Outcome {
    match reply
    case Raised(error) => Outcome(f.path, Some(f.sourceId), Failed, Some(f.format), None, [error])
    case Bundled(bundle, source, errors) => Outcome(f.path, Some(source), StatusOf(reply), Some(f.format), Some(bundle), errors)
    case NoBundle(errors) => Outcome(f.path, Some(f.sourceId), Failed, Some(f.format), None, errors)
  }

  function Rejections(rejected: seq<Failure>): seq<Outcome> { seq(|rejected|, i requires 0 <= i < |rejected| => Rejection(rejected[i])) }

  function ProcessAll(analyse: string -> Reply, files: seq<Found>): seq<Outcome> {
    seq(|files|, i requires 0 <= i < |files| => Processed(files[i], analyse(files[i].resolved)))
  }

  predicate IsDone(f: Found, cp: Checkpoint) { f.resolved in cp && Kept(cp[f.resolved]) }

  function PendingOf(files: seq<Found>, cp: Checkpoint): seq<Found> {
    if files == [] then [] else (if IsDone(files[0], cp) then [] else [files[0]]) + PendingOf(files[1..], cp)
  }

  function RememberAll(files: seq<Found>, cp: Checkpoint): seq<Outcome> {
    if files == [] then []
    else (if IsDone(files[0], cp) then [Remembered(files[0], cp[files[0].resolved])] else []) + RememberAll(files[1..], cp)
  }

  function Reported(analyse: string -> Reply, files: seq<Found>, rejected: seq<Failure>, cp: Checkpoint): seq<Outcome> {
    Rejections(rejected) + RememberAll(files, cp) + ProcessAll(analyse, PendingOf(files, cp))
  }

  function Record(analyse: string -> Reply, cp: Checkpoint, f: Found): Checkpoint {
    var s := StatusOf(analyse(f.resolved));
    if Kept(s) then cp[f.resolved := s] else cp
  }

  function RecordAll(analyse: string -> Reply, cp: Checkpoint, files: seq<Found>): Checkpoint
    decreases |files|
  {
    if files == [] then cp else RecordAll(analyse, Record(analyse, cp, files[0]), files[1..])
  }

  /** The checkpoints written one file after the other. */
  function Saves(analyse: string -> Reply, cp: Checkpoint, files: seq<Found>): (ws: seq<Option<Checkpoint>>)
    ensures |ws| == |files|
    decreases |files|
  {
    if files == [] then [] else [Some(Record(analyse, cp, files[0]))] + Saves(analyse, Record(analyse, cp, files[0]), files[1..])
  }

  predicate Concurrent(workers: nat, pending: seq<Found>) { workers > 1 && |pending| > 1 }

  /** All that a whole run writes to the checkpoint file, in order; `None` stands for its removal. */
  function Writes(analyse: string -> Reply, files: seq<Found>, workers: nat, resume: bool, cp: Checkpoint): seq<Option<Checkpoint>> {
    var pending := PendingOf(files, cp);
    (if resume then [] else [Some(map[])])
    + (if Concurrent(workers, pending) then [Some(RecordAll(analyse, cp, pending))] else Saves(analyse, cp, pending))
    + [None]
  }

  /** The checkpoint file after the first `n` of the writes. */
  function After(disk: Option<Checkpoint>, writes: seq<Option<Checkpoint>>, n: nat): Option<Checkpoint> {
    if n == 0 || writes == [] then disk else if n <= |writes| then writes[n - 1] else writes[|writes| - 1]
  }

  function Loaded(disk: Option<Checkpoint>): Checkpoint { if disk.Some? then disk.value else map[] }

  function Failures(outcomes: seq<Outcome>): seq<Failure> {
    if outcomes == [] then []
    else (if outcomes[0].status in {Failed, Skipped} then outcomes[0].errors else []) + Failures(outcomes[1..])
  }

  function Count(outcomes: seq<Outcome>, s: FileStatus): nat {
    if outcomes == [] then 0 else (if outcomes[0].status == s then 1 else 0) + Count(outcomes[1..], s)
  }

  // ---- what a report says ----

  /** The outcome of a rejected path. */
  predicate SaysSkipped(e: Failure, o: Outcome) {
    o.path == e.path && o.status == Skipped && o.errors == [e] && o.bundle.None? && o.sourceId.None? && o.format.None?
  }

  /** The outcome of a file that the checkpoint remembers as done: the status it had, and nothing else. */
  predicate SaysRemembered(f: Found, s: FileStatus, o: Outcome) {
    o.path == f.path && o.sourceId == Some(f.sourceId) && o.format == Some(f.format) && o.status == s && o.bundle.None? && o.errors == []
  }

  /** The outcome of a file that was analysed: a success has a bundle and no error, a partial one has both, and a
      failure has no bundle. */
  predicate SaysAnalysed(f: Found, reply: Reply, o: Outcome) {
    && o.path == f.path && o.format == Some(f.format)
    && (o.status == Success <==> o.bundle.Some? && o.errors == [])
    && (o.status == Partial <==> o.bundle.Some? && o.errors != [])
    && (o.status == Failed <==> o.bundle.None?)
    && o.bundle == (if reply.Bundled? then Some(reply.bundle) else None)
    && o.sourceId == Some(if reply.Bundled? then reply.bundleSource else f.sourceId)
    && o.errors == if reply.Raised? then [reply.error] else reply.errors
  }

  predicate Finished(f: Found, cp: Checkpoint) { f.resolved in cp && (cp[f.resolved] == Success || cp[f.resolved] == Partial) }

  predicate Says(analyse: string -> Reply, cp: Checkpoint, f: Found, o: Outcome) {
    if Finished(f, cp) then SaysRemembered(f, cp[f.resolved], o) else SaysAnalysed(f, analyse(f.resolved), o)
  }

  /** The positions of the files, finished ones first, each group in its order. */
  ghost predicate Sequence(files: seq<Found>, cp: Checkpoint, at: seq<nat>) {
    && |at| == |files| && (forall i | 0 <= i < |at| :: at[i] < |files|)
    && forall i, j | 0 <= i < j < |at| ::
         if Finished(files[at[i]], cp) == Finished(files[at[j]], cp) then at[i] < at[j] else Finished(files[at[i]], cp)
  }

  /** Every rejected path and then every file has exactly one outcome, which says what became of it. */
  ghost predicate Accounts(analyse: string -> Reply, files: seq<Found>, rejected: seq<Failure>, cp: Checkpoint, outcomes: seq<Outcome>) {
    && |outcomes| == |rejected| + |files|
    && (forall i | 0 <= i < |rejected| :: SaysSkipped(rejected[i], outcomes[i]))
    && exists at: seq<nat> :: Sequence(files, cp, at) && forall i | 0 <= i < |files| :: Says(analyse, cp, files[at[i]], outcomes[|rejected| + i])
  }

  /** The increasing list of the positions whose file is finished, or is not. */
  ghost predicate Places(files: seq<Found>, cp: Checkpoint, done: bool, at: seq<nat>) {
    && (forall i | 0 <= i < |at| :: at[i] < |files| && Finished(files[at[i]], cp) == done)
    && (forall i, j | 0 <= i < j < |at| :: at[i] < at[j])
  }

  function Shift(at: seq<nat>): seq<nat> { seq(|at|, i requires 0 <= i < |at| => at[i] + 1) }

  function Next(files: seq<Found>, cp: Checkpoint, done: bool, at: seq<nat>): seq<nat>
    requires files != []
  {
    (if Finished(files[0], cp) == done then [0] else []) + Shift(at)
  }

  lemma PlacesNext(files: seq<Found>, cp: Checkpoint, done: bool, at: seq<nat>)
    requires files != [] && Places(files[1..], cp, done, at)
    ensures Places(files, cp, done, Next(files, cp, done, at))
    ensures forall i | 0 <= i < |at| :: files[Shift(at)[i]] == files[1..][at[i]]
  {
    hide Finished;
  }

  lemma {:induction false} FinishedPlaces(files: seq<Found>, cp: Checkpoint) returns (at: seq<nat>)
    ensures Places(files, cp, true, at) && |at| == |RememberAll(files, cp)|
    ensures forall i | 0 <= i < |at| :: Finished(files[at[i]], cp) && RememberAll(files, cp)[i] == Remembered(files[at[i]], cp[files[at[i]].resolved])
  {
    if files == [] {
      at := [];
    } else {
      hide Remembered, Places;
      var rest := FinishedPlaces(files[1..], cp);
      PlacesNext(files, cp, true, rest);
      at := Next(files, cp, true, rest);
    }
  }

  lemma {:induction false} OpenPlaces(files: seq<Found>, cp: Checkpoint) returns (at: seq<nat>)
    ensures Places(files, cp, false, at) && |at| == |PendingOf(files, cp)|
    ensures forall i | 0 <= i < |at| :: at[i] < |files| && PendingOf(files, cp)[i] == files[at[i]]
  {
    if files == [] {
      at := [];
    } else {
      hide Places;
      var rest := OpenPlaces(files[1..], cp);
      PlacesNext(files, cp, false, rest);
      at := Next(files, cp, false, rest);
    }
  }

  lemma {:induction false} AllPlaced(files: seq<Found>, cp: Checkpoint)
    ensures |RememberAll(files, cp)| + |PendingOf(files, cp)| == |files|
  {
    if files != [] { AllPlaced(files[1..], cp); }
  }

  lemma Sequenced(files: seq<Found>, cp: Checkpoint, done: seq<nat>, todo: seq<nat>)
    requires Places(files, cp, true, done) && Places(files, cp, false, todo) && |done| + |todo| == |files|
    ensures Sequence(files, cp, done + todo)
  {
    hide Finished;
  }

  lemma AccountsIs(analyse: string -> Reply, files: seq<Found>, rejected: seq<Failure>, cp: Checkpoint)
    ensures Accounts(analyse, files, rejected, cp, Reported(analyse, files, rejected, cp))
  {
    hide RememberAll, PendingOf, Remembered, Processed, SaysRemembered, SaysAnalysed, Places, Sequence;
    var done := FinishedPlaces(files, cp);
    var todo := OpenPlaces(files, cp);
    AllPlaced(files, cp);
    Sequenced(files, cp, done, todo);
    var at, out, n := done + todo, Reported(analyse, files, rejected, cp), |rejected|;
    forall i | 0 <= i < |files| ensures at[i] < |files| && Says(analyse, cp, files[at[i]], out[n + i]) {
      PlacedIn(files, cp, done, todo, i);
      var f := files[at[i]];
      if i < |done| {
        assert out[n + i] == RememberAll(files, cp)[i];
        RememberedIs(f, cp[f.resolved]);
      } else {
        assert out[n + i] == Processed(PendingOf(files, cp)[i - |done|], analyse(PendingOf(files, cp)[i - |done|].resolved));
        AnalysedIs(f, analyse(f.resolved));
      }
    }
  }

  lemma PlacedIn(files: seq<Found>, cp: Checkpoint, done: seq<nat>, todo: seq<nat>, i: nat)
    requires Places(files, cp, true, done) && Places(files, cp, false, todo) && i < |done| + |todo|
    ensures (done + todo)[i] < |files| && (Finished(files[(done + todo)[i]], cp) <==> i < |done|)
    ensures (done + todo)[i] == if i < |done| then done[i] else todo[i - |done|]
  {
    hide Finished;
  }

  lemma RememberedIs(f: Found, s: FileStatus)
    ensures SaysRemembered(f, s, Remembered(f, s))
  {
  }

  lemma AnalysedIs(f: Found, reply: Reply)
    ensures SaysAnalysed(f, reply, Processed(f, reply))
  {
  }

  /** Every outcome is counted once, under its status. */
  method Tally(outcomes: seq<Outcome>) returns (summary: Summary)
    ensures summary == Summary(|outcomes|, Count(outcomes, Success), Count(outcomes, Partial), Count(outcomes, Failed), Count(outcomes, Skipped))
    ensures summary.succeeded + summary.partly + summary.failed + summary.skipped == summary.total
  {
    var succeeded, partly, failed, skipped := 0, 0, 0, 0;
    for i := 0 to |outcomes|
      invariant succeeded + Count(outcomes[i..], Success) == Count(outcomes, Success)
      invariant partly + Count(outcomes[i..], Partial) == Count(outcomes, Partial)
      invariant failed + Count(outcomes[i..], Failed) == Count(outcomes, Failed)
      invariant skipped + Count(outcomes[i..], Skipped) == Count(outcomes, Skipped)
      invariant succeeded + partly + failed + skipped == i
    {
      assert outcomes[i..][1..] == outcomes[i + 1..];
      match outcomes[i].status
      case Success => succeeded := succeeded + 1;
      case Partial => partly := partly + 1;
      case Failed => failed := failed + 1;
      case Skipped => skipped := skipped + 1;
    }
    summary := Summary(|outcomes|, succeeded, partly, failed, skipped);
  }

  method FailureList(outcomes: seq<Outcome>) returns (failures: seq<Failure>)
    ensures failures == Failures(outcomes)
  {
    failures := [];
    for i := 0 to |outcomes|
      invariant failures + Failures(outcomes[i..]) == Failures(outcomes)
    {
      assert outcomes[i..][1..] == outcomes[i + 1..];
      if outcomes[i].status in {Failed, Skipped} {
        failures := failures + outcomes[i].errors;
      }
    }
  }

  // ---- the orchestrator ----

  lemma Append<T>(a: seq<T>, x: T, b: seq<T>)
    ensures a + ([x] + b) == (a + [x]) + b
  {
  }

  lemma UnfoldAt(files: seq<Found>, i: nat, cp: Checkpoint)
    requires i < |files|
    ensures IsDone(files[i], cp) ==>
              RememberAll(files[i..], cp) == [Remembered(files[i], cp[files[i].resolved])] + RememberAll(files[i + 1..], cp)
              && PendingOf(files[i..], cp) == PendingOf(files[i + 1..], cp)
    ensures !IsDone(files[i], cp) ==>
              RememberAll(files[i..], cp) == RememberAll(files[i + 1..], cp)
              && PendingOf(files[i..], cp) == [files[i]] + PendingOf(files[i + 1..], cp)
  {
    assert files[i..][1..] == files[i + 1..];
  }

  lemma UnfoldEnd(files: seq<Found>, cp: Checkpoint)
    ensures RememberAll(files[|files|..], cp) == [] && PendingOf(files[|files|..], cp) == []
  {
  }

  /** The batch orchestrator and its checkpoint file. The process stops when `budget` durable writes are done. */
  class BatchOrchestrator {
    const analyse: string -> Reply
    const workers: nat
    var disk: Option<Checkpoint>
    var budget: nat

    constructor (analyse: string -> Reply, workers: nat, disk: Option<Checkpoint>, budget: nat)
      ensures this.analyse == analyse && this.workers == workers && this.disk == disk && this.budget == budget
    {
      this.analyse, this.workers, this.disk, this.budget := analyse, workers, disk, budget;
    }

    method Persist(c: Option<Checkpoint>) returns (ok: bool)
      modifies this
      ensures ok <==> old(budget) > 0
      ensures disk == (if ok then c else old(disk)) && budget == if ok then old(budget) - 1 else 0
    {
      ok := budget > 0;
      if ok {
        disk, budget := c, budget - 1;
      }
    }

    method ProcessFile(f: Found) returns (outcome: Outcome)
      ensures outcome == Processed(f, analyse(f.resolved))
      ensures outcome.path == f.path && outcome.status == StatusOf(analyse(f.resolved))
    {
      var reply := analyse(f.resolved);
      match reply
      case Raised(error) =>
        outcome := Outcome(f.path, Some(f.sourceId), Failed, Some(f.format), None, [error]);
      case Bundled(bundle, source, errors) =>
        var status := if errors == [] then Success else Partial;
        outcome := Outcome(f.path, Some(source), status, Some(f.format), Some(bundle), errors);
      case NoBundle(errors) =>
        outcome := Outcome(f.path, Some(f.sourceId), Failed, Some(f.format), None, errors);
    }

    /** One file at a time, with a save after each. */
    method RunSequential(files: seq<Found>, keep: bool, cp: Checkpoint) returns (ok: bool, outcomes: seq<Outcome>)
      modifies this
      ensures ok <==> keep ==> |files| <= old(budget)
      ensures disk == if keep then After(old(disk), Saves(analyse, cp, files), old(budget)) else old(disk)
      ensures budget == if !keep then old(budget) else if ok then old(budget) - |files| else 0
      ensures ok ==> outcomes == ProcessAll(analyse, files)
    {
      hide Processed, Record;
      ok, outcomes := true, [];
      var completed := cp;
      ghost var ws := Saves(analyse, cp, files);
      for i := 0 to |files|
        invariant outcomes == ProcessAll(analyse, files[..i])
        invariant !keep ==> disk == old(disk) && budget == old(budget)
        invariant keep ==> i <= old(budget) && budget == old(budget) - i && disk == After(old(disk), ws, i)
        invariant ws[i..] == Saves(analyse, completed, files[i..])
      {
        assert files[i..][1..] == files[i + 1..] && ws[i..][1..] == ws[i + 1..];
        assert files[..i + 1] == files[..i] + [files[i]];
        var outcome := ProcessFile(files[i]);
        outcomes := outcomes + [outcome];
        completed := RecordOne(completed, files[i], outcome.status);
        if keep {
          assert ws[i] == ws[i..][0] == Some(completed);
          ok := Persist(Some(completed));
          if !ok {
            return;
          }
        }
      }
      assert files[..|files|] == files;
    }

    method RecordOne(cp: Checkpoint, f: Found, status: FileStatus) returns (completed: Checkpoint)
      requires status == StatusOf(analyse(f.resolved))
      ensures completed == Record(analyse, cp, f)
    {
      completed := cp;
      if Kept(status) {
        completed := completed[f.resolved := status];
      }
    }

    /** The files finish in any order. */
    method RunAll(files: seq<Found>) returns (results: map<nat, Outcome>)
      ensures forall i: nat | i < |files| :: i in results && results[i] == Processed(files[i], analyse(files[i].resolved))
    {
      hide Processed;
      results := map[];
      var running: set<nat> := {};
      for i := 0 to |files|
        invariant forall k: nat :: k in running <==> k < i
      {
        running := running + {i};
      }
      while running != {}
        invariant forall i: nat | i < |files| :: i in running || (i in results && results[i] == Processed(files[i], analyse(files[i].resolved)))
        invariant forall i | i in running :: i < |files|
        decreases running
      {
        var i :| i in running;
        var outcome := ProcessFile(files[i]);
        results := results[i := outcome];
        running := running - {i};
      }
    }

    /** The results in the order of the files, and the checkpoint with all of them. */
    method Collect(files: seq<Found>, results: map<nat, Outcome>, cp: Checkpoint) returns (outcomes: seq<Outcome>, completed: Checkpoint)
      requires forall i: nat | i < |files| :: i in results && results[i] == Processed(files[i], analyse(files[i].resolved))
      ensures outcomes == ProcessAll(analyse, files) && completed == RecordAll(analyse, cp, files)
    {
      hide Processed, Record;
      outcomes, completed := [], cp;
      for i := 0 to |files|
        invariant RecordAll(analyse, completed, files[i..]) == RecordAll(analyse, cp, files)
        invariant outcomes == ProcessAll(analyse, files[..i])
      {
        assert files[i..][1..] == files[i + 1..] && files[..i + 1] == files[..i] + [files[i]];
        outcomes := outcomes + [results[i]];
        StatusKept(analyse, files[i]);
        completed := RecordOne(completed, files[i], results[i].status);
      }
      assert files[..|files|] == files;
    }

    /** All files at once, with one save at the end. */
    method RunConcurrent(files: seq<Found>, keep: bool, cp: Checkpoint) returns (ok: bool, outcomes: seq<Outcome>)
      modifies this
      ensures ok <==> keep ==> 1 <= old(budget)
      ensures disk == if keep then After(old(disk), [Some(RecordAll(analyse, cp, files))], old(budget)) else old(disk)
      ensures budget == if !keep then old(budget) else if ok then old(budget) - 1 else 0
      ensures ok ==> outcomes == ProcessAll(analyse, files)
    {
      hide Processed, Record, RecordAll, ProcessAll;
      var results := RunAll(files);
      var completed;
      outcomes, completed := Collect(files, results, cp);
      ok := true;
      if keep {
        ok := Persist(Some(completed));
      }
    }

    method Partition(files: seq<Found>, cp: Checkpoint) returns (done: seq<Outcome>, pending: seq<Found>)
      ensures done == RememberAll(files, cp) && pending == PendingOf(files, cp)
    {
      hide Remembered, Kept, RememberAll, PendingOf;
      done, pending := [], [];
      for i := 0 to |files|
        invariant done + RememberAll(files[i..], cp) == RememberAll(files, cp)
        invariant pending + PendingOf(files[i..], cp) == PendingOf(files, cp)
      {
        UnfoldAt(files, i, cp);
        if IsDone(files[i], cp) {
          var o := Remembered(files[i], cp[files[i].resolved]);
          Append(done, o, RememberAll(files[i + 1..], cp));
          done := done + [o];
        } else {
          Append(pending, files[i], PendingOf(files[i + 1..], cp));
          pending := pending + [files[i]];
        }
      }
      UnfoldEnd(files, cp);
    }

    /** A whole run. Without a checkpoint path nothing is loaded and nothing is written. */
    method Execute(files: seq<Found>, rejected: seq<Failure>, keep: bool, resume: bool) returns (r: Option<BatchResult>)
      modifies this
      ensures
        var cp := if keep && resume then Loaded(old(disk)) else map[];
        var ws := if keep then Writes(analyse, files, workers, resume, cp) else [];
        && disk == After(old(disk), ws, old(budget))
        && (r.Some? <==> |ws| <= old(budget))
        && (r.Some? ==> r.value.outcomes == Reported(analyse, files, rejected, cp) && Sums(r.value))
        && (r.Some? ==> Accounts(analyse, files, rejected, cp, r.value.outcomes))
    {
      hide Accounts, Saves, RecordAll, ProcessAll, PendingOf, RememberAll, Count, Failures;
      r := None;
      var cp: Checkpoint := map[];
      var ok := true;
      if keep {
        if resume {
          cp := Loaded(disk);
        } else {
          ok := Persist(Some(map[]));
        }
      }
      if ok {
        AccountsIs(analyse, files, rejected, cp);
        var done, pending := Partition(files, cp);
        var ran;
        if workers > 1 && |pending| > 1 {
          ok, ran := RunConcurrent(pending, keep, cp);
        } else {
          ok, ran := RunSequential(pending, keep, cp);
        }
        if ok && keep {
          ok := Persist(None);
        }
        if ok {
          var outcomes := Rejections(rejected) + done + ran;
          var summary := Tally(outcomes);
          var failures := FailureList(outcomes);
          FailuresAre(outcomes);
          r := Some(BatchResult(outcomes, summary, failures));
        }
      }
    }
  }

  ghost predicate Sums(r: BatchResult) {
    && r.failures == Failures(r.outcomes)
    && (forall e :: e in r.failures <==> exists o | o in r.outcomes :: (o.status == Failed || o.status == Skipped) && e in o.errors)
    && r.summary == Summary(|r.outcomes|, Count(r.outcomes, Success), Count(r.outcomes, Partial), Count(r.outcomes, Failed), Count(r.outcomes, Skipped))
    && r.summary.succeeded + r.summary.partly + r.summary.failed + r.summary.skipped == r.summary.total
  }

  lemma {:induction false} FailuresAre(outcomes: seq<Outcome>)
    ensures forall e :: e in Failures(outcomes) <==> exists o | o in outcomes :: (o.status == Failed || o.status == Skipped) && e in o.errors
  {
    if outcomes != [] {
      FailuresAre(outcomes[1..]);
      assert outcomes == [outcomes[0]] + outcomes[1..];
    }
  }

  lemma StatusKept(analyse: string -> Reply, f: Found)
    ensures Processed(f, analyse(f.resolved)).status == StatusOf(analyse(f.resolved))
  {
  }
}
