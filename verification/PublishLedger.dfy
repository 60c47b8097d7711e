/** What the derived index shows, read off the log alone: for every Skill the last success entry that no failure entry
    has cancelled (src/book2skill/application/publisher.py, lines 1208-1288). */
module PublishLedger {
  import opened Knowledge
  import opened Storage
  import opened PublishProtocol

  // ---- the log by itself ----

  /** The two entries describe one publish attempt. */
  predicate Describes(failed: LogEntry, success: LogEntry) {
    && success.action == Publish && failed.action == Publish
    && (success.name, success.timestamp, success.counts) == (failed.name, failed.timestamp, failed.counts)
    && (success.snapshot, success.txId, success.publishId) == (failed.snapshot, failed.txId, failed.publishId)
  }

  /** Entry i reports a success, and no entry before k has cancelled it. */
  ghost predicate Stands(log: seq<LogEntry>, i: nat, k: nat)
    requires k <= |log|
    decreases k, 0
  {
    i < k && log[i].success && forall j | i < j < k :: !Cancels(log, i, j)
  }

  /** Entry j reports a failure of the attempt of entry i, the last of its Skill that stands by then. */
  ghost predicate Cancels(log: seq<LogEntry>, i: nat, j: nat)
    requires j < |log|
    decreases j, 1
  {
    && i < j && !log[j].success && Describes(log[j], log[i]) && Stands(log, i, j)
    && forall x | i < x < j && log[x].name == log[i].name :: !Stands(log, x, j)
  }

  /** Entry i is one of the Skill's, and stands at the end of the log. */
  ghost predicate Counts(log: seq<LogEntry>, name: string, i: nat) { i < |log| && log[i].name == name && Stands(log, i, |log|) }

  /** Entry i is the last of its Skill that stands. */
  ghost predicate LastStanding(log: seq<LogEntry>, name: string, i: nat) {
    Counts(log, name, i) && forall x: nat | i < x :: !Counts(log, name, x)
  }

  /** The row that the log gives a Skill. */
  ghost predicate RowFrom(log: seq<LogEntry>, name: string, row: Option<Row>) {
    match row
    case None => forall i: nat :: !Counts(log, name, i)
    case Some(x) => exists i: nat :: LastStanding(log, name, i) && x == Row(log[i].action, log[i].timestamp, log[i].snapshot)
  }

  function Shown(index: Index, name: string): Option<Row> { if name in index then Some(index[name]) else None }

  /** The index shows for every Skill what the log says. */
  ghost predicate InStep(log: seq<LogEntry>, index: Index) {
    forall name :: RowFrom(log, name, Shown(index, name))
  }

  // ---- the history is what stands ----

  /** The positions of the standing entries of a Skill, in order. */
  ghost predicate Positions(log: seq<LogEntry>, name: string, at: seq<nat>) {
    && (forall i, j | 0 <= i < j < |at| :: at[i] < at[j])
    && (forall k | 0 <= k < |at| :: Counts(log, name, at[k]))
    && (forall i: nat | Counts(log, name, i) :: i in at)
  }

  ghost predicate Holds(log: seq<LogEntry>, at: seq<nat>, past: seq<LogEntry>) {
    |past| == |at| && forall i | 0 <= i < |at| :: at[i] < |log| && past[i] == log[at[i]]
  }

  /** One entry less does not change what happened before it. */
  lemma {:induction false} SamePrefix(a: seq<LogEntry>, b: seq<LogEntry>, i: nat, k: nat)
    requires k <= |a| && k <= |b| && a[..k] == b[..k]
    ensures Stands(a, i, k) <==> Stands(b, i, k)
    decreases k
  {
    if i < k {
      assert a[..k][i] == b[..k][i];
      forall j | i < j < k ensures Cancels(a, i, j) <==> Cancels(b, i, j) {
        assert a[..k][j] == b[..k][j];
        assert a[..j] == a[..k][..j] && b[..j] == b[..k][..j];
        SamePrefix(a, b, i, j);
        forall x | i < x < j ensures a[x] == b[x] && (Stands(a, x, j) <==> Stands(b, x, j)) {
          assert a[..k][x] == b[..k][x];
          SamePrefix(a, b, x, j);
        }
      }
    }
  }

  lemma StandsStep(log: seq<LogEntry>, i: nat)
    requires log != []
    ensures var init := log[..|log| - 1];
            i < |init| ==> (Stands(log, i, |log|) <==> Stands(init, i, |init|) && !Cancels(log, i, |init|))
  {
    var init := log[..|log| - 1];
    assert init[..|init|] == log[..|init|];
    SamePrefix(init, log, i, |init|);
  }

  lemma StandsLast(log: seq<LogEntry>)
    requires log != []
    ensures Stands(log, |log| - 1, |log|) <==> log[|log| - 1].success
  {
  }

  lemma AboveLast(at: seq<nat>, x: nat)
    requires (forall i, j | 0 <= i < j < |at| :: at[i] < at[j]) && (at != [] ==> x > at[|at| - 1])
    ensures x !in at
  {
  }

  /** A failure entry cancels the last standing entry of its Skill, if they describe the same attempt. */
  lemma LastCancelled(log: seq<LogEntry>, at: seq<nat>, i: nat)
    requires log != [] && i < |log| - 1 && Positions(log[..|log| - 1], log[|log| - 1].name, at)
    ensures var n := |log| - 1;
            Cancels(log, i, n) <==> !log[n].success && at != [] && i == at[|at| - 1] && Describes(log[n], log[i])
  {
    var init, n := log[..|log| - 1], |log| - 1;
    assert init[..n] == log[..n];
    forall x: nat | x < n ensures log[x] == init[x] && (Stands(init, x, n) <==> Stands(log, x, n)) { SamePrefix(init, log, x, n); }
    hide Stands;
    if Cancels(log, i, n) {
      assert Counts(init, log[n].name, i);
      assert Counts(init, log[n].name, at[|at| - 1]);
    }
    if !log[n].success && at != [] && i == at[|at| - 1] && Describes(log[n], log[i]) {
      assert Counts(init, log[n].name, i);
      forall x: nat | i < x < n && log[x].name == log[i].name ensures !Stands(log, x, n) {
        AboveLast(at, x);
        assert !Counts(init, log[n].name, x);
      }
    }
  }

  /** What counts with one entry more. */
  lemma CountsStep(log: seq<LogEntry>, name: string, i: nat)
    requires log != []
    ensures var init, n := log[..|log| - 1], |log| - 1;
            Counts(log, name, i) <==>
              if i < n then Counts(init, name, i) && !Cancels(log, i, n) else i == n && log[n].success && log[n].name == name
  {
    StandsLast(log);
    if i < |log| - 1 {
      assert log[..|log| - 1][i] == log[i];
      StandsStep(log, i);
    }
    hide Stands, Cancels;
  }

  /** One entry more that neither joins nor removes a position. */
  lemma PositionsStay(log: seq<LogEntry>, name: string, at: seq<nat>)
    requires log != [] && Positions(log[..|log| - 1], name, at)
    requires !(log[|log| - 1].success && log[|log| - 1].name == name)
    requires forall i: nat | i < |log| - 1 && log[i].name == name :: !Cancels(log, i, |log| - 1)
    ensures Positions(log, name, at)
  {
    var init := log[..|log| - 1];
    forall i: nat ensures Counts(log, name, i) <==> Counts(init, name, i) {
      CountsStep(log, name, i);
      if Counts(init, name, i) { assert init[i] == log[i]; }
    }
    hide Counts, Cancels;
  }

  lemma PositionsGrow(log: seq<LogEntry>, name: string, at: seq<nat>)
    requires log != [] && Positions(log[..|log| - 1], name, at) && log[|log| - 1].success && log[|log| - 1].name == name
    ensures Positions(log, name, at + [|log| - 1])
  {
    var init, n := log[..|log| - 1], |log| - 1;
    forall i: nat ensures Counts(log, name, i) <==> Counts(init, name, i) || i == n {
      CountsStep(log, name, i);
      NoCancel(log, i);
    }
    forall k | 0 <= k < |at| ensures at[k] < n { assert Counts(init, name, at[k]); }
    hide Counts;
  }

  lemma PositionsShrink(log: seq<LogEntry>, name: string, at: seq<nat>)
    requires log != [] && Positions(log[..|log| - 1], name, at) && at != [] && !log[|log| - 1].success
    requires forall i: nat | i < |log| - 1 && log[i].name == name :: Cancels(log, i, |log| - 1) <==> i == at[|at| - 1]
    ensures Positions(log, name, at[..|at| - 1])
  {
    hide Counts, Cancels;
    var init, last, kept := log[..|log| - 1], at[|at| - 1], at[..|at| - 1];
    forall k | 0 <= k < |kept| ensures Counts(log, name, kept[k]) { CountsUnless(log, name, last, at[k]); }
    forall i: nat | Counts(log, name, i) ensures i in kept {
      CountsUnless(log, name, last, i);
      var k :| 0 <= k < |at| && at[k] == i;
      assert kept[k] == i;
    }
  }

  lemma CountsUnless(log: seq<LogEntry>, name: string, last: nat, i: nat)
    requires log != [] && !log[|log| - 1].success
    requires forall x: nat | x < |log| - 1 && log[x].name == name :: Cancels(log, x, |log| - 1) <==> x == last
    ensures Counts(log, name, i) <==> Counts(log[..|log| - 1], name, i) && i != last
  {
    hide Cancels, Stands;
    CountsStep(log, name, i);
    if i < |log| - 1 { assert log[..|log| - 1][i] == log[i]; }
  }

  lemma AttemptIs(success: LogEntry, failed: LogEntry)
    ensures SameAttempt(success, failed) <==> Describes(failed, success)
  {
  }

  /** The in-memory history of a Skill is the list of its standing entries. */
  lemma {:induction false} HistoryIs(log: seq<LogEntry>, name: string) returns (at: seq<nat>)
    ensures Positions(log, name, at) && Holds(log, at, Past(Replay(log), name))
  {
    if log == [] {
      at := [];
    } else {
      hide Positions, Cancels, Describes, SameAttempt;
      at := HistoryIs(log[..|log| - 1], name);
      at := HistoryStep(log, name, at);
    }
  }

  function PastAfter(past: seq<LogEntry>, e: LogEntry, name: string): seq<LogEntry> {
    if e.name != name then past
    else if e.success then past + [e]
    else if past != [] && SameAttempt(past[|past| - 1], e) then past[..|past| - 1]
    else past
  }

  lemma PastApply(h: History, e: LogEntry, name: string)
    ensures Past(ApplyEntry(h, e), name) == PastAfter(Past(h, name), e, name)
  {
    hide SameAttempt;
  }

  lemma PastStep(log: seq<LogEntry>, name: string)
    requires log != []
    ensures Past(Replay(log), name) == PastAfter(Past(Replay(log[..|log| - 1]), name), log[|log| - 1], name)
  {
    hide Past, PastAfter, ApplyEntry;
    PastApply(Replay(log[..|log| - 1]), log[|log| - 1], name);
  }

  lemma HistoryStep(log: seq<LogEntry>, name: string, before: seq<nat>) returns (at: seq<nat>)
    requires log != [] && Positions(log[..|log| - 1], name, before) && Holds(log[..|log| - 1], before, Past(Replay(log[..|log| - 1]), name))
    ensures Positions(log, name, at) && Holds(log, at, Past(Replay(log), name))
  {
    hide Positions, Holds, Replay, Past, PastAfter;
    PastStep(log, name);
    at := Step(log, name, before, Past(Replay(log[..|log| - 1]), name));
  }

  lemma Step(log: seq<LogEntry>, name: string, before: seq<nat>, past: seq<LogEntry>) returns (at: seq<nat>)
    requires log != [] && Positions(log[..|log| - 1], name, before) && Holds(log[..|log| - 1], before, past)
    ensures Positions(log, name, at) && Holds(log, at, PastAfter(past, log[|log| - 1], name))
  {
    hide Positions, Cancels, Counts, Describes, SameAttempt;
    var e, n := log[|log| - 1], |log| - 1;
    at := before;
    if e.name != name {
      forall i: nat | i < n && log[i].name == name ensures !Cancels(log, i, n) { OtherName(log, i); }
      PositionsStay(log, name, at);
    } else if e.success {
      PositionsGrow(log, name, at);
      at := at + [n];
    } else {
      at := FailureStep(log, before, past);
    }
  }

  lemma FailureStep(log: seq<LogEntry>, before: seq<nat>, past: seq<LogEntry>) returns (at: seq<nat>)
    requires log != [] && Positions(log[..|log| - 1], log[|log| - 1].name, before) && Holds(log[..|log| - 1], before, past)
    requires !log[|log| - 1].success
    ensures var e := log[|log| - 1]; Positions(log, e.name, at) && Holds(log, at, PastAfter(past, e, e.name))
  {
    hide Positions, Cancels, Counts, Describes, SameAttempt;
    var e, n := log[|log| - 1], |log| - 1;
    at := before;
    forall i: nat | i < n ensures Cancels(log, i, n) <==> at != [] && i == at[|at| - 1] && Describes(e, log[i]) {
      LastCancelled(log, at, i);
    }
    if past != [] { AttemptIs(past[|past| - 1], e); }
    if past != [] && SameAttempt(past[|past| - 1], e) {
      PositionsShrink(log, e.name, at);
      at := at[..|at| - 1];
    } else {
      PositionsStay(log, e.name, at);
    }
  }

  lemma OtherName(log: seq<LogEntry>, i: nat)
    requires log != [] && i < |log| - 1 && log[i].name != log[|log| - 1].name
    ensures !Cancels(log, i, |log| - 1)
  {
  }

  /** The derived index shows for every Skill the last success entry that no failure entry has cancelled. */
  lemma IndexInStep(log: seq<LogEntry>)
    ensures InStep(log, IndexOf(Replay(log)))
  {
    forall name ensures RowFrom(log, name, Shown(IndexOf(Replay(log)), name)) {
      hide Positions, RowFrom, Replay;
      var at := HistoryIs(log, name);
      RowOfLast(log, name, at, Past(Replay(log), name));
    }
  }

  lemma RowOfLast(log: seq<LogEntry>, name: string, at: seq<nat>, past: seq<LogEntry>)
    requires Positions(log, name, at) && Holds(log, at, past)
    ensures RowFrom(log, name, if past == [] then None else
              var e := past[|past| - 1]; Some(Row(e.action, e.timestamp, e.snapshot)))
  {
    hide Counts;
    if past != [] {
      var i := at[|at| - 1];
      forall x: nat | i < x ensures !Counts(log, name, x) { AboveLast(at, x); }
      assert LastStanding(log, name, i) by { assert Counts(log, name, at[|at| - 1]); }
    }
  }

  /** A log gives a Skill one row. */
  lemma OneRow(log: seq<LogEntry>, name: string, a: Option<Row>, b: Option<Row>)
    requires RowFrom(log, name, a) && RowFrom(log, name, b)
    ensures a == b
  {
    CountsInside(log, name);
    hide Counts;
    if a.Some? && b.Some? {
      var i: nat :| LastStanding(log, name, i) && a.value == Row(log[i].action, log[i].timestamp, log[i].snapshot);
      var j: nat :| LastStanding(log, name, j) && b.value == Row(log[j].action, log[j].timestamp, log[j].snapshot);
    }
  }

  /** A success entry takes the row of its Skill, and leaves the rows of the others. */
  lemma SuccessRow(log: seq<LogEntry>, e: LogEntry, name: string, row: Option<Row>)
    requires e.success && RowFrom(log, name, row)
    ensures RowFrom(log + [e], name, if name == e.name then Some(Row(e.action, e.timestamp, e.snapshot)) else row)
  {
    var all := log + [e];
    assert all[..|log|] == log;
    forall i: nat ensures Counts(all, name, i) <==> if i < |log| then Counts(log, name, i) else i == |log| && name == e.name {
      CountsStep(all, name, i);
      NoCancel(all, i);
    }
    if name == e.name {
      assert LastStanding(all, name, |log|);
    } else if row.Some? {
      CountsInside(log, name);
      hide Counts;
      var i: nat :| LastStanding(log, name, i) && row.value == Row(log[i].action, log[i].timestamp, log[i].snapshot);
      assert LastStanding(all, name, i);
    }
  }

  lemma CountsInside(log: seq<LogEntry>, name: string)
    ensures forall i: nat | Counts(log, name, i) :: i < |log|
  {
  }

  lemma NoCancel(log: seq<LogEntry>, i: nat)
    requires log != [] && log[|log| - 1].success
    ensures !Cancels(log, i, |log| - 1)
  {
  }
}
