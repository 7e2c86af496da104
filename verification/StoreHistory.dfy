/**
 * The recorded runs of the store as histories: whatever the other workloads do and whatever is pruned, each workload's
 * gates follow from its own reconciles, as in OutcomeGates.
 */
module StoreHistory {
  import opened Options
  import opened TextOrder
  import opened Timestamps
  import opened Limiters
  import opened StateStore
  import opened StoreRuns
  import Batch = BatchQueue
  import Gates = OutcomeGates

  // ----- a workload's own reconciles -----

  function Find(attached: seq<Attaching>, key: Key): (a: Option<Attaching>)
    ensures a.Some? ==> a.value in attached && a.value.key == key
    ensures a.None? ==> forall b :: b in attached ==> b.key != key
  {
    if attached == [] then None
    else if attached[|attached| - 1].key == key then Some(attached[|attached| - 1])
    else Find(attached[..|attached| - 1], key)
  }

  function Attachment(op: Op, key: Key): Option<Attaching> {
    if op.Reconciling? then Find(op.report.attached, key) else None
  }

  function Own(ops: seq<Op>, key: Key): seq<(Gates.Reconcile, Gates.Delivery)> {
    if ops == [] then []
    else
      var a := Attachment(ops[|ops| - 1], key);
      Own(ops[..|ops| - 1], key) + if a.Some? then [(a.value.now, a.value.delivery)] else []
  }

  /** When they were recorded. */
  function Stamps(ops: seq<Op>, key: Key): seq<int> {
    if ops == [] then []
    else
      var last := ops[|ops| - 1];
      Stamps(ops[..|ops| - 1], key) + if Attachment(last, key).Some? then [last.report.at] else []
  }

  /** No workload is attached twice in one report. */
  ghost predicate OneEach(attached: seq<Attaching>) {
    forall i, j :: 0 <= i < j < |attached| ==> attached[i].key != attached[j].key
  }

  ghost predicate OnceEach(ops: seq<Op>) {
    forall op :: op in ops && op.Reconciling? ==> OneEach(op.report.attached)
  }

  /** No later time sorts before an earlier one. */
  ghost predicate Ascending(times: seq<int>, earlier: (int, int) -> bool) {
    forall i, j :: 0 <= i < j < |times| ==> !earlier(times[j], times[i])
  }

  // ----- the rows of one workload -----

  function Of(rows: seq<RunRow>, key: Key): seq<RunRow> {
    if rows == [] then []
    else
      var last := rows[|rows| - 1];
      Of(rows[..|rows| - 1], key) + if last.key == key then [last] else []
  }

  function Times(rows: seq<RunRow>): (times: seq<int>)
    ensures |times| == |rows| && forall i :: 0 <= i < |rows| ==> times[i] == rows[i].time
  {
    seq(|rows|, i requires 0 <= i < |rows| => rows[i].time)
  }

  lemma OfStep(rows: seq<RunRow>, row: RunRow, key: Key)
    ensures Of(rows + [row], key) == Of(rows, key) + if row.key == key then [row] else []
  {
    assert (rows + [row])[..|rows|] == rows;
  }

  lemma {:induction false} OfConcat(some: seq<RunRow>, more: seq<RunRow>, key: Key)
    ensures Of(some + more, key) == Of(some, key) + Of(more, key)
  {
    if more == [] {
      assert some + more == some && Of(some, key) + [] == Of(some, key);
    } else {
      var front, last := more[..|more| - 1], more[|more| - 1];
      OfConcat(some, front, key);
      OfStep(some + front, last, key);
      OfStep(front, last, key);
      assert some + more == some + front + [last] && more == front + [last];
    }
  }

  lemma AscendingFront(rows: seq<RunRow>, row: RunRow, earlier: (int, int) -> bool)
    requires Ascending(Times(rows + [row]), earlier)
    ensures Ascending(Times(rows), earlier) && forall r :: r in rows ==> !earlier(row.time, r.time)
  {
    var times := Times(rows + [row]);
    assert Times(rows) == times[..|rows|];
    forall r | r in rows ensures !earlier(row.time, r.time) {
      var i :| 0 <= i < |rows| && rows[i] == r;
      assert times[i] == r.time && times[|rows|] == row.time;
    }
  }

  lemma AscendingAppend(times: seq<int>, time: int, earlier: (int, int) -> bool)
    requires Ascending(times, earlier) && forall t :: t in times ==> !earlier(time, t)
    ensures Ascending(times + [time], earlier)
  {
    var all := times + [time];
    forall i, j | 0 <= i < j < |all| ensures !earlier(all[j], all[i]) {
      assert all[i] == times[i] && times[i] in times;
    }
  }

  /** Rows that were recorded in order are read in that order. */
  lemma {:induction false} RowsInOrder(rows: seq<RunRow>, key: Key, earlier: (int, int) -> bool)
    requires Ascending(Times(Of(rows, key)), earlier)
    ensures RowsOf(rows, key, earlier) == Of(rows, key)
  {
    if rows != [] {
      var front, last := rows[..|rows| - 1], rows[|rows| - 1];
      if last.key == key {
        AscendingFront(Of(front, key), last, earlier);
      } else {
        assert Of(rows, key) == Of(front, key);
      }
      RowsInOrder(front, key, earlier);
    }
  }

  // ----- the newest rows -----

  function Last<T>(s: seq<T>, n: nat): seq<T> {
    if |s| <= n then s else s[|s| - n..]
  }

  lemma LastStep<T>(s: seq<T>, x: T, n: nat)
    requires n > 0
    ensures Last(s + [x], n) == Last(s, n - 1) + [x]
  {
  }

  lemma LastOfLast<T>(some: seq<T>, other: seq<T>, m: nat, n: nat)
    requires Last(some, n) == Last(other, n) && m <= n
    ensures Last(some, m) == Last(other, m)
  {
    assert Last(some, m) == Last(Last(some, n), m) && Last(other, m) == Last(Last(other, n), m);
  }

  lemma LastAppend<T>(some: seq<T>, other: seq<T>, x: T, n: nat)
    requires Last(some, n) == Last(other, n)
    ensures Last(some + [x], n) == Last(other + [x], n)
  {
    if n > 0 {
      LastOfLast(some, other, n - 1, n);
      LastStep(some, x, n);
      LastStep(other, x, n);
    }
  }

  lemma LastRuns(rows: seq<RunRow>, n: nat)
    ensures Last(Runs(rows), n) == Runs(Last(rows, n))
  {
  }

  const THREE: nat := Gates.COOLDOWN_RUNS

  lemma NewestOfLast(history: seq<Gates.Run>, n: nat)
    ensures Gates.Newest(history, n) == Gates.Newest(Last(history, n), n)
  {
  }

  /** The gates depend on the three newest runs only. */
  lemma SameGates(parse: Gates.Parser, some: seq<Gates.Run>, other: seq<Gates.Run>, now: Gates.Reconcile)
    requires Last(some, THREE) == Last(other, THREE)
    ensures Gates.Decided(parse, some, now) == Gates.Decided(parse, other, now)
    ensures Gates.Detected(parse, some, now) == Gates.Detected(parse, other, now)
  {
    NewestOfLast(some, THREE);
    NewestOfLast(other, THREE);
    LastOfLast(some, other, 1, THREE);
    LastOne(some);
    LastOne(other);
  }

  lemma LastOne<T>(s: seq<T>)
    ensures s == [] <==> Last(s, 1) == []
    ensures s != [] ==> Last(s, 1) == [s[|s| - 1]]
  {
  }

  // ----- one report -----

  /** Of the rows that a report records, at most one is the workload's. */
  lemma {:induction false} OfRowsFor(env: Env, runs: seq<RunRow>, attached: seq<Attaching>, at: int, key: Key)
    requires OneEach(attached)
    ensures var a := Find(attached, key);
      Of(RowsFor(env, runs, attached, at), key) == if a.Some? then [RowFor(env, runs, a.value, at)] else []
  {
    if attached != [] {
      var front, last := attached[..|attached| - 1], attached[|attached| - 1];
      OfRowsFor(env, runs, front, at, key);
      OfStep(RowsFor(env, runs, front, at), RowFor(env, runs, last, at), key);
      if last.key == key {
        assert forall b :: b in front ==> b.key != key;
      }
    }
  }

  lemma RowsThen(env: Env, t: Tables, r: Report, key: Key)
    requires OneEach(r.attached)
    ensures var a := Find(r.attached, key);
      Of(RunsThen(env, t, r), key)
      == Of(t.runs, key) + if a.Some? then [RowFor(env, t.runs, a.value, r.at)] else []
  {
    OfConcat(t.runs, RowsFor(env, t.runs, r.attached, r.at), key);
    OfRowsFor(env, t.runs, r.attached, r.at, key);
  }

  predicate Prunes(t: Tables, op: Op) {
    op.Reconciling? && PruneNow(t.lastPruned, op.report.retention, op.report.at)
  }

  /** Only reports change the runs, and the watermark of pruning. */
  lemma RunsAfter(env: Env, t: Tables, op: Op, keep: bool)
    ensures !op.Reconciling? ==> After(env, t, op, keep).runs == t.runs
    ensures op.Reconciling? && (keep || !Prunes(t, op)) ==> After(env, t, op, keep).runs == RunsThen(env, t, op.report)
    ensures !keep && Prunes(t, op) ==>
      After(env, t, op, keep).runs
      == KeptRuns(RunsThen(env, t, op.report), op.report.at - op.report.retention, env.earlier)
    ensures After(env, t, op, keep).lastPruned == if Prunes(t, op) then Some(op.report.at) else t.lastPruned
  {
  }

  // ----- a store that keeps its rows -----

  /** The workload's rows are the history of its reconciles, recorded at their times. */
  ghost predicate IsKept(env: Env, rows: seq<RunRow>, ops: seq<Op>, key: Key) {
    Runs(Of(rows, key)) == Gates.History(env.parse, Own(ops, key)) && Times(Of(rows, key)) == Stamps(ops, key)
  }

  lemma HistoryAppend(
      parse: Gates.Parser, steps: seq<(Gates.Reconcile, Gates.Delivery)>, now: Gates.Reconcile,
      delivery: Gates.Delivery)
    ensures Gates.History(parse, steps + [(now, delivery)])
         == Gates.History(parse, steps) + [Gates.Recorded(parse, Gates.History(parse, steps), now, delivery)]
  {
    assert (steps + [(now, delivery)])[..|steps|] == steps;
  }

  lemma OwnStep(front: seq<Op>, op: Op, key: Key)
    ensures var a := Attachment(op, key);
      && Own(front + [op], key) == Own(front, key) + (if a.Some? then [(a.value.now, a.value.delivery)] else [])
      && Stamps(front + [op], key) == Stamps(front, key) + (if a.Some? then [op.report.at] else [])
  {
    assert (front + [op])[..|front|] == front;
  }

  lemma AppendRow(rows: seq<RunRow>, row: RunRow)
    ensures Runs(rows + [row]) == Runs(rows) + [row.run] && Times(rows + [row]) == Times(rows) + [row.time]
  {
  }

  lemma KeptLast(env: Env, t: Tables, front: seq<Op>, r: Report, key: Key)
    requires OneEach(r.attached) && IsKept(env, t.runs, front, key) && Ascending(Stamps(front, key), env.earlier)
    ensures IsKept(env, RunsThen(env, t, r), front + [Reconciling(r)], key)
  {
    var a, rows := Find(r.attached, key), Of(t.runs, key);
    OwnStep(front, Reconciling(r), key);
    RowsThen(env, t, r, key);
    if a.Some? {
      RowsInOrder(t.runs, key, env.earlier);
      AppendRow(rows, RowFor(env, t.runs, a.value, r.at));
      HistoryAppend(env.parse, Own(front, key), a.value.now, a.value.delivery);
    } else {
      assert rows + [] == rows && Own(front, key) + [] == Own(front, key)
        && Stamps(front, key) + [] == Stamps(front, key);
    }
  }

  lemma FrontStamps(front: seq<Op>, op: Op, key: Key, earlier: (int, int) -> bool)
    requires Ascending(Stamps(front + [op], key), earlier)
    ensures Ascending(Stamps(front, key), earlier)
  {
    OwnStep(front, op, key);
    var all := Stamps(front + [op], key);
    forall i, j | 0 <= i < j < |Stamps(front, key)| ensures !earlier(Stamps(front, key)[j], Stamps(front, key)[i]) {
      assert all[i] == Stamps(front, key)[i] && all[j] == Stamps(front, key)[j];
    }
  }

  lemma {:induction false} KeptRunsAreHistory(env: Env, ops: seq<Op>, key: Key)
    requires OnceEach(ops) && Ascending(Stamps(ops, key), env.earlier)
    ensures IsKept(env, Run(env, ops, true).runs, ops, key)
  {
    if ops != [] {
      var front, last := ops[..|ops| - 1], ops[|ops| - 1];
      assert ops == front + [last];
      assert last in ops && forall op :: op in front ==> op in ops;
      FrontStamps(front, last, key, env.earlier);
      KeptRunsAreHistory(env, front, key);
      KeptHistoryStep(env, front, last, key);
    }
  }

  lemma KeptHistoryStep(env: Env, front: seq<Op>, last: Op, key: Key)
    requires IsKept(env, Run(env, front, true).runs, front, key) && Ascending(Stamps(front, key), env.earlier)
    requires last.Reconciling? ==> OneEach(last.report.attached)
    ensures IsKept(env, Run(env, front + [last], true).runs, front + [last], key)
  {
    RunStep(env, front, last, true);
    RunsAfter(env, Run(env, front, true), last, true);
    KeptHistoryNext(env, Run(env, front, true), front, last, key);
  }

  lemma KeptHistoryNext(env: Env, t: Tables, front: seq<Op>, last: Op, key: Key)
    requires IsKept(env, t.runs, front, key) && Ascending(Stamps(front, key), env.earlier)
    requires last.Reconciling? ==> OneEach(last.report.attached)
    ensures IsKept(env, if last.Reconciling? then RunsThen(env, t, last.report) else t.runs, front + [last], key)
  {
    if last.Reconciling? {
      assert last == Reconciling(last.report);
      KeptLast(env, t, front, last.report, key);
    } else {
      OwnStep(front, last, key);
      assert Own(front, key) + [] == Own(front, key) && Stamps(front, key) + [] == Stamps(front, key);
    }
  }

  // ----- a store that is pruned -----

  lemma {:induction false} KeptRunsOf(rows: seq<RunRow>, cutoff: int, earlier: (int, int) -> bool, key: Key)
    ensures Of(KeptRuns(rows, cutoff, earlier), key) == KeptRuns(Of(rows, key), cutoff, earlier)
  {
    if rows != [] {
      var front, last := rows[..|rows| - 1], rows[|rows| - 1];
      KeptRunsOf(front, cutoff, earlier, key);
      KeptRunsOfLast(front, last, cutoff, earlier, key);
      assert rows == front + [last];
    }
  }

  lemma KeptRunsOfLast(front: seq<RunRow>, last: RunRow, cutoff: int, earlier: (int, int) -> bool, key: Key)
    requires Of(KeptRuns(front, cutoff, earlier), key) == KeptRuns(Of(front, key), cutoff, earlier)
    ensures Of(KeptRuns(front + [last], cutoff, earlier), key) == KeptRuns(Of(front + [last], key), cutoff, earlier)
  {
    var kept := KeptRuns(front, cutoff, earlier);
    KeptRunsStep(front, last, cutoff, earlier);
    OfStep(front, last, key);
    if earlier(last.time, cutoff) {
      assert kept + [] == kept;
    } else {
      OfStep(kept, last, key);
    }
    if last.key == key {
      KeptRunsStep(Of(front, key), last, cutoff, earlier);
    } else {
      assert Of(front, key) + [] == Of(front, key);
    }
  }

  lemma KeptRunsStep(rows: seq<RunRow>, row: RunRow, cutoff: int, earlier: (int, int) -> bool)
    ensures KeptRuns(rows + [row], cutoff, earlier)
         == KeptRuns(rows, cutoff, earlier) + if earlier(row.time, cutoff) then [] else [row]
  {
    assert (rows + [row])[..|rows|] == rows;
  }

  /** The newest rows stay if none of them is too old. */
  lemma {:induction false} NewestAreKept(rows: seq<RunRow>, cutoff: int, earlier: (int, int) -> bool, n: nat)
    requires forall r :: r in Last(rows, n) ==> !earlier(r.time, cutoff)
    ensures Last(KeptRuns(rows, cutoff, earlier), n) == Last(rows, n)
    decreases n
  {
    if n > 0 && rows != [] {
      var front, last := rows[..|rows| - 1], rows[|rows| - 1];
      assert rows == front + [last];
      LastStep(front, last, n);
      assert last in Last(rows, n) && forall r :: r in Last(front, n - 1) ==> r in Last(rows, n);
      NewestAreKept(front, cutoff, earlier, n - 1);
      LastStep(KeptRuns(front, cutoff, earlier), last, n);
    }
  }

  lemma {:induction false} KeptAscending(rows: seq<RunRow>, cutoff: int, earlier: (int, int) -> bool)
    requires Ascending(Times(rows), earlier)
    ensures Ascending(Times(KeptRuns(rows, cutoff, earlier)), earlier)
    ensures forall r :: r in KeptRuns(rows, cutoff, earlier) ==> r in rows
  {
    if rows != [] {
      var front, last := rows[..|rows| - 1], rows[|rows| - 1];
      assert rows == front + [last];
      AscendingFront(front, last, earlier);
      KeptAscending(front, cutoff, earlier);
      if !earlier(last.time, cutoff) {
        AppendAscending(KeptRuns(front, cutoff, earlier), last, earlier);
      }
    }
  }

  lemma AppendAscending(rows: seq<RunRow>, row: RunRow, earlier: (int, int) -> bool)
    requires Ascending(Times(rows), earlier) && forall r :: r in rows ==> !earlier(row.time, r.time)
    ensures Ascending(Times(rows + [row]), earlier)
  {
    AppendRow(rows, row);
    AscendingAppend(Times(rows), row.time, earlier);
  }

  /** If the report prunes, the three newest runs of the workload are not too old. */
  ghost predicate Spared(ops: seq<Op>, r: Report, key: Key, earlier: (int, int) -> bool) {
    r.retention > 0 ==> forall t :: t in Last(Stamps(ops, key), THREE) ==> !earlier(t, r.at - r.retention)
  }

  /** This holds for every report, whose own run counts. */
  ghost predicate ThreeKept(ops: seq<Op>, key: Key, earlier: (int, int) -> bool) {
    ops == []
    || (var last := ops[|ops| - 1];
        && ThreeKept(ops[..|ops| - 1], key, earlier)
        && (last.Reconciling? ==> Spared(ops, last.report, key, earlier)))
  }

  /** The pruned rows of the workload end like the full ones, in the same order. */
  ghost predicate EndsAlike(pruned: seq<RunRow>, full: seq<RunRow>, key: Key, earlier: (int, int) -> bool) {
    && Ascending(Times(Of(pruned, key)), earlier)
    && (forall r :: r in Of(pruned, key) ==> r in Of(full, key))
    && Last(Of(pruned, key), THREE) == Last(Of(full, key), THREE)
  }

  lemma EndsAlikeDecide(env: Env, pruned: seq<RunRow>, full: seq<RunRow>, a: Attaching, at: int)
    requires EndsAlike(pruned, full, a.key, env.earlier) && Ascending(Times(Of(full, a.key)), env.earlier)
    ensures GatesOf(env, pruned, a) == GatesOf(env, full, a)
    ensures RowFor(env, pruned, a, at) == RowFor(env, full, a, at)
  {
    RowsInOrder(pruned, a.key, env.earlier);
    RowsInOrder(full, a.key, env.earlier);
    LastRuns(Of(pruned, a.key), THREE);
    LastRuns(Of(full, a.key), THREE);
    SameGates(env.parse, Runs(Of(pruned, a.key)), Runs(Of(full, a.key)), a.now);
  }

  lemma EndsAlikeAppend(
      env: Env, p: Tables, f: Tables, r: Report, key: Key)
    requires OneEach(r.attached) && EndsAlike(p.runs, f.runs, key, env.earlier)
    requires Ascending(Times(Of(f.runs, key)), env.earlier)
    requires Ascending(Times(Of(RunsThen(env, f, r), key)), env.earlier)
    ensures EndsAlike(RunsThen(env, p, r), RunsThen(env, f, r), key, env.earlier)
  {
    var a := Find(r.attached, key);
    RowsThen(env, p, r, key);
    RowsThen(env, f, r, key);
    if a.Some? {
      EndsAlikeDecide(env, p.runs, f.runs, a.value, r.at);
      var row := RowFor(env, f.runs, a.value, r.at);
      LastAppend(Of(p.runs, key), Of(f.runs, key), row, THREE);
      AscendingFront(Of(f.runs, key), row, env.earlier);
      AppendAscending(Of(p.runs, key), row, env.earlier);
    } else {
      assert Of(p.runs, key) + [] == Of(p.runs, key) && Of(f.runs, key) + [] == Of(f.runs, key);
    }
  }

  lemma EndsAlikePruned(
      pruned: seq<RunRow>, full: seq<RunRow>, key: Key, cutoff: int, earlier: (int, int) -> bool)
    requires EndsAlike(pruned, full, key, earlier)
    requires forall r :: r in Last(Of(full, key), THREE) ==> !earlier(r.time, cutoff)
    ensures EndsAlike(KeptRuns(pruned, cutoff, earlier), full, key, earlier)
  {
    KeptRunsOf(pruned, cutoff, earlier, key);
    NewestAreKept(Of(pruned, key), cutoff, earlier, THREE);
    KeptAscending(Of(pruned, key), cutoff, earlier);
  }

  lemma LastTimes(rows: seq<RunRow>, n: nat)
    ensures forall r :: r in Last(rows, n) ==> r.time in Last(Times(rows), n)
  {
    var times := Times(rows);
    assert Last(times, n) == Times(Last(rows, n));
    forall r | r in Last(rows, n) ensures r.time in Last(times, n) {
      var i :| 0 <= i < |Last(rows, n)| && Last(rows, n)[i] == r;
      assert Times(Last(rows, n))[i] == r.time;
    }
  }

  lemma {:induction false} PrunedRunsEndAlike(env: Env, ops: seq<Op>, key: Key)
    requires OnceEach(ops) && Ascending(Stamps(ops, key), env.earlier) && ThreeKept(ops, key, env.earlier)
    ensures Beside(env, Run(env, ops, false), Run(env, ops, true), key)
  {
    if ops != [] {
      var front, last := ops[..|ops| - 1], ops[|ops| - 1];
      assert ops == front + [last];
      assert last in ops && forall op :: op in front ==> op in ops;
      FrontStamps(front, last, key, env.earlier);
      PrunedRunsEndAlike(env, front, key);
      KeptRunsAreHistory(env, front, key);
      LastEndsAlike(env, front, last, key);
    }
  }

  ghost predicate Beside(env: Env, p: Tables, f: Tables, key: Key) {
    EndsAlike(p.runs, f.runs, key, env.earlier) && p.lastPruned == f.lastPruned
  }

  lemma LastEndsAlike(env: Env, front: seq<Op>, last: Op, key: Key)
    requires Beside(env, Run(env, front, false), Run(env, front, true), key)
    requires IsKept(env, Run(env, front, true).runs, front, key)
    requires Ascending(Stamps(front, key), env.earlier) && Ascending(Stamps(front + [last], key), env.earlier)
    requires last.Reconciling? ==>
      OneEach(last.report.attached) && Spared(front + [last], last.report, key, env.earlier)
    ensures Beside(env, Run(env, front + [last], false), Run(env, front + [last], true), key)
  {
    var p, f := Run(env, front, false), Run(env, front, true);
    RunStep(env, front, last, false);
    RunStep(env, front, last, true);
    RunsAfter(env, p, last, false);
    RunsAfter(env, f, last, true);
    if last.Reconciling? {
      KeptLast(env, f, front, last.report, key);
      EndsAlikeAppend(env, p, f, last.report, key);
      PrunedEndsAlike(env, p, f, front + [last], last, key);
    }
  }

  lemma SparedRows(rows: seq<RunRow>, ops: seq<Op>, r: Report, key: Key, earlier: (int, int) -> bool)
    requires Times(rows) == Stamps(ops, key) && Spared(ops, r, key, earlier) && r.retention > 0
    ensures forall x :: x in Last(rows, THREE) ==> !earlier(x.time, r.at - r.retention)
  {
    LastTimes(rows, THREE);
  }

  lemma PrunedEndsAlike(env: Env, p: Tables, f: Tables, ops: seq<Op>, op: Op, key: Key)
    requires op.Reconciling? && EndsAlike(RunsThen(env, p, op.report), RunsThen(env, f, op.report), key, env.earlier)
    requires Times(Of(RunsThen(env, f, op.report), key)) == Stamps(ops, key)
    requires Spared(ops, op.report, key, env.earlier)
    ensures Prunes(p, op) ==>
      EndsAlike(KeptRuns(RunsThen(env, p, op.report), op.report.at - op.report.retention, env.earlier),
                RunsThen(env, f, op.report), key, env.earlier)
  {
    PruneEndsAlike(RunsThen(env, p, op.report), RunsThen(env, f, op.report), ops, op.report, key, env.earlier,
                   Prunes(p, op));
  }

  lemma PruneEndsAlike(
      before: seq<RunRow>, full: seq<RunRow>, ops: seq<Op>, r: Report, key: Key, earlier: (int, int) -> bool,
      prune: bool)
    requires EndsAlike(before, full, key, earlier) && (prune ==> r.retention > 0)
    requires Times(Of(full, key)) == Stamps(ops, key) && Spared(ops, r, key, earlier)
    ensures prune ==> EndsAlike(KeptRuns(before, r.at - r.retention, earlier), full, key, earlier)
  {
    if prune {
      SparedRows(Of(full, key), ops, r, key, earlier);
      EndsAlikePruned(before, full, key, r.at - r.retention, earlier);
    }
  }

  // ----- a store that forgets -----

  ghost function WithRow(env: Env, rows: seq<RunRow>, a: Option<Attaching>, at: int): seq<RunRow> {
    if a.None? then rows
    else
      rows + [RunRow(a.value.key, at, Gates.Recorded(env.parse, Runs(rows), a.value.now, a.value.delivery))]
  }

  /** One step of the workload: a reconcile decides by the rows that are left, and pruning takes the old ones. */
  ghost function Remembering(env: Env, rows: seq<RunRow>, op: Op, key: Key, prunes: bool): seq<RunRow> {
    if !op.Reconciling? then rows
    else
      Left(env, WithRow(env, rows, Attachment(op, key), op.report.at), op.report, prunes)
  }

  /** What the report leaves of some rows. */
  function Left(env: Env, rows: seq<RunRow>, r: Report, prunes: bool): seq<RunRow> {
    if prunes then KeptRuns(rows, r.at - r.retention, env.earlier) else rows
  }

  /** What the workload's own reconciles and the prunings make of its rows, from the first step on. */
  ghost function Remembered(env: Env, ops: seq<Op>, key: Key): seq<RunRow> {
    if ops == [] then []
    else
      var front, last := ops[..|ops| - 1], ops[|ops| - 1];
      Remembering(env, Remembered(env, front, key), last, key, Prunes(Run(env, front, false), last))
  }

  lemma RememberedStep(env: Env, front: seq<Op>, op: Op, key: Key)
    ensures Remembered(env, front + [op], key)
         == Remembering(env, Remembered(env, front, key), op, key, Prunes(Run(env, front, false), op))
  {
    assert (front + [op])[..|front|] == front;
  }

  /** The rows were recorded in order, at times of the workload's reconciles. */
  ghost predicate Stamped(rows: seq<RunRow>, stamps: seq<int>, earlier: (int, int) -> bool) {
    Ascending(Times(rows), earlier) && forall r :: r in rows ==> r.time in stamps
  }

  /** The runs after a step of the pruned store. */
  ghost predicate IsNext(env: Env, t: Tables, op: Op, next: seq<RunRow>) {
    next == if op.Reconciling? then Left(env, RunsThen(env, t, op.report), op.report, Prunes(t, op)) else t.runs
  }

  lemma RunsNext(env: Env, front: seq<Op>, op: Op)
    ensures IsNext(env, Run(env, front, false), op, Run(env, front + [op], false).runs)
  {
    RunStep(env, front, op, false);
    RunsAfter(env, Run(env, front, false), op, false);
  }

  lemma StampedAppend(rows: seq<RunRow>, more: seq<RunRow>, stamps: seq<int>, earlier: (int, int) -> bool)
    requires Stamped(rows, stamps, earlier) && |more| <= 1 && Ascending(stamps + Times(more), earlier)
    ensures Stamped(rows + more, stamps + Times(more), earlier)
  {
    if more == [] {
      assert rows + more == rows && stamps + Times(more) == stamps;
    } else {
      var row, all := more[0], stamps + Times(more);
      forall r | r in rows ensures !earlier(row.time, r.time) {
        var i :| 0 <= i < |stamps| && stamps[i] == r.time;
        assert all[i] == r.time && all[|stamps|] == row.time;
      }
      AppendAscending(rows, row, earlier);
      assert more == [row] && all[|stamps|] in all;
    }
  }

  lemma StampedKept(rows: seq<RunRow>, stamps: seq<int>, cutoff: int, earlier: (int, int) -> bool)
    requires Stamped(rows, stamps, earlier)
    ensures Stamped(KeptRuns(rows, cutoff, earlier), stamps, earlier)
  {
    KeptAscending(rows, cutoff, earlier);
  }

  lemma ReportIsStamped(env: Env, t: Tables, front: seq<Op>, r: Report, key: Key)
    requires Stamped(Of(t.runs, key), Stamps(front, key), env.earlier) && OneEach(r.attached)
    requires Ascending(Stamps(front + [Reconciling(r)], key), env.earlier)
    ensures Stamped(Of(RunsThen(env, t, r), key), Stamps(front + [Reconciling(r)], key), env.earlier)
  {
    var a := Find(r.attached, key);
    var more := if a.Some? then [RowFor(env, t.runs, a.value, r.at)] else [];
    OwnStep(front, Reconciling(r), key);
    RowsThen(env, t, r, key);
    assert Times(more) == if a.Some? then [r.at] else [];
    StampedAppend(Of(t.runs, key), more, Stamps(front, key), env.earlier);
  }

  lemma LeftIsStamped(
      env: Env, runs: seq<RunRow>, stamps: seq<int>, r: Report, prunes: bool, key: Key)
    requires Stamped(Of(runs, key), stamps, env.earlier)
    ensures Stamped(Of(Left(env, runs, r, prunes), key), stamps, env.earlier)
  {
    LeftOf(env, runs, Of(runs, key), r, prunes, key);
    StampedKept(Of(runs, key), stamps, r.at - r.retention, env.earlier);
  }

  lemma LastIsStamped(env: Env, t: Tables, next: seq<RunRow>, front: seq<Op>, op: Op, key: Key)
    requires IsNext(env, t, op, next)
    requires Stamped(Of(t.runs, key), Stamps(front, key), env.earlier)
    requires op.Reconciling? ==> OneEach(op.report.attached)
    requires Ascending(Stamps(front + [op], key), env.earlier)
    ensures Stamped(Of(next, key), Stamps(front + [op], key), env.earlier)
  {
    if op.Reconciling? {
      assert op == Reconciling(op.report);
      ReportIsStamped(env, t, front, op.report, key);
      LeftIsStamped(env, RunsThen(env, t, op.report), Stamps(front + [op], key), op.report, Prunes(t, op), key);
    } else {
      OwnStep(front, op, key);
      assert Stamps(front, key) + [] == Stamps(front, key);
    }
  }

  lemma {:induction false} StoreIsStamped(env: Env, ops: seq<Op>, key: Key)
    requires OnceEach(ops) && Ascending(Stamps(ops, key), env.earlier)
    ensures Stamped(Of(Run(env, ops, false).runs, key), Stamps(ops, key), env.earlier)
  {
    if ops != [] {
      var front, last := ops[..|ops| - 1], ops[|ops| - 1];
      assert ops == front + [last];
      assert last in ops && forall op :: op in front ==> op in ops;
      FrontStamps(front, last, key, env.earlier);
      StoreIsStamped(env, front, key);
      RunsNext(env, front, last);
      LastIsStamped(env, Run(env, front, false), Run(env, ops, false).runs, front, last, key);
    }
  }

  lemma LastIsRemembered(env: Env, t: Tables, next: seq<RunRow>, op: Op, key: Key)
    requires IsNext(env, t, op, next) && Ascending(Times(Of(t.runs, key)), env.earlier)
    requires op.Reconciling? ==> OneEach(op.report.attached)
    ensures Of(next, key) == Remembering(env, Of(t.runs, key), op, key, Prunes(t, op))
  {
    if op.Reconciling? {
      RunsThenAgree(env, t, op.report, key);
      LeftOf(env, RunsThen(env, t, op.report), WithRow(env, Of(t.runs, key), Attachment(op, key), op.report.at),
             op.report, Prunes(t, op), key);
    }
  }

  lemma LeftOf(env: Env, runs: seq<RunRow>, rows: seq<RunRow>, r: Report, prunes: bool, key: Key)
    requires Of(runs, key) == rows
    ensures Of(Left(env, runs, r, prunes), key) == Left(env, rows, r, prunes)
  {
    if prunes {
      KeptRunsOf(runs, r.at - r.retention, env.earlier, key);
    }
  }

  lemma RunsThenAgree(env: Env, t: Tables, r: Report, key: Key)
    requires OneEach(r.attached) && Ascending(Times(Of(t.runs, key)), env.earlier)
    ensures Of(RunsThen(env, t, r), key) == WithRow(env, Of(t.runs, key), Find(r.attached, key), r.at)
  {
    RowsThen(env, t, r, key);
    RowsInOrder(t.runs, key, env.earlier);
    assert Of(t.runs, key) + [] == Of(t.runs, key);
  }

  lemma {:induction false} StoreRemembers(env: Env, ops: seq<Op>, key: Key)
    requires OnceEach(ops) && Ascending(Stamps(ops, key), env.earlier)
    ensures Of(Run(env, ops, false).runs, key) == Remembered(env, ops, key)
  {
    if ops != [] {
      var front, last := ops[..|ops| - 1], ops[|ops| - 1];
      assert ops == front + [last];
      assert last in ops && forall op :: op in front ==> op in ops;
      FrontStamps(front, last, key, env.earlier);
      StoreRemembers(env, front, key);
      StoreIsStamped(env, front, key);
      RunsNext(env, front, last);
      RememberedStep(env, front, last, key);
      LastIsRemembered(env, Run(env, front, false), Run(env, ops, false).runs, last, key);
    }
  }

  /** Whatever is pruned, the gates of a workload are those decided by the rows that are left of its own history. */
  lemma GatesOfRemembered(env: Env, ops: seq<Op>, a: Attaching)
    requires OnceEach(ops) && Ascending(Stamps(ops, a.key), env.earlier)
    ensures GatesOf(env, Run(env, ops, false).runs, a)
         == Gates.Decided(env.parse, Runs(Remembered(env, ops, a.key)), a.now)
  {
    StoreRemembers(env, ops, a.key);
    StoreIsStamped(env, ops, a.key);
    RowsInOrder(Run(env, ops, false).runs, a.key, env.earlier);
  }

  /** What is not later than something old is old. */
  ghost predicate Ordering(earlier: (int, int) -> bool) {
    forall a, b, c :: !earlier(b, a) && earlier(b, c) ==> earlier(a, c)
  }

  lemma EarlierIsOrdering()
    ensures Ordering(EARLIER)
  {
    forall a, b, c | !EARLIER(b, a) && EARLIER(b, c) ensures EARLIER(a, c) {
      TextsAreOrdered(NanoText(a), NanoText(b), NanoText(c));
    }
  }

  /** The order in which recorded runs are read. */
  lemma EarlierOrders()
    ensures Orders(EARLIER)
  {
    forall a, b, c | EARLIER(a, c) && !EARLIER(a, b) ensures EARLIER(b, c) {
      TextsAreOrdered(NanoText(b), NanoText(a), NanoText(c));
    }
    forall a, b | EARLIER(a, b) ensures !EARLIER(b, a) {
      NotBothEarlier(NanoText(a), NanoText(b));
    }
  }

  lemma NotBothEarlier(a: Text, b: Text)
    requires TextLess(a, b)
    ensures !TextLess(b, a)
  {
    LessIrreflexive(a.tail);
    if a.second == b.second && Less(b.tail, a.tail) {
      LessTransitive(a.tail, b.tail, a.tail);
    }
  }

  lemma TextsAreOrdered(a: Text, b: Text, c: Text)
    requires !TextLess(b, a) && TextLess(b, c)
    ensures TextLess(a, c)
  {
    LessTotal(a.tail, b.tail);
    if a.second == b.second == c.second && a.tail != b.tail {
      LessTransitive(a.tail, b.tail, c.tail);
    }
  }

  lemma AllAreOld(rows: seq<RunRow>, last: RunRow, cutoff: int, earlier: (int, int) -> bool)
    requires Ordering(earlier) && earlier(last.time, cutoff) && forall r :: r in rows ==> !earlier(last.time, r.time)
    ensures forall i :: 0 <= i < |rows| ==> earlier(rows[i].time, cutoff)
  {
    forall i | 0 <= i < |rows| ensures earlier(rows[i].time, cutoff) {
      assert rows[i] in rows;
    }
  }

  /** What pruning leaves of an ordered history is its end. */
  lemma {:induction false} KeptIsEnd(rows: seq<RunRow>, cutoff: int, earlier: (int, int) -> bool) returns (gone: nat)
    requires Ascending(Times(rows), earlier) && Ordering(earlier)
    ensures gone <= |rows| && KeptRuns(rows, cutoff, earlier) == rows[gone..]
    ensures forall i :: 0 <= i < |rows| ==> (i < gone <==> earlier(rows[i].time, cutoff))
  {
    if rows == [] {
      gone := 0;
    } else {
      var front, last := rows[..|rows| - 1], rows[|rows| - 1];
      assert rows == front + [last];
      AscendingFront(front, last, earlier);
      gone := KeptIsEnd(front, cutoff, earlier);
      KeptRunsStep(front, last, cutoff, earlier);
      if earlier(last.time, cutoff) {
        AllAreOld(front, last, cutoff, earlier);
        gone := |rows|;
      } else {
        assert front[gone..] + [last] == rows[gone..];
      }
    }
  }

  // ----- the gates of the store -----

  /** What the store decides for a workload is what the history of its own reconciles decides. */
  lemma StoredRunsAreHistory(env: Env, ops: seq<Op>, a: Attaching)
    requires OnceEach(ops) && Ascending(Stamps(ops, a.key), env.earlier) && ThreeKept(ops, a.key, env.earlier)
    ensures GatesOf(env, Run(env, ops, false).runs, a)
         == Gates.Decided(env.parse, Gates.History(env.parse, Own(ops, a.key)), a.now)
  {
    var pruned, full := Run(env, ops, false).runs, Run(env, ops, true).runs;
    KeptRunsAreHistory(env, ops, a.key);
    PrunedRunsEndAlike(env, ops, a.key);
    EndsAlikeDecide(env, pruned, full, a, 0);
    RowsInOrder(full, a.key, env.earlier);
  }

  lemma {:induction false} OwnPrefix(ops: seq<Op>, n: nat, key: Key)
    requires n <= |ops|
    ensures Own(ops[..n], key) <= Own(ops, key)
  {
    if n < |ops| {
      var front := ops[..|ops| - 1];
      OwnPrefix(front, n, key);
      assert front[..n] == ops[..n];
    } else {
      assert ops[..n] == ops;
    }
  }

  lemma {:induction false} HistoryPrefix(
      parse: Gates.Parser, steps: seq<(Gates.Reconcile, Gates.Delivery)>, n: nat)
    requires n <= |steps|
    ensures Gates.History(parse, steps[..n]) == Gates.History(parse, steps)[..n]
  {
    if n < |steps| {
      var front := steps[..|steps| - 1];
      HistoryPrefix(parse, front, n);
      assert front[..n] == steps[..n];
      HistoryOfFront(parse, steps);
    } else {
      assert steps[..n] == steps;
    }
  }

  lemma HistoryOfFront(parse: Gates.Parser, steps: seq<(Gates.Reconcile, Gates.Delivery)>)
    requires steps != []
    ensures Gates.History(parse, steps)[..|steps| - 1] == Gates.History(parse, steps[..|steps| - 1])
  {
  }

  /** The report at `n` attaches the workload, and it is the workload's reconcile number `i`. */
  ghost predicate Reconciles(ops: seq<Op>, n: nat, key: Key, i: nat) {
    n < |ops| && Attachment(ops[n], key).Some? && |Own(ops[..n], key)| == i
  }

  lemma OwnAt(ops: seq<Op>, n: nat, key: Key, i: nat)
    requires Reconciles(ops, n, key, i)
    ensures i < |Own(ops, key)| && Own(ops[..n], key) == Own(ops, key)[..i]
    ensures var a := Attachment(ops[n], key).value; Own(ops, key)[i] == (a.now, a.delivery)
  {
    OwnPrefix(ops, n, key);
    OwnPrefix(ops, n + 1, key);
    OwnStep(ops[..n], ops[n], key);
    assert ops[..n + 1] == ops[..n] + [ops[n]];
  }

  /** So the gates at any report of any run are those of the workload's own history at that point. */
  lemma StoredGates(env: Env, ops: seq<Op>, n: nat, key: Key, i: nat)
    requires Reconciles(ops, n, key, i)
    requires OnceEach(ops[..n]) && Ascending(Stamps(ops[..n], key), env.earlier)
    requires ThreeKept(ops[..n], key, env.earlier)
    ensures i < |Own(ops, key)|
    ensures var steps := Own(ops, key);
      GatesOf(env, Run(env, ops[..n], false).runs, Attachment(ops[n], key).value)
      == Gates.Decided(env.parse, Gates.History(env.parse, steps)[..i], steps[i].0)
  {
    OwnAt(ops, n, key, i);
    StoredRunsAreHistory(env, ops[..n], Attachment(ops[n], key).value);
    HistoryPrefix(env.parse, Own(ops, key), i);
  }

  /**
   * The lockout is exact in the store: after a blocking outcome at the workload's reconcile `i`, that reconcile and
   * the next three find all gates blocked, and the one after them is evaluated afresh.
   */
  lemma StoreLockout(env: Env, ops: seq<Op>, n: nat, key: Key, i: nat, k: nat)
    requires Reconciles(ops, n, key, i + k) && k <= Gates.COOLDOWN_RUNS + 1
    requires OnceEach(ops[..n]) && Ascending(Stamps(ops[..n], key), env.earlier)
    requires ThreeKept(ops[..n], key, env.earlier)
    requires i + k < |Own(ops, key)|
    requires Gates.Locks(Own(ops, key), Gates.History(env.parse, Own(ops, key)), i)
    ensures var steps := Own(ops, key);
      var history, gates := Gates.History(env.parse, steps),
                            GatesOf(env, Run(env, ops[..n], false).runs, Attachment(ops[n], key).value);
      gates == if k <= Gates.COOLDOWN_RUNS then Gates.ALL_BLOCKED
               else Gates.Recovered(env.parse,
                      Gates.Evaluated(env.parse, steps[i + k].0, Gates.Newest(history[..i + k], Gates.COOLDOWN_RUNS)),
                      steps[i + k].0)
  {
    StoredGates(env, ops, n, key, i + k);
    HistoryLockout(env.parse, Own(ops, key), i, k);
  }

  lemma HistoryLockout(parse: Gates.Parser, steps: seq<(Gates.Reconcile, Gates.Delivery)>, i: nat, k: nat)
    requires i + k < |steps| && k <= Gates.COOLDOWN_RUNS + 1 && Gates.Locks(steps, Gates.History(parse, steps), i)
    ensures var history := Gates.History(parse, steps);
      Gates.Decided(parse, history[..i + k], steps[i + k].0)
      == if k <= Gates.COOLDOWN_RUNS then Gates.ALL_BLOCKED
         else Gates.Recovered(parse,
                Gates.Evaluated(parse, steps[i + k].0, Gates.Newest(history[..i + k], Gates.COOLDOWN_RUNS)),
                steps[i + k].0)
  {
    Gates.HistoryIsHistory(parse, steps);
    Gates.LockoutDecides(parse, steps, Gates.History(parse, steps), i, k);
  }
}
