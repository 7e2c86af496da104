/**
 * Whole runs of the store: any sequence of recoveries and of reports, each with the steps of one reconcile in their
 * order (internal/controller/processor.go). What the theorems about gates, batches and limits say of sequences of
 * events is carried over to the tables and answers of the store, with pruning in between.
 */
module StoreRuns {
  import opened Options
  import opened Timestamps
  import opened Limiters
  import opened StateStore
  import Batch = BatchQueue
  import Gates = OutcomeGates
  import Retention

  /** One workload's gates are attached, and its run is recorded later with what was delivered. */
  datatype Attaching = Attaching(key: Key, now: Gates.Reconcile, delivery: Gates.Delivery)

  /** A report at the time `at`: its recommendations, its plans before any gate, and the outcome of the Git step. */
  datatype Report = Report(
    at: int, attached: seq<Attaching>, workloads: seq<Workload>, kind: string, window: int,
    proposal: StateStore.Proposal, retention: int)

  /** Recoveries may be completed at any later time, or never. */
  datatype Op = Reserving(request: Request) | Completing(id: int, status: string) | Reconciling(report: Report)

  datatype Answer =
    | Recovery(decision: Decision, id: int)
    | Nothing
    | Reported(gates: seq<Gates.Gates>, workloads: seq<Workload>)

  /** The parsers, and how the tables are read and pruned. */
  datatype Env = Env(
    parse: Gates.Parser, parsers: Batch.Parsers, recoveries: Query, events: Query, earlier: (int, int) -> bool,
    recoveryGone: (int, int) -> bool, eventGone: (int, int) -> bool)

  function Standard(parse: Gates.Parser, parsers: Batch.Parsers): Env {
    Env(parse, parsers, RECOVERIES, EVENTS, EARLIER, Retention.RECOVERY_GONE, Retention.EVENT_GONE)
  }

  // ----- one reconcile -----

  ghost function GatesOf(env: Env, runs: seq<RunRow>, a: Attaching): Gates.Gates {
    Gates.Decided(env.parse, HistoryOf(runs, a.key, env.earlier), a.now)
  }

  ghost function GatesFor(env: Env, runs: seq<RunRow>, attached: seq<Attaching>): (gates: seq<Gates.Gates>)
    ensures |gates| == |attached|
    ensures forall i :: 0 <= i < |gates| ==> gates[i] == GatesOf(env, runs, attached[i])
  {
    seq(|attached|, i requires 0 <= i < |attached| => GatesOf(env, runs, attached[i]))
  }

  /** The row of one workload; all rows of a report follow from the runs before it. */
  ghost function RowFor(env: Env, runs: seq<RunRow>, a: Attaching, at: int): RunRow {
    RunRow(a.key, at, Gates.Recorded(env.parse, HistoryOf(runs, a.key, env.earlier), a.now, a.delivery))
  }

  ghost function RowsFor(env: Env, runs: seq<RunRow>, attached: seq<Attaching>, at: int): (rows: seq<RunRow>)
    ensures |rows| == |attached|
  {
    if attached == [] then []
    else RowsFor(env, runs, attached[..|attached| - 1], at) + [RowFor(env, runs, attached[|attached| - 1], at)]
  }

  function BudgetedAll(env: Env, events: seq<Row>, ws: seq<Workload>, at: int): (budgeted: seq<Workload>)
    ensures |budgeted| == |ws|
    ensures forall i :: 0 <= i < |ws| ==> budgeted[i] == Budgeted(env.parsers, env.events, events, ws[i], at)
  {
    seq(|ws|, i requires 0 <= i < |ws| => Budgeted(env.parsers, env.events, events, ws[i], at))
  }

  function BatchedAll(env: Env, items: map<Key, Batch.Item>, ws: seq<Workload>, at: int, window: int)
    : (batched: seq<Workload>)
    ensures |batched| == |ws|
    ensures forall i :: 0 <= i < |ws| ==>
      batched[i] == Batched(env.parsers, ItemsAfter(env.parsers, items, ws[..i], at), ws[i], at, window)
  {
    seq(|ws|, i requires 0 <= i < |ws| =>
        Batched(env.parsers, ItemsAfter(env.parsers, items, ws[..i], at), ws[i], at, window))
  }

  predicate Batches(r: Report) {
    r.kind == "commit" && r.window > 0
  }

  /** The plans after the budgets and the batch window. */
  function Gated(env: Env, t: Tables, r: Report): (gated: seq<Workload>)
    ensures |gated| == |r.workloads|
  {
    var budgeted := BudgetedAll(env, t.events, r.workloads, r.at);
    if Batches(r) then BatchedAll(env, t.items, budgeted, r.at, r.window) else budgeted
  }

  function ItemsThen(env: Env, t: Tables, r: Report): map<Key, Batch.Item> {
    if Batches(r) then ItemsAfter(env.parsers, t.items, BudgetedAll(env, t.events, r.workloads, r.at), r.at)
    else t.items
  }

  /** `keep` tells of a store that keeps its rows when it prunes; batch items go nevertheless. */
  function Pruned(env: Env, t: Tables, retention: int, at: int, keep: bool): Tables {
    if !PruneNow(t.lastPruned, retention, at) then t
    else
      var left := t.(items := KeptItems(t.items, at - retention, env.earlier), lastPruned := Some(at));
      if keep then left
      else
        left.(runs := KeptRuns(t.runs, at - retention, env.earlier),
              events := Retention.Delete(t.events, env.eventGone, at - retention),
              recoveries := Retention.Delete(t.recoveries, env.recoveryGone, at - retention))
  }

  /** The rows of the proposal that a report ends in. */
  function ProposalRows(env: Env, t: Tables, r: Report): seq<Row> {
    if r.proposal.needed
    then EventRows(env.parsers, Gated(env, t, r), t.nextEvent, StatusOf(r.proposal), r.at) else []
  }

  function Settles(r: Report): bool {
    r.proposal.needed && Succeeded(StatusOf(r.proposal))
  }

  function Proposed(t: Tables, rows: seq<Row>, ws: seq<Workload>, r: Report): Tables {
    t.(events := t.events + rows, nextEvent := t.nextEvent + |rows|,
       items := if Settles(r) then Unsettled(t.items, ws) else t.items)
  }

  ghost function RunsThen(env: Env, t: Tables, r: Report): seq<RunRow> {
    t.runs + RowsFor(env, t.runs, r.attached, r.at)
  }

  ghost function Reconciled(env: Env, t: Tables, r: Report, keep: bool): Tables {
    var recorded := t.(runs := RunsThen(env, t, r), items := ItemsThen(env, t, r));
    Proposed(Pruned(env, recorded, r.retention, r.at, keep), ProposalRows(env, t, r), Gated(env, t, r), r)
  }

  function OutcomeFor(env: Env, runs: seq<RunRow>, a: Attaching): Gates.Outcome {
    Gates.Detected(env.parse, HistoryOf(runs, a.key, env.earlier), a.now)
  }

  function OutcomesFor(env: Env, runs: seq<RunRow>, attached: seq<Attaching>): (outcomes: seq<Gates.Outcome>)
    ensures |outcomes| == |attached|
    ensures forall i :: 0 <= i < |outcomes| ==> outcomes[i] == OutcomeFor(env, runs, attached[i])
  {
    seq(|attached|, i requires 0 <= i < |attached| => OutcomeFor(env, runs, attached[i]))
  }

  method AttachOne(store: Store, ghost env: Env, parse: Gates.Parser, a: Attaching)
    returns (gates: Gates.Gates, outcome: Gates.Outcome)
    requires env.parse == parse && env.earlier == EARLIER
    ensures gates == GatesOf(env, store.runs, a) && outcome == OutcomeFor(env, store.runs, a)
  {
    var stability;
    stability, outcome := store.Attach(parse, a.key, a.now);
    gates := stability.gates;
  }

  method AttachAll(store: Store, ghost env: Env, parse: Gates.Parser, attached: seq<Attaching>)
    returns (gates: seq<Gates.Gates>, outcomes: seq<Gates.Outcome>)
    requires env.parse == parse && env.earlier == EARLIER
    ensures gates == GatesFor(env, store.runs, attached) && outcomes == OutcomesFor(env, store.runs, attached)
  {
    gates, outcomes := [], [];
    for i := 0 to |attached|
      invariant gates == GatesFor(env, store.runs, attached[..i])
      invariant outcomes == OutcomesFor(env, store.runs, attached[..i])
    {
      var gate, outcome := AttachOne(store, env, parse, attached[i]);
      AttachedStep(env, store.runs, attached, i);
      gates, outcomes := gates + [gate], outcomes + [outcome];
    }
    assert attached[..|attached|] == attached;
  }

  lemma AttachedStep(env: Env, runs: seq<RunRow>, attached: seq<Attaching>, i: nat)
    requires i < |attached|
    ensures GatesFor(env, runs, attached[..i + 1])
         == GatesFor(env, runs, attached[..i]) + [GatesOf(env, runs, attached[i])]
    ensures OutcomesFor(env, runs, attached[..i + 1])
         == OutcomesFor(env, runs, attached[..i]) + [OutcomeFor(env, runs, attached[i])]
  {
    assert attached[..i + 1] == attached[..i] + [attached[i]];
  }

  lemma RowsForStep(env: Env, runs: seq<RunRow>, attached: seq<Attaching>, i: nat, at: int)
    requires i < |attached|
    ensures RowsFor(env, runs, attached[..i + 1], at)
         == RowsFor(env, runs, attached[..i], at) + [RowFor(env, runs, attached[i], at)]
  {
    assert attached[..i + 1][..i] == attached[..i];
  }

  method RecordAll(
      store: Store, ghost env: Env, ghost runs: seq<RunRow>, attached: seq<Attaching>, at: int,
      gates: seq<Gates.Gates>, outcomes: seq<Gates.Outcome>)
    requires gates == GatesFor(env, runs, attached) && outcomes == OutcomesFor(env, runs, attached)
    modifies store`runs
    ensures store.runs == old(store.runs) + RowsFor(env, runs, attached, at)
  {
    for i := 0 to |attached|
      invariant store.runs == old(store.runs) + RowsFor(env, runs, attached[..i], at)
    {
      RowsForStep(env, runs, attached, i, at);
      RowIsRecorded(env, runs, attached[i], at);
      store.Record(attached[i].key, at, attached[i].now, gates[i], outcomes[i], attached[i].delivery);
    }
    assert attached[..|attached|] == attached;
  }

  lemma RowIsRecorded(env: Env, runs: seq<RunRow>, a: Attaching, at: int)
    ensures RowFor(env, runs, a, at)
         == RunRow(a.key, at, Gates.RowOf(GatesOf(env, runs, a), OutcomeFor(env, runs, a), a.now, a.delivery))
  {
  }

  /** The steps of one reconcile, from attaching the gates to recording the proposal. */
  method Reconcile(store: Store, parse: Gates.Parser, parsers: Batch.Parsers, r: Report) returns (answer: Answer)
    modifies store
    ensures store.View() == Reconciled(Standard(parse, parsers), old(store.View()), r, false)
    ensures answer == Answered(Standard(parse, parsers), old(store.View()), Reconciling(r))
  {
    ghost var env, before := Standard(parse, parsers), store.View();
    var gates, outcomes := AttachAll(store, env, parse, r.attached);
    var workloads := GatePlans(store, parsers, env, r);
    RecordReport(store, parsers, env, before, r, workloads, gates, outcomes);
    answer := Reported(gates, workloads[..]);
  }

  /** What the reconcile leaves behind once the gates have been applied. */
  method RecordReport(
      store: Store, parsers: Batch.Parsers, ghost env: Env, ghost before: Tables, r: Report,
      workloads: array<Workload>, gates: seq<Gates.Gates>, outcomes: seq<Gates.Outcome>)
    requires env == Standard(env.parse, parsers)
    requires store.View() == before.(items := ItemsThen(env, before, r)) && workloads[..] == Gated(env, before, r)
    requires gates == GatesFor(env, before.runs, r.attached) && outcomes == OutcomesFor(env, before.runs, r.attached)
    modifies store
    ensures store.View() == Reconciled(env, before, r, false)
  {
    RecordAll(store, env, before.runs, r.attached, r.at, gates, outcomes);
    ghost var recorded := store.View();
    assert recorded == before.(runs := RunsThen(env, before, r), items := ItemsThen(env, before, r));
    Prune(store, env, r.retention, r.at);
    RecordProposal(store, parsers, r, workloads);
  }

  method RecordProposal(store: Store, parsers: Batch.Parsers, r: Report, workloads: array<Workload>)
    modifies store
    ensures var t, ws := old(store.View()), workloads[..];
      var rows := if r.proposal.needed then EventRows(parsers, ws, t.nextEvent, StatusOf(r.proposal), r.at) else [];
      store.View() == Proposed(t, rows, ws, r)
  {
    store.RecordProposalEvents(parsers, workloads, r.proposal, r.at);
  }

  method Prune(store: Store, ghost env: Env, retention: int, at: int)
    requires env == Standard(env.parse, env.parsers)
    modifies store
    ensures store.View() == Pruned(env, old(store.View()), retention, at, false)
  {
    store.PruneExpired(retention, at);
  }

  method GatePlans(store: Store, parsers: Batch.Parsers, ghost env: Env, r: Report) returns (workloads: array<Workload>)
    requires env == Standard(env.parse, parsers)
    modifies store`items
    ensures fresh(workloads) && workloads[..] == Gated(env, old(store.View()), r)
    ensures store.items == ItemsThen(env, old(store.View()), r)
  {
    workloads := new Workload[|r.workloads|](i requires 0 <= i < |r.workloads| => r.workloads[i]);
    assert workloads[..] == r.workloads;
    store.ApplyProposalBudgets(parsers, workloads, r.at);
    assert workloads[..] == BudgetedAll(env, store.events, r.workloads, r.at);
    if r.kind == "commit" && r.window > 0 {
      store.ApplyProposalBatch(parsers, workloads, r.at, r.window);
    }
  }

  // ----- whole runs -----

  const EMPTY := Tables([], [], [], map[], None, 1, 1)

  function Decides(env: Env, t: Tables, request: Request): Decision {
    DecideRecovery(env.recoveries, t.recoveries, request.key, request.now, request.cooldown, request.maxPerHour)
  }

  ghost function After(env: Env, t: Tables, op: Op, keep: bool): Tables {
    match op
    case Reserving(request) =>
      t.(recoveries := AfterReserve(env.recoveries, t.recoveries, t.nextRecovery, request),
         nextRecovery := t.nextRecovery + if Decides(env, t, request).Granted? then 1 else 0)
    case Completing(id, status) => t.(recoveries := Completed(t.recoveries, id, status))
    case Reconciling(r) => Reconciled(env, t, r, keep)
  }

  ghost function Answered(env: Env, t: Tables, op: Op): Answer {
    match op
    case Reserving(request) =>
      var decision := Decides(env, t, request);
      Recovery(decision, if decision.Granted? then t.nextRecovery else 0)
    case Completing(_, _) => Nothing
    case Reconciling(r) => Reported(GatesFor(env, t.runs, r.attached), Gated(env, t, r))
  }

  ghost function Run(env: Env, ops: seq<Op>, keep: bool): Tables {
    if ops == [] then EMPTY else After(env, Run(env, ops[..|ops| - 1], keep), ops[|ops| - 1], keep)
  }

  ghost function Answers(env: Env, ops: seq<Op>, keep: bool): (answers: seq<Answer>)
    ensures |answers| == |ops|
  {
    if ops == [] then []
    else Answers(env, ops[..|ops| - 1], keep) + [Answered(env, Run(env, ops[..|ops| - 1], keep), ops[|ops| - 1])]
  }

  lemma RunStep(env: Env, front: seq<Op>, op: Op, keep: bool)
    ensures Run(env, front + [op], keep) == After(env, Run(env, front, keep), op, keep)
    ensures Answers(env, front + [op], keep)
         == Answers(env, front, keep) + [Answered(env, Run(env, front, keep), op)]
  {
    assert (front + [op])[..|front|] == front;
  }

  /** The answers of a run are those of its prefixes. */
  lemma {:induction false} AnswerAt(env: Env, ops: seq<Op>, keep: bool, n: nat)
    requires n < |ops|
    ensures Answers(env, ops, keep)[n] == Answered(env, Run(env, ops[..n], keep), ops[n])
  {
    var front := ops[..|ops| - 1];
    if n < |front| {
      AnswerAt(env, front, keep, n);
      assert front[..n] == ops[..n];
    } else {
      assert front == ops[..n];
    }
  }

  method Apply(store: Store, parse: Gates.Parser, parsers: Batch.Parsers, op: Op) returns (answer: Answer)
    modifies store
    ensures store.View() == After(Standard(parse, parsers), old(store.View()), op, false)
    ensures answer == Answered(Standard(parse, parsers), old(store.View()), op)
  {
    match op
    case Reserving(request) =>
      var decision, id := store.Reserve(request);
      answer := Recovery(decision, id);
    case Completing(id, status) =>
      store.Complete(id, status);
      answer := Nothing;
    case Reconciling(r) =>
      answer := Reconcile(store, parse, parsers, r);
  }

  /** Drives a new store through any sequence of steps. */
  method Drive(store: Store, parse: Gates.Parser, parsers: Batch.Parsers, ops: seq<Op>) returns (answers: seq<Answer>)
    requires store.View() == EMPTY
    modifies store
    ensures store.View() == Run(Standard(parse, parsers), ops, false)
    ensures answers == Answers(Standard(parse, parsers), ops, false)
  {
    answers := [];
    for i := 0 to |ops|
      invariant store.View() == Run(Standard(parse, parsers), ops[..i], false)
      invariant answers == Answers(Standard(parse, parsers), ops[..i], false)
    {
      assert ops[..i + 1][..i] == ops[..i];
      var answer := Apply(store, parse, parsers, ops[i]);
      answers := answers + [answer];
    }
    assert ops[..|ops|] == ops;
  }

  lemma ReportsReadNoRecoveries(env: Env, t: Tables, r: Report, recoveries: seq<Row>, nextRecovery: int)
    ensures var other := t.(recoveries := recoveries, nextRecovery := nextRecovery);
      && Gated(env, other, r) == Gated(env, t, r) && ProposalRows(env, other, r) == ProposalRows(env, t, r)
      && RunsThen(env, other, r) == RunsThen(env, t, r) && ItemsThen(env, other, r) == ItemsThen(env, t, r)
  {
  }

  /**
   * A report neither reads the recoveries nor adds to them. So those that a reconcile reserves between its gates and
   * its budgets might as well come before the report, as they do here.
   */
  lemma ReportsLeaveRecoveries(env: Env, t: Tables, r: Report, keep: bool, recoveries: seq<Row>, nextRecovery: int)
    ensures var other := t.(recoveries := recoveries, nextRecovery := nextRecovery);
      && Answered(env, other, Reconciling(r)) == Answered(env, t, Reconciling(r))
      && Reconciled(env, other, r, keep)
         == Reconciled(env, t, r, keep).(
              recoveries := if !keep && PruneNow(t.lastPruned, r.retention, r.at)
                            then Retention.Delete(recoveries, env.recoveryGone, r.at - r.retention) else recoveries,
              nextRecovery := nextRecovery)
  {
    var other := t.(recoveries := recoveries, nextRecovery := nextRecovery);
    ReportsReadNoRecoveries(env, t, r, recoveries, nextRecovery);
    var p := t.(runs := RunsThen(env, t, r), items := ItemsThen(env, t, r));
    PruningIsApart(env, p, r.retention, r.at, keep, recoveries, nextRecovery);
    assert other.(runs := RunsThen(env, t, r), items := ItemsThen(env, t, r))
        == p.(recoveries := recoveries, nextRecovery := nextRecovery);
  }

  lemma PruningIsApart(
      env: Env, t: Tables, retention: int, at: int, keep: bool, recoveries: seq<Row>, nextRecovery: int)
    ensures Pruned(env, t.(recoveries := recoveries, nextRecovery := nextRecovery), retention, at, keep)
         == Pruned(env, t, retention, at, keep).(
              recoveries := if !keep && PruneNow(t.lastPruned, retention, at)
                            then Retention.Delete(recoveries, env.recoveryGone, at - retention) else recoveries,
              nextRecovery := nextRecovery)
  {
  }

  // ----- batch items -----

  /** What the batch step of a report does to the row of a workload, which appears there at most once. */
  function EventFor(env: Env, ws: seq<Workload>, key: Key, at: int): Batch.Event {
    if ws == [] then Batch.Skipped
    else if ws[|ws| - 1].key == key then EventOf(env.parsers, ws[|ws| - 1], at)
    else EventFor(env, ws[..|ws| - 1], key, at)
  }

  predicate Expires(env: Env, t: Tables, r: Report, key: Key) {
    && PruneNow(t.lastPruned, r.retention, r.at)
    && key in ItemsThen(env, t, r) && env.earlier(ItemsThen(env, t, r)[key].lastSeen, r.at - r.retention)
  }

  ghost predicate SettlesKey(env: Env, t: Tables, r: Report, key: Key) {
    Settles(r) && exists w :: w in Gated(env, t, r) && HasApplyablePlan(w) && w.key == key
  }

  /** Everything that happens to the row of a workload in one reconcile. */
  ghost function EventsIn(env: Env, t: Tables, r: Report, key: Key): seq<Batch.Event> {
    (if Batches(r) then [EventFor(env, BudgetedAll(env, t.events, r.workloads, r.at), key, r.at)] else [])
    + (if Expires(env, t, r, key) then [Batch.Deleted] else [])
    + (if SettlesKey(env, t, r, key) then [Batch.Deleted] else [])
  }

  ghost function KeyEvents(env: Env, ops: seq<Op>, key: Key): seq<Batch.Event> {
    if ops == [] then []
    else
      var front, last := ops[..|ops| - 1], ops[|ops| - 1];
      KeyEvents(env, front, key)
      + if last.Reconciling? then EventsIn(env, Run(env, front, false), last.report, key) else []
  }

  /** No report has two workloads with one key. */
  ghost predicate DistinctReports(ops: seq<Op>) {
    forall op :: op in ops && op.Reconciling? ==> Distinct(op.report.workloads)
  }

  lemma BudgetedIsDistinct(env: Env, events: seq<Row>, ws: seq<Workload>, at: int)
    requires Distinct(ws)
    ensures Distinct(BudgetedAll(env, events, ws, at))
  {
  }

  lemma {:induction false} BatchStepOf(
      env: Env, items: map<Key, Batch.Item>, ws: seq<Workload>, at: int, key: Key)
    requires Distinct(ws)
    ensures ItemAt(ItemsAfter(env.parsers, items, ws, at), key)
         == Batch.After(ItemAt(items, key), EventFor(env, ws, key, at))
  {
    if ws != [] {
      var front, w := ws[..|ws| - 1], ws[|ws| - 1];
      BatchStepOf(env, items, front, at, key);
      if w.key == key {
        assert forall v :: v in front ==> v.key != key;
        ForeignItems(env.parsers, items, front, at, key);
      }
    }
  }

  lemma ItemOfAppend(events: seq<Batch.Event>, e: Batch.Event)
    ensures Batch.ItemOf(events + [e]) == Batch.After(Batch.ItemOf(events), e)
  {
    assert (events + [e])[..|events|] == events;
  }

  /** Adding the events of a report follows the row through its batch step, its expiry and its settlement. */
  lemma ItemOfEvents(events: seq<Batch.Event>, batches: bool, e: Batch.Event, expires: bool, settles: bool)
    ensures var batched := if batches then Batch.After(Batch.ItemOf(events), e) else Batch.ItemOf(events);
      Batch.ItemOf(events + ((if batches then [e] else []) + (if expires then [Batch.Deleted] else [])
                             + (if settles then [Batch.Deleted] else [])))
      == if expires || settles then None else batched
  {
    var some := events + if batches then [e] else [];
    var more := some + if expires then [Batch.Deleted] else [];
    var all := more + if settles then [Batch.Deleted] else [];
    assert all == events + ((if batches then [e] else []) + (if expires then [Batch.Deleted] else [])
                            + (if settles then [Batch.Deleted] else []));
    ItemOfAppend(events, e);
    ItemOfAppend(some, Batch.Deleted);
    ItemOfAppend(more, Batch.Deleted);
    assert events + [] == events && some + [] == some && more + [] == more;
  }

  lemma ReconciledItem(env: Env, t: Tables, r: Report, key: Key, keep: bool)
    ensures ItemAt(Reconciled(env, t, r, keep).items, key)
         == if Expires(env, t, r, key) || SettlesKey(env, t, r, key) then None else ItemAt(ItemsThen(env, t, r), key)
  {
    var recorded := t.(runs := RunsThen(env, t, r), items := ItemsThen(env, t, r));
    var pruned := Pruned(env, recorded, r.retention, r.at, keep);
    assert ItemAt(pruned.items, key) == if Expires(env, t, r, key) then None else ItemAt(ItemsThen(env, t, r), key);
    SettledItem(pruned.items, Gated(env, t, r), key);
  }

  lemma SettledItem(items: map<Key, Batch.Item>, ws: seq<Workload>, key: Key)
    ensures ItemAt(Unsettled(items, ws), key)
         == if exists w :: w in ws && HasApplyablePlan(w) && w.key == key then None else ItemAt(items, key)
  {
  }

  lemma ThenItem(env: Env, t: Tables, r: Report, key: Key)
    requires Distinct(r.workloads)
    ensures var budgeted := BudgetedAll(env, t.events, r.workloads, r.at);
      ItemAt(ItemsThen(env, t, r), key)
      == if Batches(r) then Batch.After(ItemAt(t.items, key), EventFor(env, budgeted, key, r.at))
         else ItemAt(t.items, key)
  {
    BudgetedIsDistinct(env, t.events, r.workloads, r.at);
    BatchStepOf(env, t.items, BudgetedAll(env, t.events, r.workloads, r.at), r.at, key);
  }

  /** The stored row of a workload is the batch that its events tell of, pruning and settled proposals included. */
  lemma {:induction false} StoredItems(env: Env, ops: seq<Op>, key: Key)
    requires DistinctReports(ops)
    ensures ItemAt(Run(env, ops, false).items, key) == Batch.ItemOf(KeyEvents(env, ops, key))
  {
    if ops != [] {
      var front, last := ops[..|ops| - 1], ops[|ops| - 1];
      assert last in ops && forall op :: op in front ==> op in ops;
      StoredItems(env, front, key);
      StoredItemsLast(env, front, last, key);
      assert ops == front + [last];
    }
  }

  lemma StoredItemsLast(env: Env, front: seq<Op>, last: Op, key: Key)
    requires ItemAt(Run(env, front, false).items, key) == Batch.ItemOf(KeyEvents(env, front, key))
    requires last.Reconciling? ==> Distinct(last.report.workloads)
    ensures ItemAt(Run(env, front + [last], false).items, key) == Batch.ItemOf(KeyEvents(env, front + [last], key))
  {
    var t, events := Run(env, front, false), KeyEvents(env, front, key);
    RunStep(env, front, last, false);
    KeyEventsStep(env, front, last, key);
    if last.Reconciling? {
      StoredItemsStep(env, t, last.report, key, events);
    }
  }

  lemma KeyEventsStep(env: Env, front: seq<Op>, op: Op, key: Key)
    ensures KeyEvents(env, front + [op], key)
         == if op.Reconciling? then KeyEvents(env, front, key) + EventsIn(env, Run(env, front, false), op.report, key)
            else KeyEvents(env, front, key)
  {
    assert (front + [op])[..|front|] == front;
    assert KeyEvents(env, front, key) + [] == KeyEvents(env, front, key);
  }

  lemma StoredItemsStep(env: Env, t: Tables, r: Report, key: Key, events: seq<Batch.Event>)
    requires Distinct(r.workloads) && ItemAt(t.items, key) == Batch.ItemOf(events)
    ensures ItemAt(Reconciled(env, t, r, false).items, key) == Batch.ItemOf(events + EventsIn(env, t, r, key))
  {
    ThenItem(env, t, r, key);
    ReconciledItem(env, t, r, key, false);
    ItemOfEvents(events, Batches(r), EventFor(env, BudgetedAll(env, t.events, r.workloads, r.at), key, r.at),
                 Expires(env, t, r, key), SettlesKey(env, t, r, key));
  }

  /** A plan as it reaches the batch window of a report. */
  function Reaching(env: Env, t: Tables, r: Report, i: nat): Workload
    requires i < |r.workloads|
  {
    BudgetedAll(env, t.events, r.workloads, r.at)[i]
  }

  lemma GatedAlone(env: Env, t: Tables, r: Report, i: nat)
    requires Distinct(r.workloads) && Batches(r) && i < |r.workloads|
    ensures Gated(env, t, r)[i] == Batched(env.parsers, t.items, Reaching(env, t, r, i), r.at, r.window)
  {
    var budgeted := BudgetedAll(env, t.events, r.workloads, r.at);
    BudgetedIsDistinct(env, t.events, r.workloads, r.at);
    RowsAreIndependent(env.parsers, t.items, budgeted, r.at, r.window, i);
  }

  /**
   * The store lets a plan through the batch window exactly if the plan has been offered, unchanged and undeleted,
   * since an offer that lies the window back.
   */
  lemma StoreWaitsExactly(env: Env, ops: seq<Op>, r: Report, i: nat)
    requires DistinctReports(ops) && Distinct(r.workloads) && Batches(r) && i < |r.workloads|
    requires EventOf(env.parsers, Reaching(env, Run(env, ops, false), r, i), r.at).Offered?
    ensures var t := Run(env, ops, false);
      var w := Reaching(env, t, r, i);
      var events := KeyEvents(env, ops, w.key) + [Batch.Offered(w.plan.value.text, r.at)];
      Gated(env, t, r)[i] == w
      <==> exists k :: Batch.BatchStart(events, k, w.plan.value.text) && events[k].at + r.window <= r.at
  {
    var t := Run(env, ops, false);
    var w := Reaching(env, t, r, i);
    GatedAlone(env, t, r, i);
    StoredItems(env, ops, w.key);
    Batch.PassesExactlyAfterWindow(KeyEvents(env, ops, w.key), w.plan.value.text, r.at, r.window);
  }

  /**
   * What becomes of one plan of a report: it is held if and only if it is over budget, or has to wait in the batch
   * window of a commit and has not been offered for so long.
   */
  lemma GatedExactly(parse: Gates.Parser, parsers: Batch.Parsers, t: Tables, r: Report, i: nat)
    requires Distinct(r.workloads) && i < |r.workloads|
    ensures var w, gated := r.workloads[i], Gated(Standard(parse, parsers), t, r)[i];
      var waits := && Ready(w) && r.kind == "commit" && r.window > 0
                   && !Batch.RecoversAvailability(parsers, w.urgency, w.plan.value)
                   && !Batch.FollowsTraffic(parsers, w.urgency, w.plan.value);
      HeldIff(w, gated, OverBudget(parsers, t.events, w, r.at)
                        || (waits && r.at < OfferedFrom(t.items, w, r.at) + r.window))
  {
    var env, w := Standard(parse, parsers), r.workloads[i];
    BudgetedExactly(parsers, t.events, w, r.at);
    if Batches(r) {
      GatedAlone(env, t, r, i);
      BatchStepMeans(parsers, t.items, Reaching(env, t, r, i), r.at, r.window);
    }
  }

  // ----- identifiers -----

  /** The rows have ascending identifiers, all of them before the next one. */
  ghost predicate Numbered(rows: seq<Row>, next: int) {
    && (forall i :: 0 <= i < |rows| ==> rows[i].id < next)
    && forall i, j :: 0 <= i < j < |rows| ==> rows[i].id < rows[j].id
  }

  lemma {:induction false} NumberedDelete(rows: seq<Row>, gone: (int, int) -> bool, cutoff: int, next: int)
    requires Numbered(rows, next)
    ensures Numbered(Retention.Delete(rows, gone, cutoff), next)
    ensures forall r :: r in Retention.Delete(rows, gone, cutoff) ==> r in rows
  {
    if rows != [] {
      var front, last := rows[..|rows| - 1], rows[|rows| - 1];
      NumberedDelete(front, gone, cutoff, next);
      var kept := Retention.Delete(front, gone, cutoff);
      forall i | 0 <= i < |kept| ensures kept[i].id < last.id {
        assert kept[i] in front;
      }
      assert forall r :: r in front ==> r in rows;
    }
  }

  lemma {:induction false} NumberedEvents(
      parsers: Batch.Parsers, events: seq<Row>, ws: seq<Workload>, id: int, status: string, now: int)
    requires Numbered(events, id)
    ensures var rows := EventRows(parsers, ws, id, status, now); Numbered(events + rows, id + |rows|)
  {
    if ws == [] {
      assert events + EventRows(parsers, ws, id, status, now) == events;
    } else {
      var front, w := ws[..|ws| - 1], ws[|ws| - 1];
      var before := EventRows(parsers, front, id, status, now);
      NumberedEvents(parsers, events, front, id, status, now);
      if HasApplyablePlan(w) {
        var row := Row(id + |before|, w.key, now, status, !BudgetApplies(parsers, w));
        assert events + EventRows(parsers, ws, id, status, now) == events + before + [row];
        NumberedAppend(events + before, row, id + |before|);
      }
    }
  }

  lemma NumberedAppend(rows: seq<Row>, row: Row, next: int)
    requires Numbered(rows, next) && row.id == next
    ensures Numbered(rows + [row], next + 1)
  {
  }

  ghost predicate AllNumbered(t: Tables) {
    Numbered(t.recoveries, t.nextRecovery) && Numbered(t.events, t.nextEvent)
  }

  lemma StepIsNumbered(env: Env, t: Tables, op: Op, keep: bool)
    requires AllNumbered(t)
    ensures AllNumbered(After(env, t, op, keep))
  {
    match op
    case Reserving(request) =>
      NumberedAppend(t.recoveries, Row(t.nextRecovery, request.key, request.now, "reserved", false), t.nextRecovery);
    case Completing(_, _) =>
    case Reconciling(r) => ReportIsNumbered(env, t, r, keep);
  }

  lemma ReportIsNumbered(env: Env, t: Tables, r: Report, keep: bool)
    requires AllNumbered(t)
    ensures AllNumbered(Reconciled(env, t, r, keep))
  {
    var recorded := t.(runs := RunsThen(env, t, r), items := ItemsThen(env, t, r));
    PrunedIsNumbered(env, recorded, r.retention, r.at, keep);
    var pruned := Pruned(env, recorded, r.retention, r.at, keep);
    ProposedIsNumbered(env, pruned, Gated(env, t, r), r, ProposalRows(env, t, r));
  }

  lemma PrunedIsNumbered(env: Env, t: Tables, retention: int, at: int, keep: bool)
    requires AllNumbered(t)
    ensures AllNumbered(Pruned(env, t, retention, at, keep))
    ensures Pruned(env, t, retention, at, keep).nextEvent == t.nextEvent
  {
    NumberedDelete(t.recoveries, env.recoveryGone, at - retention, t.nextRecovery);
    NumberedDelete(t.events, env.eventGone, at - retention, t.nextEvent);
  }

  lemma ProposedIsNumbered(env: Env, t: Tables, ws: seq<Workload>, r: Report, rows: seq<Row>)
    requires AllNumbered(t)
    requires rows == if r.proposal.needed then EventRows(env.parsers, ws, t.nextEvent, StatusOf(r.proposal), r.at)
                     else []
    ensures AllNumbered(Proposed(t, rows, ws, r))
  {
    if r.proposal.needed {
      NumberedEvents(env.parsers, t.events, ws, t.nextEvent, StatusOf(r.proposal), r.at);
    } else {
      assert t.events + rows == t.events;
    }
  }

  /** Whatever happens, no two rows of a table have one identifier, so a completion is of one recovery. */
  lemma {:induction false} IdentifiersAscend(env: Env, ops: seq<Op>, keep: bool)
    ensures AllNumbered(Run(env, ops, keep))
  {
    if ops != [] {
      IdentifiersAscend(env, ops[..|ops| - 1], keep);
      StepIsNumbered(env, Run(env, ops[..|ops| - 1], keep), ops[|ops| - 1], keep);
    }
  }
}
