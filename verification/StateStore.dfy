/**
 * The store behind the gates: tables that the steps of a reconcile read and change in place
 * (internal/state/sqlite.go, proposal_budget.go, availability_recovery.go and retention.go). A SQL statement
 * or transaction is one atomic step.
 */
module StateStore {
  import opened Options
  import opened Timestamps
  import opened Limiters
  import Batch = BatchQueue
  import Gates = OutcomeGates
  import Retention

  /** A row of workload_runs. */
  datatype RunRow = RunRow(key: Key, time: int, run: Gates.Run)

  datatype Limits = Limits(maxPerHour: int, maxPerDay: int)

  /**
   * A workload of a report, as the proposal steps see it. `limits` is missing for a workload that is not in the
   * profile; `changing` says that the recommendation differs from the current sizes.
   */
  datatype Workload = Workload(
    key: Key, mode: string, plan: Option<Batch.Plan>, urgency: Batch.Urgency, limits: Option<Limits>, changing: bool)

  predicate HasApplyablePlan(w: Workload) {
    w.plan.Some? && Batch.Applyable(w.plan.value)
  }

  function Held(w: Workload): Workload
    requires w.plan.Some?
  {
    w.(plan := Some(w.plan.value.(blocked := true, needed := false)))
  }

  // ----- the order of recorded runs -----

  /** The order of the generated_at column. */
  const EARLIER := (a: int, b: int) => TextLess(NanoText(a), NanoText(b))

  /** Into an ascending sequence; among equal times the row that is inserted later comes later. */
  function Insert(rows: seq<RunRow>, row: RunRow, earlier: (int, int) -> bool): seq<RunRow> {
    if rows == [] || !earlier(row.time, rows[|rows| - 1].time) then rows + [row]
    else Insert(rows[..|rows| - 1], row, earlier) + [rows[|rows| - 1]]
  }

  /** The rows of one workload by time and id. */
  function RowsOf(rows: seq<RunRow>, key: Key, earlier: (int, int) -> bool): seq<RunRow> {
    if rows == [] then []
    else
      var before, last := RowsOf(rows[..|rows| - 1], key, earlier), rows[|rows| - 1];
      if last.key == key then Insert(before, last, earlier) else before
  }

  function Runs(rows: seq<RunRow>): (runs: seq<Gates.Run>)
    ensures |runs| == |rows| && forall i :: 0 <= i < |rows| ==> runs[i] == rows[i].run
  {
    seq(|rows|, i requires 0 <= i < |rows| => rows[i].run)
  }

  function HistoryOf(rows: seq<RunRow>, key: Key, earlier: (int, int) -> bool): seq<Gates.Run> {
    Runs(RowsOf(rows, key, earlier))
  }

  // ----- what the steps compute -----

  function Completed(rows: seq<Row>, id: int, status: string): (updated: seq<Row>)
    ensures |updated| == |rows|
  {
    seq(|rows|, i requires 0 <= i < |rows| => if rows[i].id == id then rows[i].(status := status) else rows[i])
  }

  predicate BudgetApplies(parsers: Batch.Parsers, w: Workload) {
    && w.mode == "propose" && w.plan.Some? && w.limits.Some?
    && !w.plan.value.blocked && w.plan.value.errors == 0 && w.plan.value.changes != []
    && !(w.urgency.recoveryEnabled && Batch.IsRecovery(parsers, w.urgency, w.plan.value))
  }

  function Budgeted(parsers: Batch.Parsers, q: Query, events: seq<Row>, w: Workload, now: int): Workload {
    if BudgetApplies(parsers, w)
       && ExhaustedBudgets(q, events, w.key, now, w.limits.value.maxPerHour, w.limits.value.maxPerDay) != []
    then Held(w) else w
  }

  /**
   * The plan of the workload is held by a budget: it would be proposed, is no enabled recovery, and the hour or the
   * day before holds as many proposals of the workload as its limit.
   */
  ghost predicate OverBudget(parsers: Batch.Parsers, events: seq<Row>, w: Workload, now: int) {
    && w.mode == "propose" && w.plan.Some? && w.limits.Some?
    && !w.plan.value.blocked && w.plan.value.errors == 0 && w.plan.value.changes != []
    && !Batch.RecoversAvailability(parsers, w.urgency, w.plan.value)
    && (|| 0 < w.limits.value.maxPerHour <= |ProposalsSince(events, w.key, now - 3600000000000)|
        || 0 < w.limits.value.maxPerDay <= |ProposalsSince(events, w.key, now - 86400000000000)|)
  }

  /** The workload with its plan blocked, or as it was. */
  ghost predicate HeldIff(before: Workload, after: Workload, held: bool) {
    if held then
      && before.plan.Some? && after == before.(plan := after.plan)
      && after.plan == Some(before.plan.value.(blocked := true, needed := false))
    else after == before
  }

  /** What the budgets do to a workload, in terms of its own fields and the proposals on record. */
  lemma BudgetedExactly(parsers: Batch.Parsers, events: seq<Row>, w: Workload, now: int)
    ensures HeldIff(w, Budgeted(parsers, EVENTS, events, w, now), OverBudget(parsers, events, w, now))
  {
    if w.plan.Some? {
      Batch.BypassesExactly(parsers, w.urgency, w.plan.value);
    }
    if w.limits.Some? {
      ExhaustedExactly(events, w.key, now, w.limits.value.maxPerHour, w.limits.value.maxPerDay);
    }
    BudgetedBy(parsers, EVENTS, events, w, now);
  }

  /** Exactly the workloads that are over budget have been held. */
  ghost predicate HeldByBudgets(
      parsers: Batch.Parsers, events: seq<Row>, before: seq<Workload>, after: seq<Workload>, now: int)
  {
    && |before| == |after|
    && forall i :: 0 <= i < |before| ==> HeldIff(before[i], after[i], OverBudget(parsers, events, before[i], now))
  }

  lemma AllBudgetedExactly(
      parsers: Batch.Parsers, events: seq<Row>, before: seq<Workload>, after: seq<Workload>, now: int)
    requires |before| == |after|
    requires forall i :: 0 <= i < |before| ==> after[i] == Budgeted(parsers, EVENTS, events, before[i], now)
    ensures HeldByBudgets(parsers, events, before, after, now)
  {
    forall i | 0 <= i < |before| ensures HeldIff(before[i], after[i], OverBudget(parsers, events, before[i], now)) {
      BudgetedExactly(parsers, events, before[i], now);
    }
  }

  lemma BudgetedBy(parsers: Batch.Parsers, q: Query, events: seq<Row>, w: Workload, now: int)
    ensures HeldIff(w, Budgeted(parsers, q, events, w, now),
              && w.mode == "propose" && w.plan.Some? && w.limits.Some?
              && !w.plan.value.blocked && w.plan.value.errors == 0 && w.plan.value.changes != []
              && !(w.urgency.recoveryEnabled && Batch.IsRecovery(parsers, w.urgency, w.plan.value))
              && ExhaustedBudgets(q, events, w.key, now, w.limits.value.maxPerHour, w.limits.value.maxPerDay) != [])
  {
  }

  /** What the batch step does to the row of the workload. */
  function EventOf(parsers: Batch.Parsers, w: Workload, now: int): Batch.Event {
    if HasApplyablePlan(w) then
      if Batch.Bypasses(parsers, w.urgency, w.plan.value) then Batch.Skipped else Batch.Offered(w.plan.value.text, now)
    else if w.changing then Batch.Skipped
    else Batch.Deleted
  }

  function ItemAt(items: map<Key, Batch.Item>, key: Key): Option<Batch.Item> {
    if key in items then Some(items[key]) else None
  }

  function WithItem(items: map<Key, Batch.Item>, key: Key, item: Option<Batch.Item>): map<Key, Batch.Item> {
    if item.Some? then items[key := item.value] else items - {key}
  }

  function ItemsAfter(parsers: Batch.Parsers, items: map<Key, Batch.Item>, ws: seq<Workload>, now: int)
    : map<Key, Batch.Item>
  {
    if ws == [] then items
    else
      var before, w := ItemsAfter(parsers, items, ws[..|ws| - 1], now), ws[|ws| - 1];
      WithItem(before, w.key, Batch.After(ItemAt(before, w.key), EventOf(parsers, w, now)))
  }

  function Batched(parsers: Batch.Parsers, items: map<Key, Batch.Item>, w: Workload, now: int, window: int): Workload {
    if EventOf(parsers, w, now).Offered? && !Batch.Passes(ItemAt(items, w.key), w.plan.value.text, now, window)
    then Held(w) else w
  }

  /** Rows of recorded proposals. `bypassed` is only for the record: the budget was not asked. */
  function EventRows(parsers: Batch.Parsers, ws: seq<Workload>, id: int, status: string, now: int): seq<Row> {
    if ws == [] then []
    else
      var before, w := EventRows(parsers, ws[..|ws| - 1], id, status, now), ws[|ws| - 1];
      if HasApplyablePlan(w)
      then before + [Row(id + |before|, w.key, now, status, !BudgetApplies(parsers, w))] else before
  }

  function Unsettled(items: map<Key, Batch.Item>, ws: seq<Workload>): map<Key, Batch.Item> {
    items - set w | w in ws && HasApplyablePlan(w) :: w.key
  }

  predicate Succeeded(status: string) {
    status != "failed" && status != "blocked"
  }

  /** The result of the Git step. */
  datatype Proposal = Proposal(
    needed: bool, errors: nat, blocked: bool, pushed: bool, commit: string, patchFile: string)

  function StatusOf(p: Proposal): string {
    if p.errors > 0 then "failed"
    else if p.blocked then "blocked"
    else if p.pushed then "pushed"
    else if p.commit != "" then "local_commit"
    else if p.patchFile != "" then "patch"
    else "created"
  }

  function KeptRuns(rows: seq<RunRow>, cutoff: int, earlier: (int, int) -> bool): seq<RunRow> {
    if rows == [] then []
    else
      KeptRuns(rows[..|rows| - 1], cutoff, earlier)
      + if earlier(rows[|rows| - 1].time, cutoff) then [] else [rows[|rows| - 1]]
  }

  function KeptItems(items: map<Key, Batch.Item>, cutoff: int, earlier: (int, int) -> bool): map<Key, Batch.Item> {
    map key | key in items && !earlier(items[key].lastSeen, cutoff) :: items[key]
  }

  predicate PruneNow(lastPruned: Option<int>, retention: int, now: int) {
    retention > 0 && Retention.PruneDue(lastPruned, now)
  }

  // ----- the store -----

  /** The contents of the store. */
  datatype Tables = Tables(
    runs: seq<RunRow>, events: seq<Row>, recoveries: seq<Row>, items: map<Key, Batch.Item>, lastPruned: Option<int>,
    nextEvent: int, nextRecovery: int)

  class Store {
    var runs: seq<RunRow>
    var events: seq<Row>
    var recoveries: seq<Row>
    var items: map<Key, Batch.Item>
    var lastPruned: Option<int>
    var nextEvent: int
    var nextRecovery: int

    constructor ()
      ensures runs == [] && events == [] && recoveries == [] && items == map[] && lastPruned == None
      ensures nextEvent == 1 && nextRecovery == 1
    {
      runs, events, recoveries, items, lastPruned := [], [], [], map[], None;
      nextEvent, nextRecovery := 1, 1;
    }

    ghost function View(): Tables
      reads this
    {
      Tables(runs, events, recoveries, items, lastPruned, nextEvent, nextRecovery)
    }

    // ----- pod recoveries -----

    method Reserve(request: Request) returns (decision: Decision, id: int)
      modifies this`recoveries, this`nextRecovery
      ensures decision == DecideRecovery(RECOVERIES, old(recoveries), request.key, request.now, request.cooldown,
                                         request.maxPerHour)
      ensures recoveries == AfterReserve(RECOVERIES, old(recoveries), old(nextRecovery), request)
      ensures decision.Granted? ==> id == old(nextRecovery) && nextRecovery == old(nextRecovery) + 1
      ensures !decision.Granted? ==> id == 0 && nextRecovery == old(nextRecovery)
    {
      id := 0;
      var limit := request.maxPerHour;
      if limit <= 0 {
        limit := DEFAULT_ATTEMPTS;
      }
      var latest := Latest(RECOVERIES, recoveries, request.key);
      if latest.Some? && request.cooldown > 0 {
        var readyAt := latest.value + request.cooldown;
        if request.now < readyAt {
          return CoolingDown(readyAt), id;
        }
      }
      var attempts := CountSince(RECOVERIES, recoveries, request.key, request.now - HOUR);
      if attempts >= limit {
        return LimitReached(attempts), id;
      }
      decision, id, nextRecovery := Granted, nextRecovery, nextRecovery + 1;
      recoveries := recoveries + [Row(id, request.key, request.now, "reserved", false)];
    }

    method Complete(id: int, status: string)
      modifies this`recoveries
      ensures recoveries == Completed(old(recoveries), id, status)
    {
      recoveries := Completed(recoveries, id, status);
    }

    // ----- proposal budgets -----

    method BudgetReasons(key: Key, now: int, limits: Limits) returns (reasons: seq<Decision>)
      ensures reasons == ExhaustedBudgets(EVENTS, events, key, now, limits.maxPerHour, limits.maxPerDay)
    {
      reasons := [];
      if limits.maxPerHour > 0 {
        var count := CountSince(EVENTS, events, key, now - HOUR);
        if count >= limits.maxPerHour {
          reasons := reasons + [LimitReached(count)];
        }
      }
      if limits.maxPerDay > 0 {
        var count := CountSince(EVENTS, events, key, now - DAY);
        if count >= limits.maxPerDay {
          reasons := reasons + [LimitReached(count)];
        }
      }
    }

    method BudgetWorkload(parsers: Batch.Parsers, w: Workload, now: int) returns (r: Workload)
      ensures r == Budgeted(parsers, EVENTS, events, w, now)
    {
      r := w;
      if w.mode != "propose" || w.plan.None? || w.limits.None? {
        return;
      }
      var plan := w.plan.value;
      if plan.blocked || plan.errors > 0 || plan.changes == [] {
        return;
      }
      var recovery := Batch.AvailabilityRecoveryPlan(parsers, w.urgency, plan);
      if w.urgency.recoveryEnabled && recovery {
        return;
      }
      var reasons := BudgetReasons(w.key, now, w.limits.value);
      if reasons != [] {
        r := Held(w);
      }
    }

    method ApplyProposalBudgets(parsers: Batch.Parsers, workloads: array<Workload>, now: int)
      modifies workloads
      ensures forall i :: 0 <= i < workloads.Length ==>
        workloads[i] == Budgeted(parsers, EVENTS, events, old(workloads[i]), now)
      ensures HeldByBudgets(parsers, events, old(workloads[..]), workloads[..], now)
    {
      ghost var ws := workloads[..];
      for i := 0 to workloads.Length
        invariant forall k :: 0 <= k < i ==> workloads[k] == Budgeted(parsers, EVENTS, events, old(workloads[k]), now)
        invariant forall k :: i <= k < workloads.Length ==> workloads[k] == old(workloads[k])
      {
        workloads[i] := BudgetWorkload(parsers, workloads[i], now);
      }
      AllBudgetedExactly(parsers, events, ws, workloads[..], now);
    }

    /** Rows are added for the plans that are still applyable; a success also ends their batch. */
    method RecordProposalEvents(parsers: Batch.Parsers, workloads: array<Workload>, proposal: Proposal, now: int)
      modifies this`events, this`nextEvent, this`items
      ensures !proposal.needed ==> events == old(events) && nextEvent == old(nextEvent) && items == old(items)
      ensures proposal.needed ==>
        events == old(events) + EventRows(parsers, workloads[..], old(nextEvent), StatusOf(proposal), now)
      ensures nextEvent == old(nextEvent) + |events| - |old(events)|
      ensures proposal.needed && Succeeded(StatusOf(proposal)) ==> items == Unsettled(old(items), workloads[..])
      ensures !Succeeded(StatusOf(proposal)) ==> items == old(items)
    {
      if !proposal.needed {
        return;
      }
      var status := StatusOf(proposal);
      for i := 0 to workloads.Length
        invariant events == old(events) + EventRows(parsers, workloads[..i], old(nextEvent), status, now)
        invariant nextEvent == old(nextEvent) + |events| - |old(events)|
        invariant items == if Succeeded(status) then Unsettled(old(items), workloads[..i]) else old(items)
      {
        var w := workloads[i];
        RecordStep(parsers, workloads[..], i, old(nextEvent), status, now, old(items));
        assert workloads[..][..i] == workloads[..i] && workloads[..][..i + 1] == workloads[..i + 1];
        if HasApplyablePlan(w) {
          events := events + [Row(nextEvent, w.key, now, status, !BudgetApplies(parsers, w))];
          nextEvent := nextEvent + 1;
          if Succeeded(status) {
            items := items - {w.key};
          }
        }
      }
      assert workloads[..workloads.Length] == workloads[..];
    }

    // ----- the batch window -----

    method UpsertProposalBatchItem(key: Key, text: string, now: int) returns (firstSeen: int)
      modifies this`items
      ensures items == old(items)[key := Batch.Upserted(ItemAt(old(items), key), text, now)]
      ensures firstSeen == items[key].firstSeen
    {
      firstSeen := now;
      if key in items && items[key].text == text {
        firstSeen := items[key].firstSeen;
      }
      items := items[key := Batch.Item(text, firstSeen, now)];
    }

    method BatchWorkload(parsers: Batch.Parsers, w: Workload, now: int, window: int) returns (r: Workload)
      modifies this`items
      ensures items == ItemsAfter(parsers, old(items), [w], now)
      ensures r == Batched(parsers, old(items), w, now, window)
    {
      assert [w][..0] == [];
      r := w;
      if HasApplyablePlan(w) {
        var plan := w.plan.value;
        var recovery := Batch.AvailabilityRecoveryPlan(parsers, w.urgency, plan);
        if w.urgency.recoveryEnabled && recovery {
          return;
        }
        var urgent := Batch.UrgentBypass(parsers, w.urgency, plan);
        if w.urgency.urgentAllowed && urgent {
          return;
        }
        var firstSeen := UpsertProposalBatchItem(w.key, plan.text, now);
        if now < firstSeen + window {
          r := Held(w);
        }
      } else if !w.changing {
        items := items - {w.key};
      }
    }

    method ApplyProposalBatch(parsers: Batch.Parsers, workloads: array<Workload>, now: int, window: int)
      requires window > 0
      modifies this`items, workloads
      ensures items == ItemsAfter(parsers, old(items), old(workloads[..]), now)
      ensures forall i :: 0 <= i < workloads.Length ==>
        workloads[i] == Batched(parsers, ItemsAfter(parsers, old(items), old(workloads[..])[..i], now),
                                old(workloads[i]), now, window)
    {
      ghost var ws := workloads[..];
      for i := 0 to workloads.Length
        invariant items == ItemsAfter(parsers, old(items), ws[..i], now)
        invariant Batching(parsers, old(items), ws, workloads[..], i, now, window)
      {
        ghost var before := workloads[..];
        assert before[i..][0] == ws[i..][0];
        var w := BatchWorkload(parsers, workloads[i], now, window);
        OneMoreBatched(parsers, old(items), ws, before, i, now, window);
        workloads[i] := w;
        assert workloads[..] == before[i := w];
      }
      assert ws[..workloads.Length] == ws;
    }

    // ----- recorded runs -----

    /** Gates and outcome of one workload. */
    method Attach(parse: Gates.Parser, key: Key, now: Gates.Reconcile)
      returns (stability: Gates.Stability, outcome: Gates.Outcome)
      ensures fresh(stability) && stability.Valid()
      ensures outcome == Gates.Detected(parse, HistoryOf(runs, key, EARLIER), now)
      ensures stability.gates == Gates.Decided(parse, HistoryOf(runs, key, EARLIER), now)
    {
      stability, outcome := Gates.Attach(parse, HistoryOf(runs, key, EARLIER), now);
    }

    method Record(key: Key, at: int, now: Gates.Reconcile, gates: Gates.Gates, outcome: Gates.Outcome,
                  delivery: Gates.Delivery)
      modifies this`runs
      ensures runs == old(runs) + [RunRow(key, at, Gates.RowOf(gates, outcome, now, delivery))]
    {
      runs := runs + [RunRow(key, at, Gates.RowOf(gates, outcome, now, delivery))];
    }

    // ----- pruning -----

    method PruneExpired(retention: int, now: int)
      modifies this`runs, this`events, this`recoveries, this`items, this`lastPruned
      ensures !PruneNow(old(lastPruned), retention, now) ==>
        runs == old(runs) && events == old(events) && recoveries == old(recoveries) && items == old(items)
      ensures PruneNow(old(lastPruned), retention, now) ==>
        && runs == KeptRuns(old(runs), now - retention, EARLIER)
        && events == Retention.Delete(old(events), Retention.EVENT_GONE, now - retention)
        && recoveries == Retention.Delete(old(recoveries), Retention.RECOVERY_GONE, now - retention)
        && items == KeptItems(old(items), now - retention, EARLIER)
      ensures lastPruned == if PruneNow(old(lastPruned), retention, now) then Some(now) else old(lastPruned)
    {
      if retention <= 0 {
        return;
      }
      if lastPruned.Some? && now < lastPruned.value + HOUR {
        return;
      }
      runs, items := KeptRuns(runs, now - retention, EARLIER), KeptItems(items, now - retention, EARLIER);
      events := Retention.Delete(events, Retention.EVENT_GONE, now - retention);
      recoveries := Retention.Delete(recoveries, Retention.RECOVERY_GONE, now - retention);
      lastPruned := Some(now);
    }
  }

  /** The first `n` workloads have been through the batch step. */
  ghost predicate Batching(
      parsers: Batch.Parsers, items: map<Key, Batch.Item>, ws: seq<Workload>, after: seq<Workload>, n: nat, now: int,
      window: int)
  {
    && |after| == |ws| && n <= |ws| && after[n..] == ws[n..]
    && forall k :: 0 <= k < n ==>
         after[k] == Batched(parsers, ItemsAfter(parsers, items, ws[..k], now), ws[k], now, window)
  }

  lemma OneMoreBatched(
      parsers: Batch.Parsers, items: map<Key, Batch.Item>, ws: seq<Workload>, after: seq<Workload>, n: nat, now: int,
      window: int)
    requires Batching(parsers, items, ws, after, n, now, window) && n < |ws|
    ensures var before := ItemsAfter(parsers, items, ws[..n], now);
      && ItemsAfter(parsers, items, ws[..n + 1], now) == ItemsAfter(parsers, before, [ws[n]], now)
      && Batching(parsers, items, ws, after[n := Batched(parsers, before, ws[n], now, window)], n + 1, now, window)
  {
    var next := after[n := Batched(parsers, ItemsAfter(parsers, items, ws[..n], now), ws[n], now, window)];
    assert ws[..n + 1][..n] == ws[..n] && [ws[n]][..0] == [];
    assert next[n + 1..] == after[n..][1..] && ws[n + 1..] == ws[n..][1..];
    forall k | 0 <= k < n
      ensures next[k] == Batched(parsers, ItemsAfter(parsers, items, ws[..k], now), ws[k], now, window)
    {
      assert next[k] == after[k];
    }
  }

  /** The entry point: without a database every applyable plan is held. */
  method ApplyProposalBatch(
      store: Store?, parsers: Batch.Parsers, workloads: array<Workload>, kind: string, now: int, window: int)
    modifies store, workloads
    ensures kind != "commit" || window <= 0 ==>
      forall i :: 0 <= i < workloads.Length ==> workloads[i] == old(workloads[i])
    ensures kind == "commit" && window > 0 && store == null ==>
      forall i :: 0 <= i < workloads.Length ==>
        workloads[i] == if HasApplyablePlan(old(workloads[i])) then Held(old(workloads[i])) else old(workloads[i])
    ensures kind == "commit" && window > 0 && store != null ==>
      && store.items == ItemsAfter(parsers, old(store.items), old(workloads[..]), now)
      && forall i :: 0 <= i < workloads.Length ==>
        workloads[i] == Batched(parsers, ItemsAfter(parsers, old(store.items), old(workloads[..])[..i], now),
                                old(workloads[i]), now, window)
  {
    if kind != "commit" || window <= 0 {
      return;
    }
    if store != null {
      store.ApplyProposalBatch(parsers, workloads, now, window);
      return;
    }
    for i := 0 to workloads.Length
      invariant forall k :: 0 <= k < i ==>
        workloads[k] == if HasApplyablePlan(old(workloads[k])) then Held(old(workloads[k])) else old(workloads[k])
      invariant forall k :: i <= k < workloads.Length ==> workloads[k] == old(workloads[k])
    {
      if HasApplyablePlan(workloads[i]) {
        workloads[i] := Held(workloads[i]);
      }
    }
  }

  lemma RecordStep(
      parsers: Batch.Parsers, ws: seq<Workload>, i: nat, id: int, status: string, now: int, items: map<Key, Batch.Item>)
    requires i < |ws|
    ensures EventRows(parsers, ws[..i + 1], id, status, now)
         == EventRows(parsers, ws[..i], id, status, now)
            + if HasApplyablePlan(ws[i])
              then [Row(id + |EventRows(parsers, ws[..i], id, status, now)|, ws[i].key, now, status,
                        !BudgetApplies(parsers, ws[i]))]
              else []
    ensures Unsettled(items, ws[..i + 1])
         == Unsettled(items, ws[..i]) - if HasApplyablePlan(ws[i]) then {ws[i].key} else {}
  {
    assert ws[..i + 1][..i] == ws[..i] && ws[..i + 1] == ws[..i] + [ws[i]];
  }

  // ----- what the steps mean for a workload -----

  /** The plan would be proposed as things stand. */
  ghost predicate Ready(w: Workload) {
    && w.plan.Some? && w.plan.value.needed && !w.plan.value.blocked && w.plan.value.errors == 0
    && w.plan.value.changes != []
  }

  /** Since when the plan of the workload is on offer. */
  ghost function OfferedFrom(items: map<Key, Batch.Item>, w: Workload, now: int): int
    requires w.plan.Some?
  {
    if w.key in items && items[w.key].text == w.plan.value.text then items[w.key].firstSeen else now
  }

  /**
   * What the batch window does to a workload: a plan that has to wait is held until the window is over, and its row
   * says since when; a plan that need not wait leaves its row alone; with nothing to recommend the row goes.
   */
  lemma BatchStepMeans(parsers: Batch.Parsers, items: map<Key, Batch.Item>, w: Workload, now: int, window: int)
    ensures var waits := Ready(w) && !Batch.RecoversAvailability(parsers, w.urgency, w.plan.value)
                                  && !Batch.FollowsTraffic(parsers, w.urgency, w.plan.value);
      && HeldIff(w, Batched(parsers, items, w, now, window), waits && now < OfferedFrom(items, w, now) + window)
      && ItemsAfter(parsers, items, [w], now)
         == if waits then items[w.key := Batch.Item(w.plan.value.text, OfferedFrom(items, w, now), now)]
            else if Ready(w) || w.changing then items
            else items - {w.key}
  {
    assert [w][..0] == [];
    if w.plan.Some? {
      Batch.BypassesExactly(parsers, w.urgency, w.plan.value);
    }
  }

  lemma {:induction false} EventRowsCount(
      parsers: Batch.Parsers, ws: seq<Workload>, id: int, status: string, now: int)
    ensures |EventRows(parsers, ws, id, status, now)| == |set i | 0 <= i < |ws| && Ready(ws[i])|
  {
    if ws != [] {
      var n, front, w := |ws| - 1, ws[..|ws| - 1], ws[|ws| - 1];
      EventRowsCount(parsers, front, id, status, now);
      var some := set i | 0 <= i < |front| && Ready(front[i]);
      assert (set i | 0 <= i < |ws| && Ready(ws[i])) == some + if Ready(w) then {n} else {};
    }
  }

  ghost predicate HasRow(rows: seq<Row>, key: Key, now: int, status: string) {
    exists r :: r in rows && r.key == key && r.time == now && r.status == status
  }

  lemma {:induction false} EventRowOf(
      parsers: Batch.Parsers, ws: seq<Workload>, id: int, status: string, now: int, i: nat)
    requires i < |ws| && Ready(ws[i])
    ensures HasRow(EventRows(parsers, ws, id, status, now), ws[i].key, now, status)
  {
    var front, w, rows := ws[..|ws| - 1], ws[|ws| - 1], EventRows(parsers, ws, id, status, now);
    var before := EventRows(parsers, front, id, status, now);
    if i < |front| {
      EventRowOf(parsers, front, id, status, now, i);
      var r :| r in before && r.key == ws[i].key && r.time == now && r.status == status;
      assert r in rows;
    } else {
      assert rows[|before|] == Row(id + |before|, w.key, now, status, !BudgetApplies(parsers, w));
      assert rows[|before|] in rows;
    }
  }

  lemma {:induction false} EventRowIsOf(
      parsers: Batch.Parsers, ws: seq<Workload>, id: int, status: string, now: int, r: Row)
    requires r in EventRows(parsers, ws, id, status, now)
    ensures r.time == now && r.status == status && exists w :: w in ws && Ready(w) && r.key == w.key
  {
    var front, w := ws[..|ws| - 1], ws[|ws| - 1];
    assert w in ws && forall v :: v in front ==> v in ws;
    if r in EventRows(parsers, front, id, status, now) {
      EventRowIsOf(parsers, front, id, status, now, r);
    }
  }

  /** The rows of a recorded proposal are those of the workloads whose plan is still ready, one each. */
  lemma EventRowsMean(parsers: Batch.Parsers, ws: seq<Workload>, id: int, status: string, now: int)
    ensures |EventRows(parsers, ws, id, status, now)| == |set i | 0 <= i < |ws| && Ready(ws[i])|
    ensures forall i :: 0 <= i < |ws| && Ready(ws[i]) ==>
      HasRow(EventRows(parsers, ws, id, status, now), ws[i].key, now, status)
    ensures forall r :: r in EventRows(parsers, ws, id, status, now) ==>
      r.time == now && r.status == status && exists w :: w in ws && Ready(w) && r.key == w.key
  {
    EventRowsCount(parsers, ws, id, status, now);
    forall i | 0 <= i < |ws| && Ready(ws[i])
      ensures HasRow(EventRows(parsers, ws, id, status, now), ws[i].key, now, status)
    {
      EventRowOf(parsers, ws, id, status, now, i);
    }
    forall r | r in EventRows(parsers, ws, id, status, now)
      ensures r.time == now && r.status == status && exists w :: w in ws && Ready(w) && r.key == w.key
    {
      EventRowIsOf(parsers, ws, id, status, now, r);
    }
  }

  /** The status of a proposal, by what the Git step came to. */
  lemma StatusMeans(p: Proposal)
    ensures StatusOf(p) in {"failed", "blocked"} <==> p.errors > 0 || p.blocked
    ensures StatusOf(p) == "failed" <==> p.errors > 0
    ensures StatusOf(p) == "pushed" <==> p.errors == 0 && !p.blocked && p.pushed
    ensures StatusOf(p) == "local_commit" <==> p.errors == 0 && !p.blocked && !p.pushed && p.commit != ""
    ensures StatusOf(p) == "patch" <==>
      p.errors == 0 && !p.blocked && !p.pushed && p.commit == "" && p.patchFile != ""
    ensures Succeeded(StatusOf(p)) <==> p.errors == 0 && !p.blocked
  {
    assert "failed"[0] == 'f' && "blocked"[0] == 'b' && "pushed"[0] == 'p' && "local_commit"[0] == 'l';
    assert "patch"[1] == 'a' && "pushed"[1] == 'u' && "created"[0] == 'c';
  }

  /** After a success exactly the batches of the recorded workloads are over. */
  lemma UnsettledMeans(items: map<Key, Batch.Item>, ws: seq<Workload>, key: Key)
    ensures ItemAt(Unsettled(items, ws), key)
         == if exists w :: w in ws && w.key == key && Ready(w) then None else ItemAt(items, key)
  {
  }

  // ----- what pruning and reading mean -----

  /** Pruning is on, and there was none in the last 3600 seconds. */
  lemma PruneNowMeans(lastPruned: Option<int>, retention: int, now: int)
    ensures PruneNow(lastPruned, retention, now)
       <==> retention > 0 && (lastPruned.Some? ==> now - lastPruned.value >= 3600000000000)
  {
  }

  lemma {:induction false} KeptRunsMean(rows: seq<RunRow>, cutoff: int, earlier: (int, int) -> bool, r: RunRow)
    ensures r in KeptRuns(rows, cutoff, earlier) <==> r in rows && !earlier(r.time, cutoff)
  {
    if rows != [] {
      var front, last := rows[..|rows| - 1], rows[|rows| - 1];
      KeptRunsMean(front, cutoff, earlier, r);
      assert r in rows <==> r in front || r == last;
    }
  }

  /** What a pruning leaves of each table: what does not sort before the cutoff, batches by when they were last seen. */
  lemma PruningMeans(t: Tables, cutoff: int, run: RunRow, row: Row, key: Key)
    ensures run in KeptRuns(t.runs, cutoff, EARLIER)
       <==> run in t.runs && !TextLess(NanoText(run.time), NanoText(cutoff))
    ensures row in Retention.Delete(t.events, Retention.EVENT_GONE, cutoff)
       <==> row in t.events && !TextLess(NanoText(row.time), NanoText(cutoff))
    ensures row in Retention.Delete(t.recoveries, Retention.RECOVERY_GONE, cutoff)
       <==> row in t.recoveries && !TextLess(FixedText(row.time), NanoText(cutoff))
    ensures ItemAt(KeptItems(t.items, cutoff, EARLIER), key)
         == if key in t.items && !TextLess(NanoText(t.items[key].lastSeen), NanoText(cutoff)) then Some(t.items[key])
            else None
  {
    KeptRunsMean(t.runs, cutoff, EARLIER, run);
    Retention.DeleteMeans(t.events, Retention.EVENT_GONE, cutoff, row);
    Retention.DeleteMeans(t.recoveries, Retention.RECOVERY_GONE, cutoff, row);
  }

  ghost predicate Sorted(rows: seq<RunRow>, earlier: (int, int) -> bool) {
    forall i, j :: 0 <= i < j < |rows| ==> !earlier(rows[j].time, rows[i].time)
  }

  /** A strict order in which incomparable times are equivalent. */
  ghost predicate Orders(earlier: (int, int) -> bool) {
    && (forall a, b :: earlier(a, b) ==> !earlier(b, a))
    && forall a, b, c :: !earlier(a, b) && !earlier(b, c) ==> !earlier(a, c)
  }

  lemma {:induction false} InsertSorts(rows: seq<RunRow>, row: RunRow, earlier: (int, int) -> bool)
    requires Orders(earlier) && Sorted(rows, earlier)
    ensures Sorted(Insert(rows, row, earlier), earlier)
    ensures multiset(Insert(rows, row, earlier)) == multiset(rows) + multiset{row}
  {
    if rows != [] && earlier(row.time, rows[|rows| - 1].time) {
      var front, last := rows[..|rows| - 1], rows[|rows| - 1];
      assert rows == front + [last];
      InsertSorts(front, row, earlier);
      InsertLast(Insert(front, row, earlier), front, row, last, earlier);
    } else {
      AppendSorted(rows, row, earlier);
    }
  }

  lemma AppendSorted(rows: seq<RunRow>, row: RunRow, earlier: (int, int) -> bool)
    requires Orders(earlier) && Sorted(rows, earlier)
    requires rows != [] ==> !earlier(row.time, rows[|rows| - 1].time)
    ensures Sorted(rows + [row], earlier)
  {
    var all := rows + [row];
    forall i, j | 0 <= i < j < |all| ensures !earlier(all[j].time, all[i].time) {
      if j == |rows| && i < |rows| - 1 {
        assert !earlier(rows[|rows| - 1].time, rows[i].time);
      }
    }
  }

  lemma InsertLast(some: seq<RunRow>, front: seq<RunRow>, row: RunRow, last: RunRow, earlier: (int, int) -> bool)
    requires Orders(earlier) && Sorted(some, earlier) && multiset(some) == multiset(front) + multiset{row}
    requires Sorted(front + [last], earlier) && earlier(row.time, last.time)
    ensures Sorted(some + [last], earlier)
  {
    if some != [] {
      var r := some[|some| - 1];
      assert r in multiset(some);
      if r != row {
        var i :| 0 <= i < |front| && front[i] == r;
        assert (front + [last])[i] == r && (front + [last])[|front|] == last;
      }
    }
    AppendSorted(some, last, earlier);
  }

  /** The rows of a workload are read in the order of their times, all of them and no others. */
  lemma {:induction false} RowsOfMean(rows: seq<RunRow>, key: Key, earlier: (int, int) -> bool)
    requires Orders(earlier)
    ensures Sorted(RowsOf(rows, key, earlier), earlier)
    ensures forall r :: multiset(RowsOf(rows, key, earlier))[r] == if r.key == key then multiset(rows)[r] else 0
  {
    if rows != [] {
      var front, last := rows[..|rows| - 1], rows[|rows| - 1];
      RowsOfMean(front, key, earlier);
      assert rows == front + [last];
      if last.key == key {
        InsertSorts(RowsOf(front, key, earlier), last, earlier);
      }
    }
  }

  // ----- workloads do not disturb each other -----

  /** No two workloads of the report have the same key. */
  ghost predicate Distinct(ws: seq<Workload>) {
    forall i, j :: 0 <= i < j < |ws| ==> ws[i].key != ws[j].key
  }

  lemma {:induction false} ForeignItems(
      parsers: Batch.Parsers, items: map<Key, Batch.Item>, ws: seq<Workload>, now: int, key: Key)
    requires forall w :: w in ws ==> w.key != key
    ensures ItemAt(ItemsAfter(parsers, items, ws, now), key) == ItemAt(items, key)
  {
    if ws != [] {
      assert ws[|ws| - 1] in ws && forall w :: w in ws[..|ws| - 1] ==> w in ws;
      ForeignItems(parsers, items, ws[..|ws| - 1], now, key);
    }
  }

  /** In a report with distinct workloads, each row evolves and each plan is held as if it were alone. */
  lemma {:induction false} RowsAreIndependent(
      parsers: Batch.Parsers, items: map<Key, Batch.Item>, ws: seq<Workload>, now: int, window: int, i: nat)
    requires Distinct(ws) && i < |ws|
    ensures ItemAt(ItemsAfter(parsers, items, ws, now), ws[i].key)
         == Batch.After(ItemAt(items, ws[i].key), EventOf(parsers, ws[i], now))
    ensures Batched(parsers, ItemsAfter(parsers, items, ws[..i], now), ws[i], now, window)
         == Batched(parsers, items, ws[i], now, window)
  {
    forall w | w in ws[..i] ensures w.key != ws[i].key {
    }
    ForeignItems(parsers, items, ws[..i], now, ws[i].key);
    var front := ws[..|ws| - 1];
    if i < |front| {
      RowsAreIndependent(parsers, items, front, now, window, i);
      assert front[..i] == ws[..i];
    } else {
      assert front == ws[..i];
    }
  }

  // ----- budgets of the stored proposals -----

  /** An applyable plan that is subject to budgets has none exhausted. */
  ghost predicate Cleared(parsers: Batch.Parsers, q: Query, events: seq<Row>, w: Workload, now: int) {
    HasApplyablePlan(w) && BudgetApplies(parsers, w) ==>
      ExhaustedBudgets(q, events, w.key, now, w.limits.value.maxPerHour, w.limits.value.maxPerDay) == []
  }

  lemma BudgetedIsCleared(parsers: Batch.Parsers, q: Query, events: seq<Row>, w: Workload, now: int)
    ensures Cleared(parsers, q, events, Budgeted(parsers, q, events, w, now), now)
  {
  }

  /** The limit for one of the two windows; if it is not positive there is none. */
  function WindowLimit(limits: Limits, window: int): int {
    if window == HOUR then limits.maxPerHour else limits.maxPerDay
  }

  /** The workload has a limit for this window, of at most `budget`, where it has limits at all. */
  ghost predicate LimitedTo(ws: seq<Workload>, key: Key, window: int, budget: int) {
    forall w :: w in ws && w.key == key && w.limits.Some? ==> 0 < WindowLimit(w.limits.value, window) <= budget
  }

  lemma {:induction false} ForeignRows(q: Query, rows: seq<Row>, more: seq<Row>, key: Key, since: int)
    requires forall r :: r in more ==> r.key != key
    ensures CountSince(q, rows + more, key, since) == CountSince(q, rows, key, since)
  {
    if more == [] {
      assert rows + more == rows;
    } else {
      var front, last := more[..|more| - 1], more[|more| - 1];
      assert last in more && forall r :: r in front ==> r in more;
      assert rows + more == rows + front + [last] && (rows + front + [last])[..|rows + front|] == rows + front;
      ForeignRows(q, rows, front, key, since);
    }
  }

  /** The rows of the earlier workloads of the report do not matter for the row that `w` adds. */
  lemma RowKeepsBudget(
      parsers: Batch.Parsers, q: Query, events: seq<Row>, more: seq<Row>, w: Workload, row: Row, key: Key,
      window: int, limit: int)
    requires AllAdmitted(q, events + more, key, window, limit)
    requires forall r :: r in more ==> r.key != w.key
    requires row.key == w.key && row.bypassed == !BudgetApplies(parsers, w)
    requires w.key == key && BudgetApplies(parsers, w) ==> CountSince(q, events, key, row.time - window) < limit
    ensures AllAdmitted(q, events + (more + [row]), key, window, limit)
  {
    if w.key == key {
      ForeignRows(q, events, more, key, row.time - window);
    }
    AdmittedAppend(q, events + more, row, key, window, limit);
    assert events + (more + [row]) == events + more + [row];
  }

  /** Recording a report whose plans went through the budgets keeps each window of the table within its budget. */
  lemma {:induction false} RecordingKeepsBudgets(
      parsers: Batch.Parsers, q: Query, events: seq<Row>, ws: seq<Workload>, id: int, status: string, now: int,
      key: Key, window: int, budget: int)
    requires AllAdmitted(q, events, key, window, budget) && window in {HOUR, DAY}
    requires Distinct(ws) && LimitedTo(ws, key, window, budget)
    requires forall w :: w in ws ==> Cleared(parsers, q, events, w, now)
    ensures AllAdmitted(q, events + EventRows(parsers, ws, id, status, now), key, window, budget)
  {
    if ws == [] {
      assert events + EventRows(parsers, ws, id, status, now) == events;
    } else {
      var front, w := ws[..|ws| - 1], ws[|ws| - 1];
      assert w in ws && forall v :: v in front ==> v in ws;
      RecordingKeepsBudgets(parsers, q, events, front, id, status, now, key, window, budget);
      var before := EventRows(parsers, front, id, status, now);
      if HasApplyablePlan(w) {
        forall r | r in before ensures r.key != w.key {
          EventRowIsOf(parsers, front, id, status, now, r);
        }
        var row := Row(id + |before|, w.key, now, status, !BudgetApplies(parsers, w));
        LastKeepsBudgets(parsers, q, events, before, w, row, key, window, budget);
        assert EventRows(parsers, ws, id, status, now) == before + [row];
      }
    }
  }

  lemma LastKeepsBudgets(
      parsers: Batch.Parsers, q: Query, events: seq<Row>, before: seq<Row>, w: Workload, row: Row, key: Key,
      window: int, budget: int)
    requires AllAdmitted(q, events + before, key, window, budget) && window in {HOUR, DAY}
    requires forall r :: r in before ==> r.key != w.key
    requires LimitedTo([w], key, window, budget) && HasApplyablePlan(w) && Cleared(parsers, q, events, w, row.time)
    requires row.key == w.key && row.bypassed == !BudgetApplies(parsers, w)
    ensures AllAdmitted(q, events + (before + [row]), key, window, budget)
  {
    assert w in [w];
    if w.key == key && BudgetApplies(parsers, w) {
      NotExhausted(q, events, key, row.time, w.limits.value, window, budget);
    }
    RowKeepsBudget(parsers, q, events, before, w, row, key, window, budget);
  }

  lemma NotExhausted(q: Query, events: seq<Row>, key: Key, now: int, limits: Limits, window: int, budget: int)
    requires ExhaustedBudgets(q, events, key, now, limits.maxPerHour, limits.maxPerDay) == []
    requires 0 < WindowLimit(limits, window) <= budget && window in {HOUR, DAY}
    ensures CountSince(q, events, key, now - window) < budget
  {
  }

  // ----- completing a recovery -----

  ghost predicate IgnoresStatus(q: Query) {
    forall s, t :: q.counts(s) == q.counts(t)
  }

  lemma {:induction false} CompletedRows(q: Query, rows: seq<Row>, id: int, status: string, key: Key, since: int)
    requires IgnoresStatus(q)
    ensures CountSince(q, Completed(rows, id, status), key, since) == CountSince(q, rows, key, since)
    ensures Latest(q, Completed(rows, id, status), key) == Latest(q, rows, key)
  {
    if rows != [] {
      var updated := Completed(rows, id, status);
      assert updated[..|rows| - 1] == Completed(rows[..|rows| - 1], id, status);
      CompletedRows(q, rows[..|rows| - 1], id, status, key, since);
    }
  }

  /** A failed attempt uses up the limit like a successful one. */
  lemma CompletionChangesNoDecision(rows: seq<Row>, id: int, status: string, r: Request)
    ensures DecideRecovery(RECOVERIES, Completed(rows, id, status), r.key, r.now, r.cooldown, r.maxPerHour)
         == DecideRecovery(RECOVERIES, rows, r.key, r.now, r.cooldown, r.maxPerHour)
  {
    CompletedRows(RECOVERIES, rows, id, status, r.key, r.now - HOUR);
  }

  lemma {:induction false} CompletedAdmitted(q: Query, rows: seq<Row>, id: int, status: string, key: Key, limit: int)
    requires IgnoresStatus(q) && AllAdmitted(q, rows, key, HOUR, limit)
    ensures AllAdmitted(q, Completed(rows, id, status), key, HOUR, limit)
  {
    if rows != [] {
      var front, last := rows[..|rows| - 1], rows[|rows| - 1];
      CompletedAdmitted(q, front, id, status, key, limit);
      assert Completed(rows, id, status)[..|front|] == Completed(front, id, status);
      CompletedRows(q, front, id, status, last.key, last.time - HOUR);
    }
  }
}
