/**
 * The limits of the store over whole runs: pruning does not change an answer of the limiters, and what they grant stays
 * within the limits of every interval.
 */
module StoreLimits {
  import opened Numbers
  import opened Timestamps
  import opened Limiters
  import opened Retention
  import opened StateStore
  import opened StoreRuns
  import Batch = BatchQueue
  import Gates = OutcomeGates

  // ----- the store beside one that keeps its rows -----

  /** The same answer, gates aside. */
  ghost predicate SameVerdict(a: Answer, b: Answer) {
    if a.Reported? && b.Reported? then a.workloads == b.workloads else a == b
  }

  ghost predicate SameVerdicts(some: seq<Answer>, other: seq<Answer>) {
    |some| == |other| && forall i :: 0 <= i < |some| ==> SameVerdict(some[i], other[i])
  }

  predicate Timed(op: Op) {
    !op.Completing?
  }

  function Time(op: Op): int
    requires Timed(op)
  {
    if op.Reserving? then op.request.now else op.report.at
  }

  /** How far a step looks back: over the hour and the cooldown, or over the day. */
  function Lookback(op: Op): int
    requires Timed(op)
  {
    if op.Reserving? then MaxInt(HOUR, op.request.cooldown) else DAY
  }

  /** A retention that is not positive turns pruning off. */
  predicate MayPrune(op: Op) {
    op.Reconciling? && op.report.retention > 0
  }

  function Cutoff(op: Op): int
    requires MayPrune(op)
  {
    op.report.at - op.report.retention
  }

  /**
   * No report prunes what a later step looks back on; seconds are compared, as text is accurate to these. The times
   * of the steps may come in any order.
   */
  ghost predicate InView(ops: seq<Op>) {
    forall i, j :: 0 <= i < j < |ops| && MayPrune(ops[i]) && Timed(ops[j]) ==>
      Second(Cutoff(ops[i])) < Second(Time(ops[j]) - Lookback(ops[j]))
  }

  ghost predicate Sound(env: Env) {
    && Chronological(env.recoveries)
    && SecondAccurate(env.recoveries, env.recoveryGone)
    && SecondAccurate(env.events, env.eventGone)
  }

  /** The tables of the limiters differ by old rows only, and all else is the same, runs aside. */
  ghost predicate Related(pruned: Tables, full: Tables, bound: int) {
    && Thinned(pruned.recoveries, full.recoveries, bound)
    && Thinned(pruned.events, full.events, bound)
    && pruned.items == full.items && pruned.lastPruned == full.lastPruned
    && pruned.nextEvent == full.nextEvent && pruned.nextRecovery == full.nextRecovery
  }

  lemma RelatedLater(pruned: Tables, full: Tables, bound: int, later: int)
    requires Related(pruned, full, bound) && bound <= later
    ensures Related(pruned, full, later)
  {
    ThinnedLater(pruned.recoveries, full.recoveries, bound, later);
    ThinnedLater(pruned.events, full.events, bound, later);
  }

  // ----- recoveries -----

  lemma ReserveKeepsRelation(env: Env, pruned: Tables, full: Tables, bound: int, request: Request)
    requires Sound(env) && Related(pruned, full, bound)
    requires bound <= Second(request.now - HOUR) && bound <= Second(request.now - request.cooldown)
    ensures Answered(env, pruned, Reserving(request)) == Answered(env, full, Reserving(request))
    ensures Related(After(env, pruned, Reserving(request), false), After(env, full, Reserving(request), true), bound)
  {
    ThinnedDecision(env.recoveries, pruned.recoveries, full.recoveries, bound, request);
    ThinnedAppend(pruned.recoveries, full.recoveries, bound,
                  Row(full.nextRecovery, request.key, request.now, "reserved", false));
  }

  lemma {:induction false} ThinnedCompleted(p: seq<Row>, f: seq<Row>, bound: int, id: int, status: string)
    requires Thinned(p, f, bound)
    ensures Thinned(Completed(p, id, status), Completed(f, id, status), bound)
    decreases |f|
  {
    if f != [] {
      var front, last := f[..|f| - 1], f[|f| - 1];
      var after := Completed(f, id, status);
      assert after[..|f| - 1] == Completed(front, id, status);
      if p != [] && p[|p| - 1] == last && Thinned(p[..|p| - 1], front, bound) {
        ThinnedCompleted(p[..|p| - 1], front, bound, id, status);
        assert Completed(p, id, status)[..|p| - 1] == Completed(p[..|p| - 1], id, status);
      } else {
        ThinnedCompleted(p, front, bound, id, status);
      }
    }
  }

  // ----- reports -----

  lemma SameBudgeted(env: Env, p: seq<Row>, f: seq<Row>, bound: int, w: Workload, at: int)
    requires SecondAccurate(env.events, env.eventGone) && Thinned(p, f, bound)
    requires bound <= Second(at - HOUR) && bound <= Second(at - DAY)
    ensures Budgeted(env.parsers, env.events, p, w, at) == Budgeted(env.parsers, env.events, f, w, at)
  {
    if w.limits.Some? {
      SameExhausted(env.events, p, f, bound, w.key, at, w.limits.value);
    }
  }

  lemma SameExhausted(q: Query, p: seq<Row>, f: seq<Row>, bound: int, key: Key, at: int, limits: Limits)
    requires Thinned(p, f, bound) && forall t, s :: Second(t) < Second(s) ==> !q.seen(t, s)
    requires bound <= Second(at - HOUR) && bound <= Second(at - DAY)
    ensures ExhaustedBudgets(q, p, key, at, limits.maxPerHour, limits.maxPerDay)
         == ExhaustedBudgets(q, f, key, at, limits.maxPerHour, limits.maxPerDay)
  {
    ThinnedCount(q, p, f, bound, key, at - HOUR);
    ThinnedCount(q, p, f, bound, key, at - DAY);
  }

  lemma SameBudgets(env: Env, p: seq<Row>, f: seq<Row>, bound: int, ws: seq<Workload>, at: int)
    requires SecondAccurate(env.events, env.eventGone) && Thinned(p, f, bound)
    requires bound <= Second(at - HOUR) && bound <= Second(at - DAY)
    ensures BudgetedAll(env, p, ws, at) == BudgetedAll(env, f, ws, at)
  {
    forall i | 0 <= i < |ws| ensures BudgetedAll(env, p, ws, at)[i] == BudgetedAll(env, f, ws, at)[i] {
      SameBudgeted(env, p, f, bound, ws[i], at);
    }
  }

  lemma PruneKeepsRelation(env: Env, pruned: Tables, full: Tables, bound: int, retention: int, at: int)
    requires Sound(env) && Related(pruned, full, bound) && (retention > 0 ==> Second(at - retention) < bound)
    ensures Related(Pruned(env, pruned, retention, at, false), Pruned(env, full, retention, at, true), bound)
  {
    if PruneNow(full.lastPruned, retention, at) {
      ThinnedDelete(pruned.recoveries, full.recoveries, bound, env.recoveryGone, at - retention);
      ThinnedDelete(pruned.events, full.events, bound, env.eventGone, at - retention);
    }
  }

  /** The report decides before it prunes, so only `later` must lie beyond its own cutoff. */
  lemma ReportKeepsRelation(env: Env, pruned: Tables, full: Tables, bound: int, later: int, r: Report)
    requires Sound(env) && Related(pruned, full, bound) && bound <= later
    requires bound <= Second(r.at - HOUR) && bound <= Second(r.at - DAY)
    requires r.retention > 0 ==> Second(r.at - r.retention) < later
    ensures Gated(env, pruned, r) == Gated(env, full, r) && ProposalRows(env, pruned, r) == ProposalRows(env, full, r)
    ensures Related(Reconciled(env, pruned, r, false), Reconciled(env, full, r, true), later)
  {
    SameBudgets(env, pruned.events, full.events, bound, r.workloads, r.at);
    RelatedLater(pruned, full, bound, later);
    var p := pruned.(runs := RunsThen(env, pruned, r), items := ItemsThen(env, pruned, r));
    var f := full.(runs := RunsThen(env, full, r), items := ItemsThen(env, full, r));
    PruneKeepsRelation(env, p, f, later, r.retention, r.at);
    ThinnedAppendAll(Pruned(env, p, r.retention, r.at, false).events, Pruned(env, f, r.retention, r.at, true).events,
                     later, ProposalRows(env, full, r));
  }

  // ----- whole runs -----

  lemma StepKeepsRelation(env: Env, pruned: Tables, full: Tables, bound: int, later: int, op: Op)
    requires Sound(env) && Related(pruned, full, bound) && bound <= later
    requires Timed(op) && bound <= Second(Time(op) - Lookback(op))
    requires MayPrune(op) ==> Second(Cutoff(op)) < later
    ensures SameVerdict(Answered(env, pruned, op), Answered(env, full, op))
    ensures Related(After(env, pruned, op, false), After(env, full, op, true), later)
  {
    var start := Time(op) - Lookback(op);
    SecondsAreOrdered(start, Time(op) - HOUR);
    if op.Reserving? {
      SecondsAreOrdered(start, op.request.now - op.request.cooldown);
      ReserveKeepsRelation(env, pruned, full, bound, op.request);
      RelatedLater(After(env, pruned, op, false), After(env, full, op, true), bound, later);
    } else {
      ReportKeepsRelation(env, pruned, full, bound, later, op.report);
    }
  }

  lemma CompletionKeepsRelation(env: Env, pruned: Tables, full: Tables, bound: int, op: Op)
    requires Related(pruned, full, bound) && op.Completing?
    ensures SameVerdict(Answered(env, pruned, op), Answered(env, full, op))
    ensures Related(After(env, pruned, op, false), After(env, full, op, true), bound)
  {
    ThinnedCompleted(pruned.recoveries, full.recoveries, bound, op.id, op.status);
  }

  /** All pruned rows come from before the second `bound`. */
  ghost predicate Beyond(ops: seq<Op>, bound: int) {
    forall op :: op in ops && MayPrune(op) ==> Second(Cutoff(op)) < bound
  }

  lemma LastInView(front: seq<Op>, last: Op)
    requires InView(front + [last])
    ensures InView(front)
    ensures Timed(last) ==> Beyond(front, Second(Time(last) - Lookback(last)))
  {
    var ops := front + [last];
    forall i, j | 0 <= i < j < |front| && MayPrune(front[i]) && Timed(front[j])
      ensures Second(Cutoff(front[i])) < Second(Time(front[j]) - Lookback(front[j]))
    {
      assert ops[i] == front[i] && ops[j] == front[j];
    }
    if Timed(last) {
      forall op | op in front && MayPrune(op) ensures Second(Cutoff(op)) < Second(Time(last) - Lookback(last)) {
        var i :| 0 <= i < |front| && front[i] == op;
        assert ops[i] == op && ops[|front|] == last;
      }
    }
  }

  /** The store with pruning stays beside the store without. */
  lemma {:induction false} RunsAreRelated(env: Env, ops: seq<Op>, bound: int)
    requires Sound(env) && InView(ops) && Beyond(ops, bound)
    ensures SameVerdicts(Answers(env, ops, false), Answers(env, ops, true))
    ensures Related(Run(env, ops, false), Run(env, ops, true), bound)
  {
    if ops != [] {
      var front, last := ops[..|ops| - 1], ops[|ops| - 1];
      assert ops == front + [last];
      LastInView(front, last);
      if Timed(last) {
        var until := MinInt(bound, Second(Time(last) - Lookback(last)));
        RunsAreRelated(env, front, until);
        StepKeepsRelation(env, Run(env, front, false), Run(env, front, true), until, bound, last);
      } else {
        RunsAreRelated(env, front, bound);
        CompletionKeepsRelation(env, Run(env, front, false), Run(env, front, true), bound, last);
      }
    }
  }

  /** Beyond all cutoffs. */
  function Ahead(ops: seq<Op>): (bound: int)
    ensures Beyond(ops, bound)
  {
    if ops == [] then 0
    else
      var before, last := Ahead(ops[..|ops| - 1]), ops[|ops| - 1];
      assert ops == ops[..|ops| - 1] + [last];
      if MayPrune(last) then MaxInt(before, Second(Cutoff(last)) + 1) else before
  }

  // ----- when nothing is pruned too early -----

  /** No step is more than `drift` behind an earlier one. */
  ghost predicate Drifts(ops: seq<Op>, drift: int) {
    forall i, j :: 0 <= i < j < |ops| && Timed(ops[i]) && Timed(ops[j]) ==> Time(ops[i]) - drift <= Time(ops[j])
  }

  /** Every retention exceeds all that is looked back on by the drift and a second. */
  ghost predicate RetainedBeyond(ops: seq<Op>, drift: int) {
    forall op, other :: op in ops && MayPrune(op) && other in ops && Timed(other) ==>
      op.report.retention >= Lookback(other) + drift + NANOS_PER_SECOND
  }

  /** With an eye on the clock it is enough to choose the retention. */
  lemma DriftIsCovered(ops: seq<Op>, drift: int)
    requires Drifts(ops, drift) && RetainedBeyond(ops, drift)
    ensures InView(ops)
  {
    forall i, j | 0 <= i < j < |ops| && MayPrune(ops[i]) && Timed(ops[j])
      ensures Second(Cutoff(ops[i])) < Second(Time(ops[j]) - Lookback(ops[j]))
    {
      assert ops[i] in ops && ops[j] in ops && Timed(ops[i]);
      SecondsAreOrdered(Cutoff(ops[i]), Time(ops[j]) - Lookback(ops[j]));
    }
  }

  lemma StandardIsSound(parse: Gates.Parser, parsers: Batch.Parsers)
    ensures Sound(Standard(parse, parsers))
  {
    RecoveriesAreChronological();
    RecoveriesAreSecondAccurate();
    EventsAreSecondAccurate();
  }

  lemma VerdictsAgree(env: Env, ops: seq<Op>)
    requires Sound(env) && InView(ops)
    ensures SameVerdicts(Answers(env, ops, false), Answers(env, ops, true))
  {
    RunsAreRelated(env, ops, Ahead(ops));
  }

  /** Pruning is invisible to the limiters: every answer of the store is that of a store that keeps its rows. */
  lemma PruningIsInvisible(parse: Gates.Parser, parsers: Batch.Parsers, ops: seq<Op>)
    requires InView(ops)
    ensures SameVerdicts(Answers(Standard(parse, parsers), ops, false), Answers(Standard(parse, parsers), ops, true))
  {
    StandardIsSound(parse, parsers);
    VerdictsAgree(Standard(parse, parsers), ops);
  }

  // ----- granted recoveries -----

  function GrantOf(op: Op, answer: Answer): seq<Row> {
    if op.Reserving? && answer.Recovery? && answer.decision.Granted?
    then [Row(answer.id, op.request.key, op.request.now, "reserved", false)] else []
  }

  /** The recoveries that the answers grant, in their order. */
  function Grants(ops: seq<Op>, answers: seq<Answer>): seq<Row>
    requires |answers| == |ops|
  {
    if ops == [] then []
    else Grants(ops[..|ops| - 1], answers[..|ops| - 1]) + GrantOf(ops[|ops| - 1], answers[|ops| - 1])
  }

  lemma {:induction false} SameGrants(ops: seq<Op>, some: seq<Answer>, other: seq<Answer>)
    requires |ops| == |some| && SameVerdicts(some, other)
    ensures Grants(ops, some) == Grants(ops, other)
  {
    if ops != [] {
      SameGrants(ops[..|ops| - 1], some[..|ops| - 1], other[..|ops| - 1]);
      assert SameVerdict(some[|ops| - 1], other[|ops| - 1]);
    }
  }

  function Requests(ops: seq<Op>): seq<Request> {
    if ops == [] then []
    else
      var last := ops[|ops| - 1];
      Requests(ops[..|ops| - 1]) + if last.Reserving? then [last.request] else []
  }

  lemma {:induction false} RequestIsReserved(ops: seq<Op>, request: Request)
    requires request in Requests(ops)
    ensures Reserving(request) in ops
  {
    if request in Requests(ops[..|ops| - 1]) {
      RequestIsReserved(ops[..|ops| - 1], request);
    }
  }

  /** The same rows, identifiers and statuses aside. */
  ghost predicate Alike(some: seq<Row>, other: seq<Row>) {
    && |some| == |other|
    && forall i :: 0 <= i < |some| ==> some[i] == other[i].(id := some[i].id, status := some[i].status)
  }

  lemma {:induction false} AlikeCounts(q: Query, some: seq<Row>, other: seq<Row>, key: Key, since: int)
    requires IgnoresStatus(q) && Alike(some, other)
    ensures CountSince(q, some, key, since) == CountSince(q, other, key, since)
    ensures Latest(q, some, key) == Latest(q, other, key)
  {
    if some != [] {
      AlikeCounts(q, some[..|some| - 1], other[..|some| - 1], key, since);
      assert some[|some| - 1] == other[|some| - 1].(id := some[|some| - 1].id, status := some[|some| - 1].status);
    }
  }

  lemma {:induction false} AlikeWithin(q: Query, some: seq<Row>, other: seq<Row>, key: Key, from: int, to: int)
    requires IgnoresStatus(q) && Alike(some, other)
    ensures CountWithin(q, some, key, from, to) == CountWithin(q, other, key, from, to)
  {
    if some != [] {
      AlikeWithin(q, some[..|some| - 1], other[..|some| - 1], key, from, to);
      assert some[|some| - 1] == other[|some| - 1].(id := some[|some| - 1].id, status := some[|some| - 1].status);
    }
  }

  lemma RunReservesStep(q: Query, requests: seq<Request>, request: Request)
    ensures RunReserves(q, requests + [request])
         == AfterReserve(q, RunReserves(q, requests), |requests| + 1, request)
  {
    assert (requests + [request])[..|requests|] == requests;
  }

  lemma ReserveAlike(q: Query, some: seq<Row>, other: seq<Row>, id: int, ordinal: int, request: Request)
    requires IgnoresStatus(q) && Alike(some, other)
    ensures DecideRecovery(q, some, request.key, request.now, request.cooldown, request.maxPerHour)
         == DecideRecovery(q, other, request.key, request.now, request.cooldown, request.maxPerHour)
    ensures Alike(AfterReserve(q, some, id, request), AfterReserve(q, other, ordinal, request))
  {
    AlikeCounts(q, some, other, request.key, request.now - HOUR);
  }

  lemma CompletedAlike(rows: seq<Row>, id: int, status: string, other: seq<Row>)
    requires Alike(rows, other)
    ensures Alike(Completed(rows, id, status), other)
  {
  }

  lemma ReportsReserveNothing(env: Env, t: Tables, r: Report)
    ensures Reconciled(env, t, r, true).recoveries == t.recoveries
  {
  }

  lemma KeptStep(env: Env, t: Tables, op: Op, grants: seq<Row>, expected: seq<Row>, ordinal: int)
    requires IgnoresStatus(env.recoveries) && Alike(t.recoveries, expected) && Alike(grants, expected)
    ensures var next := if op.Reserving? then AfterReserve(env.recoveries, expected, ordinal, op.request) else expected;
      Alike(After(env, t, op, true).recoveries, next) && Alike(grants + GrantOf(op, Answered(env, t, op)), next)
  {
    match op
    case Reserving(request) =>
      ReserveAlike(env.recoveries, t.recoveries, expected, t.nextRecovery, ordinal, request);
    case Completing(id, status) =>
      CompletedAlike(t.recoveries, id, status, expected);
    case Reconciling(r) =>
      ReportsReserveNothing(env, t, r);
  }

  lemma RequestsStep(q: Query, front: seq<Op>, op: Op)
    ensures RunReserves(q, Requests(front + [op]))
         == if op.Reserving?
            then AfterReserve(q, RunReserves(q, Requests(front)), |Requests(front)| + 1, op.request)
            else RunReserves(q, Requests(front))
  {
    assert (front + [op])[..|front|] == front;
    if op.Reserving? {
      RunReservesStep(q, Requests(front), op.request);
    } else {
      assert Requests(front + [op]) == Requests(front);
    }
  }

  lemma GrantsStep(front: seq<Op>, op: Op, answers: seq<Answer>, answer: Answer)
    requires |answers| == |front|
    ensures Grants(front + [op], answers + [answer]) == Grants(front, answers) + GrantOf(op, answer)
  {
    assert (front + [op])[..|front|] == front && (answers + [answer])[..|front|] == answers;
  }

  /** A store that keeps its rows has, and grants, exactly what the run of its requests has. */
  ghost predicate KeepsReserves(env: Env, ops: seq<Op>) {
    var expected := RunReserves(env.recoveries, Requests(ops));
    Alike(Run(env, ops, true).recoveries, expected) && Alike(Grants(ops, Answers(env, ops, true)), expected)
  }

  lemma {:induction false} KeptRecoveries(env: Env, ops: seq<Op>)
    requires IgnoresStatus(env.recoveries)
    ensures KeepsReserves(env, ops)
  {
    if ops == [] {
      NoReserves(env, ops);
    } else {
      var front, last := ops[..|ops| - 1], ops[|ops| - 1];
      assert ops == front + [last];
      KeptRecoveries(env, front);
      KeptLast(env, front, last);
    }
  }

  lemma NoReserves(env: Env, ops: seq<Op>)
    requires ops == []
    ensures KeepsReserves(env, ops)
  {
  }

  lemma KeptLast(env: Env, front: seq<Op>, last: Op)
    requires IgnoresStatus(env.recoveries) && KeepsReserves(env, front)
    ensures KeepsReserves(env, front + [last])
  {
    var t, answers := Run(env, front, true), Answers(env, front, true);
    RunStep(env, front, last, true);
    KeptStep(env, t, last, Grants(front, answers), RunReserves(env.recoveries, Requests(front)), |Requests(front)| + 1);
    RequestsStep(env.recoveries, front, last);
    GrantsStep(front, last, answers, Answered(env, t, last));
  }

  lemma RecoveriesIgnoreStatus()
    ensures IgnoresStatus(RECOVERIES)
  {
  }

  lemma GrantsAreReserves(parse: Gates.Parser, parsers: Batch.Parsers, ops: seq<Op>)
    requires InView(ops)
    ensures Alike(Grants(ops, Answers(Standard(parse, parsers), ops, false)), RunReserves(RECOVERIES, Requests(ops)))
  {
    var env := Standard(parse, parsers);
    RecoveriesIgnoreStatus();
    PruningIsInvisible(parse, parsers, ops);
    SameGrants(ops, Answers(env, ops, false), Answers(env, ops, true));
    KeptRecoveries(env, ops);
  }

  /** The store never grants more than `limit` recoveries of one workload in any closed hour. */
  lemma StoreKeepsHourlyLimit(
      parse: Gates.Parser, parsers: Batch.Parsers, ops: seq<Op>, key: Key, limit: nat, from: int)
    requires InView(ops)
    requires forall op :: op in ops && op.Reserving? && op.request.key == key ==>
      Attempts(op.request.maxPerHour) <= limit
    ensures CountWithin(RECOVERIES, Grants(ops, Answers(Standard(parse, parsers), ops, false)), key, from, from + HOUR)
         <= limit
  {
    GrantsAreReserves(parse, parsers, ops);
    RecoveriesIgnoreStatus();
    AlikeWithin(RECOVERIES, Grants(ops, Answers(Standard(parse, parsers), ops, false)),
                RunReserves(RECOVERIES, Requests(ops)), key, from, from + HOUR);
    forall r | r in Requests(ops) && r.key == key ensures Attempts(r.maxPerHour) <= limit {
      RequestIsReserved(ops, r);
    }
    HourlyRecoveryBound(Requests(ops), key, limit, from);
  }

  /** Any two recoveries of one workload that the store grants are in order and the cooldown apart. */
  lemma StoreKeepsCooldown(
      parse: Gates.Parser, parsers: Batch.Parsers, ops: seq<Op>, key: Key, cooldown: int, i: nat, j: nat)
    requires InView(ops) && cooldown > 0
    requires forall op :: op in ops && op.Reserving? && op.request.key == key ==> op.request.cooldown >= cooldown
    requires i < j < |Grants(ops, Answers(Standard(parse, parsers), ops, false))|
    requires var grants := Grants(ops, Answers(Standard(parse, parsers), ops, false));
      grants[i].key == key && grants[j].key == key
    ensures var grants := Grants(ops, Answers(Standard(parse, parsers), ops, false));
      grants[i].time + cooldown <= grants[j].time
  {
    GrantsAreReserves(parse, parsers, ops);
    forall r | r in Requests(ops) && r.key == key ensures r.cooldown >= cooldown {
      RequestIsReserved(ops, r);
    }
    CooldownBetweenRecoveries(Requests(ops), key, cooldown, i, j);
  }

  // ----- recorded proposals -----

  function RecordOf(parsers: Batch.Parsers, op: Op, answer: Answer, id: int): seq<Row> {
    if op.Reconciling? && answer.Reported? && op.report.proposal.needed
    then EventRows(parsers, answer.workloads, id, StatusOf(op.report.proposal), op.report.at) else []
  }

  function WithRecords(parsers: Batch.Parsers, rows: seq<Row>, op: Op, answer: Answer): seq<Row> {
    rows + RecordOf(parsers, op, answer, 1 + |rows|)
  }

  /** The proposals that follow from the answers. */
  function Records(parsers: Batch.Parsers, ops: seq<Op>, answers: seq<Answer>): seq<Row>
    requires |answers| == |ops|
  {
    if ops == [] then []
    else
      var before := Records(parsers, ops[..|ops| - 1], answers[..|ops| - 1]);
      WithRecords(parsers, before, ops[|ops| - 1], answers[|ops| - 1])
  }

  lemma {:induction false} SameRecords(parsers: Batch.Parsers, ops: seq<Op>, some: seq<Answer>, other: seq<Answer>)
    requires |ops| == |some| && SameVerdicts(some, other)
    ensures Records(parsers, ops, some) == Records(parsers, ops, other)
  {
    if ops != [] {
      SameRecords(parsers, ops[..|ops| - 1], some[..|ops| - 1], other[..|ops| - 1]);
      assert SameVerdict(some[|ops| - 1], other[|ops| - 1]);
    }
  }

  /** The budget of the workload for one window, in all reports. */
  ghost predicate LimitedReports(ops: seq<Op>, key: Key, window: int, budget: int) {
    forall op :: op in ops && op.Reconciling? ==> LimitedTo(op.report.workloads, key, window, budget)
  }

  /** The gates leave keys and limits alone, and a plan that is still applyable has no exhausted budget. */
  lemma GatedIsCleared(env: Env, t: Tables, r: Report, key: Key, window: int, budget: int)
    requires Distinct(r.workloads) && LimitedTo(r.workloads, key, window, budget)
    ensures Distinct(Gated(env, t, r)) && LimitedTo(Gated(env, t, r), key, window, budget)
    ensures forall w :: w in Gated(env, t, r) ==> Cleared(env.parsers, env.events, t.events, w, r.at)
  {
    var gated := Gated(env, t, r);
    forall i | 0 <= i < |gated|
      ensures gated[i].key == r.workloads[i].key && gated[i].limits == r.workloads[i].limits
      ensures Cleared(env.parsers, env.events, t.events, gated[i], r.at)
    {
      GatedOne(env, t, r, i);
    }
    forall w | w in gated && w.key == key && w.limits.Some?
      ensures 0 < WindowLimit(w.limits.value, window) <= budget
    {
      var i :| 0 <= i < |gated| && gated[i] == w;
      assert r.workloads[i] in r.workloads;
    }
  }

  lemma GatedOne(env: Env, t: Tables, r: Report, i: nat)
    requires i < |r.workloads|
    ensures Gated(env, t, r)[i].key == r.workloads[i].key && Gated(env, t, r)[i].limits == r.workloads[i].limits
    ensures Cleared(env.parsers, env.events, t.events, Gated(env, t, r)[i], r.at)
  {
    BudgetedIsCleared(env.parsers, env.events, t.events, r.workloads[i], r.at);
  }

  lemma RecordsStep(parsers: Batch.Parsers, front: seq<Op>, op: Op, answers: seq<Answer>, answer: Answer)
    requires |answers| == |front|
    ensures Records(parsers, front + [op], answers + [answer])
         == WithRecords(parsers, Records(parsers, front, answers), op, answer)
  {
    assert (front + [op])[..|front|] == front && (answers + [answer])[..|front|] == answers;
  }

  /** The table is the record of proposals, and each of them was admitted by its budgets. */
  ghost predicate Recorded(env: Env, t: Tables, rows: seq<Row>, key: Key, window: int, budget: int) {
    && t.events == rows && t.nextEvent == 1 + |rows|
    && AllAdmitted(env.events, rows, key, window, budget)
  }

  /** A store that keeps its rows has exactly the recorded proposals. */
  lemma {:induction false} KeptEvents(env: Env, ops: seq<Op>, key: Key, window: int, budget: int)
    requires DistinctReports(ops) && LimitedReports(ops, key, window, budget) && window in {HOUR, DAY}
    ensures Recorded(env, Run(env, ops, true), Records(env.parsers, ops, Answers(env, ops, true)), key, window, budget)
  {
    if ops != [] {
      var front, last := ops[..|ops| - 1], ops[|ops| - 1];
      assert last in ops && forall op :: op in front ==> op in ops;
      KeptEvents(env, front, key, window, budget);
      LastIsRecorded(env, front, last, key, window, budget);
      assert ops == front + [last];
    }
  }

  lemma LastIsRecorded(env: Env, front: seq<Op>, last: Op, key: Key, window: int, budget: int)
    requires Recorded(env, Run(env, front, true), Records(env.parsers, front, Answers(env, front, true)),
                      key, window, budget)
    requires window in {HOUR, DAY}
    requires last.Reconciling? ==>
      Distinct(last.report.workloads) && LimitedTo(last.report.workloads, key, window, budget)
    ensures Recorded(env, Run(env, front + [last], true),
                     Records(env.parsers, front + [last], Answers(env, front + [last], true)), key, window, budget)
  {
    var answers := Answers(env, front, true);
    RunStep(env, front, last, true);
    RecordsStep(env.parsers, front, last, answers, Answered(env, Run(env, front, true), last));
    StepIsRecorded(env, Run(env, front, true), last, Records(env.parsers, front, answers), key, window, budget);
  }

  lemma StepIsRecorded(env: Env, t: Tables, op: Op, rows: seq<Row>, key: Key, window: int, budget: int)
    requires Recorded(env, t, rows, key, window, budget) && window in {HOUR, DAY}
    requires op.Reconciling? ==>
      Distinct(op.report.workloads) && LimitedTo(op.report.workloads, key, window, budget)
    ensures Recorded(env, After(env, t, op, true), WithRecords(env.parsers, rows, op, Answered(env, t, op)),
                     key, window, budget)
  {
    if op.Reconciling? {
      ReportIsAdmitted(env, t, op.report, key, window, budget);
    } else {
      assert rows + [] == rows;
    }
  }

  lemma ReportIsAdmitted(env: Env, t: Tables, r: Report, key: Key, window: int, budget: int)
    requires Distinct(r.workloads) && LimitedTo(r.workloads, key, window, budget)
    requires AllAdmitted(env.events, t.events, key, window, budget) && window in {HOUR, DAY}
    ensures Reconciled(env, t, r, true).events == t.events + ProposalRows(env, t, r)
    ensures Reconciled(env, t, r, true).nextEvent == t.nextEvent + |ProposalRows(env, t, r)|
    ensures AllAdmitted(env.events, t.events + ProposalRows(env, t, r), key, window, budget)
  {
    if r.proposal.needed {
      GatedIsCleared(env, t, r, key, window, budget);
      RecordingKeepsBudgets(env.parsers, env.events, t.events, Gated(env, t, r), t.nextEvent, StatusOf(r.proposal),
                            r.at, key, window, budget);
    } else {
      assert t.events + ProposalRows(env, t, r) == t.events;
    }
  }

  lemma RecordsAreAdmitted(
      parse: Gates.Parser, parsers: Batch.Parsers, ops: seq<Op>, key: Key, window: int, budget: int)
    requires InView(ops)
    requires DistinctReports(ops) && LimitedReports(ops, key, window, budget) && window in {HOUR, DAY}
    ensures var rows := Records(parsers, ops, Answers(Standard(parse, parsers), ops, false));
      AllAdmitted(EVENTS, rows, key, window, budget)
  {
    var env := Standard(parse, parsers);
    PruningIsInvisible(parse, parsers, ops);
    SameRecords(parsers, ops, Answers(env, ops, false), Answers(env, ops, true));
    KeptEvents(env, ops, key, window, budget);
  }

  /** The proposals that the store lets through keep a budget in every interval a second short of its window. */
  lemma StoreKeepsBudgets(
      parse: Gates.Parser, parsers: Batch.Parsers, ops: seq<Op>, key: Key, window: int, budget: nat, from: int)
    requires InView(ops)
    requires DistinctReports(ops) && LimitedReports(ops, key, window, budget) && window in {HOUR, DAY}
    ensures CountWithin(EVENTS, Records(parsers, ops, Answers(Standard(parse, parsers), ops, false)), key,
                        from, from + window - NANOS_PER_SECOND)
         <= budget
  {
    var rows := Records(parsers, ops, Answers(Standard(parse, parsers), ops, false));
    RecordsAreAdmitted(parse, parsers, ops, key, window, budget);
    ASecondShort(rows, from, window);
    IntervalBound(EVENTS, rows, key, window, budget, from, window - NANOS_PER_SECOND);
  }

  ghost predicate ReportsAt(ops: seq<Op>, times: iset<int>) {
    forall op :: op in ops && op.Reconciling? ==> op.report.at in times
  }

  lemma {:induction false} RecordTimes(
      parsers: Batch.Parsers, ops: seq<Op>, answers: seq<Answer>, times: iset<int>, r: Row)
    requires |answers| == |ops| && ReportsAt(ops, times) && r in Records(parsers, ops, answers)
    ensures r.time in times
  {
    var front, last := ops[..|ops| - 1], ops[|ops| - 1];
    assert last in ops && forall op :: op in front ==> op in ops;
    var before := Records(parsers, front, answers[..|ops| - 1]);
    if r in before {
      RecordTimes(parsers, front, answers[..|ops| - 1], times, r);
    } else {
      EventRowIsOf(parsers, answers[|ops| - 1].workloads, 1 + |before|, StatusOf(last.report.proposal),
                   last.report.at, r);
    }
  }

  /** And in every full window, if no report is hidden from the window of another. */
  lemma StoreKeepsFullWindow(
      parse: Gates.Parser, parsers: Batch.Parsers, ops: seq<Op>, times: iset<int>, key: Key, window: int, budget: nat,
      from: int)
    requires InView(ops)
    requires DistinctReports(ops) && LimitedReports(ops, key, window, budget) && window in {HOUR, DAY}
    requires ReportsAt(ops, times) && WellOrdered(times, window)
    ensures CountWithin(EVENTS, Records(parsers, ops, Answers(Standard(parse, parsers), ops, false)), key,
                        from, from + window)
         <= budget
  {
    var answers := Answers(Standard(parse, parsers), ops, false);
    RecordsAreAdmitted(parse, parsers, ops, key, window, budget);
    forall r | r in Records(parsers, ops, answers) ensures r.time in times {
      RecordTimes(parsers, ops, answers, times, r);
    }
    WellOrderedIsVisible(Records(parsers, ops, answers), times, from, window);
    IntervalBound(EVENTS, Records(parsers, ops, answers), key, window, budget, from, window);
  }

  // ----- workloads that are always under a budget -----

  /** In every report the workload is proposed under limits, without an enabled recovery. */
  ghost predicate AlwaysBudgeted(ops: seq<Op>, key: Key) {
    forall op, w :: op in ops && op.Reconciling? && w in op.report.workloads && w.key == key ==> Proposing(w)
  }

  ghost predicate Proposing(w: Workload) {
    w.mode == "propose" && w.limits.Some? && !w.urgency.recoveryEnabled
  }

  lemma {:induction false} BudgetedRow(
      parsers: Batch.Parsers, ws: seq<Workload>, id: int, status: string, now: int, r: Row)
    requires forall w :: w in ws && w.key == r.key ==> Proposing(w)
    requires r in EventRows(parsers, ws, id, status, now)
    ensures !r.bypassed
  {
    var front, last := ws[..|ws| - 1], ws[|ws| - 1];
    assert last in ws && forall w :: w in front ==> w in ws;
    if r in EventRows(parsers, front, id, status, now) {
      BudgetedRow(parsers, front, id, status, now, r);
    }
  }

  /** The gates change nothing but plans. */
  lemma GatesChangePlansOnly(env: Env, t: Tables, r: Report, i: nat)
    requires i < |r.workloads|
    ensures Gated(env, t, r)[i] == r.workloads[i].(plan := Gated(env, t, r)[i].plan)
  {
  }

  lemma GatedStaysProposing(env: Env, t: Tables, r: Report, key: Key)
    requires forall w :: w in r.workloads && w.key == key ==> Proposing(w)
    ensures forall w :: w in Gated(env, t, r) && w.key == key ==> Proposing(w)
  {
    forall w | w in Gated(env, t, r) && w.key == key ensures Proposing(w) {
      var i :| 0 <= i < |r.workloads| && Gated(env, t, r)[i] == w;
      GatesChangePlansOnly(env, t, r, i);
      assert r.workloads[i] in r.workloads;
    }
  }

  /** No proposal of the workload has been let past the budgets. */
  ghost predicate NoneBypassed(rows: seq<Row>, key: Key) {
    forall r :: r in rows && r.key == key ==> !r.bypassed
  }

  lemma {:induction false} RecordsAreBudgeted(env: Env, ops: seq<Op>, keep: bool, key: Key)
    requires AlwaysBudgeted(ops, key)
    ensures NoneBypassed(Records(env.parsers, ops, Answers(env, ops, keep)), key)
  {
    if ops != [] {
      var front, last := ops[..|ops| - 1], ops[|ops| - 1];
      assert last in ops && forall op :: op in front ==> op in ops;
      RecordsAreBudgeted(env, front, keep, key);
      LastIsBudgeted(env, front, last, keep, key);
      assert ops == front + [last];
    }
  }

  lemma LastIsBudgeted(env: Env, front: seq<Op>, last: Op, keep: bool, key: Key)
    requires NoneBypassed(Records(env.parsers, front, Answers(env, front, keep)), key) && AlwaysBudgeted([last], key)
    ensures NoneBypassed(Records(env.parsers, front + [last], Answers(env, front + [last], keep)), key)
  {
    var answers, t := Answers(env, front, keep), Run(env, front, keep);
    RunStep(env, front, last, keep);
    RecordsStep(env.parsers, front, last, answers, Answered(env, t, last));
    StepIsBudgeted(env, t, last, Records(env.parsers, front, answers), key);
  }

  lemma StepIsBudgeted(env: Env, t: Tables, op: Op, rows: seq<Row>, key: Key)
    requires NoneBypassed(rows, key) && AlwaysBudgeted([op], key)
    ensures NoneBypassed(WithRecords(env.parsers, rows, op, Answered(env, t, op)), key)
  {
    assert op in [op];
    forall r | r in RecordOf(env.parsers, op, Answered(env, t, op), 1 + |rows|) && r.key == key ensures !r.bypassed {
      GatedStaysProposing(env, t, op.report, key);
      BudgetedRow(env.parsers, Gated(env, t, op.report), 1 + |rows|, StatusOf(op.report.proposal), op.report.at, r);
    }
  }

  /** The stored proposals of the workload in a closed interval, without failed and blocked ones. */
  ghost function StoredWithin(rows: seq<Row>, key: Key, from: int, to: int): set<int> {
    set i | 0 <= i < |rows| && rows[i].key == key && rows[i].status != "failed" && rows[i].status != "blocked"
            && from <= rows[i].time <= to
  }

  lemma {:induction false} StoredIsCounted(q: Query, rows: seq<Row>, key: Key, from: int, to: int)
    requires CountsProposals(q)
    requires NoneBypassed(rows, key)
    ensures CountWithin(q, rows, key, from, to) == |StoredWithin(rows, key, from, to)|
  {
    if rows != [] {
      var n, front, last := |rows| - 1, rows[..|rows| - 1], rows[|rows| - 1];
      assert last in rows && forall r :: r in front ==> r in rows;
      StoredIsCounted(q, front, key, from, to);
      assert StoredWithin(rows, key, from, to)
          == StoredWithin(front, key, from, to) + if Within(q, last, key, from, to) then {n} else {};
    }
  }

  ghost predicate CountsProposals(q: Query) {
    forall status :: q.counts(status) <==> status != "failed" && status != "blocked"
  }

  lemma EventsCountProposals()
    ensures CountsProposals(EVENTS)
  {
  }

  /** The limit of the workload in all reports, for the last hour or the last day. */
  ghost predicate AlwaysLimited(ops: seq<Op>, key: Key, window: int, budget: nat) {
    forall op, w :: op in ops && op.Reconciling? && w in op.report.workloads && w.key == key && w.limits.Some? ==>
      || (window == 3600000000000 && 0 < w.limits.value.maxPerHour <= budget)
      || (window == 86400000000000 && 0 < w.limits.value.maxPerDay <= budget)
  }

  /**
   * The limit of a workload that is always under a budget, over everything that is ever stored: no closed interval that
   * is a second shorter than the window holds more of its proposals.
   */
  lemma AllProposalsKeepTheLimit(
      parse: Gates.Parser, parsers: Batch.Parsers, ops: seq<Op>, key: Key, window: int, budget: nat, from: int)
    requires InView(ops) && DistinctReports(ops) && window in {3600000000000, 86400000000000}
    requires AlwaysBudgeted(ops, key) && AlwaysLimited(ops, key, window, budget)
    ensures var stored := Records(parsers, ops, Answers(Standard(parse, parsers), ops, false));
      |StoredWithin(stored, key, from, from + window - 1000000000)| <= budget
  {
    AlwaysLimitedReports(ops, key, window, budget);
    StoreKeepsBudgets(parse, parsers, ops, key, window, budget, from);
    StoredRecords(parse, parsers, ops, key, from, from + window - NANOS_PER_SECOND);
  }

  /** And none that is as long as the window, if no report is hidden from the window of another. */
  lemma AllProposalsKeepFullWindow(
      parse: Gates.Parser, parsers: Batch.Parsers, ops: seq<Op>, times: iset<int>, key: Key, window: int, budget: nat,
      from: int)
    requires InView(ops) && DistinctReports(ops) && window in {3600000000000, 86400000000000}
    requires AlwaysBudgeted(ops, key) && AlwaysLimited(ops, key, window, budget)
    requires ReportsAt(ops, times) && WellOrdered(times, window)
    ensures var stored := Records(parsers, ops, Answers(Standard(parse, parsers), ops, false));
      |StoredWithin(stored, key, from, from + window)| <= budget
  {
    AlwaysLimitedReports(ops, key, window, budget);
    StoreKeepsFullWindow(parse, parsers, ops, times, key, window, budget, from);
    StoredRecords(parse, parsers, ops, key, from, from + window);
  }

  lemma StoredRecords(parse: Gates.Parser, parsers: Batch.Parsers, ops: seq<Op>, key: Key, from: int, to: int)
    requires AlwaysBudgeted(ops, key)
    ensures var stored := Records(parsers, ops, Answers(Standard(parse, parsers), ops, false));
      CountWithin(EVENTS, stored, key, from, to) == |StoredWithin(stored, key, from, to)|
  {
    var env := Standard(parse, parsers);
    RecordsAreBudgeted(env, ops, false, key);
    EventsCountProposals();
    StoredIsCounted(EVENTS, Records(parsers, ops, Answers(env, ops, false)), key, from, to);
  }

  lemma AlwaysLimitedReports(ops: seq<Op>, key: Key, window: int, budget: nat)
    requires AlwaysLimited(ops, key, window, budget)
    ensures LimitedReports(ops, key, window, budget)
  {
    forall op | op in ops && op.Reconciling? ensures LimitedTo(op.report.workloads, key, window, budget) {
      forall w | w in op.report.workloads && w.key == key && w.limits.Some?
        ensures 0 < WindowLimit(w.limits.value, window) <= budget
      {
      }
    }
  }

  /** Every plan that is ready when the proposal is recorded is among them. */
  lemma {:induction false} EveryProposalIsStored(
      parsers: Batch.Parsers, ops: seq<Op>, answers: seq<Answer>, n: nat, i: nat)
    requires n < |ops| == |answers| && ops[n].Reconciling? && answers[n].Reported? && ops[n].report.proposal.needed
    requires i < |answers[n].workloads| && Ready(answers[n].workloads[i])
    ensures HasRow(Records(parsers, ops, answers), answers[n].workloads[i].key, ops[n].report.at,
                   StatusOf(ops[n].report.proposal))
  {
    var front := ops[..|ops| - 1];
    var before, rows := Records(parsers, front, answers[..|ops| - 1]), Records(parsers, ops, answers);
    var key, at, status := answers[n].workloads[i].key, ops[n].report.at, StatusOf(ops[n].report.proposal);
    if n < |front| {
      EveryProposalIsStored(parsers, front, answers[..|ops| - 1], n, i);
      var r :| r in before && r.key == key && r.time == at && r.status == status;
      assert r in rows;
    } else {
      var more := EventRows(parsers, answers[n].workloads, 1 + |before|, status, at);
      EventRowOf(parsers, answers[n].workloads, 1 + |before|, status, at, i);
      var r :| r in more && r.key == key && r.time == at && r.status == status;
      assert r in rows;
    }
  }
}
