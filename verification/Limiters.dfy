/**
 * The sliding-window limiters over persisted rows: pod recoveries (internal/state/availability_recovery.go)
 * and proposal budgets (internal/state/proposal_budget.go). All times are nanoseconds; rows are compared by their
 * stored text.
 */
module Limiters {
  import opened Options
  import opened Timestamps

  datatype Key = Key(application: string, namespace_: string, workload: string)

  /**
   * A row of either table. `bypassed` is not a column and no query reads it: it records that the row was
   * inserted without asking the limiter.
   */
  datatype Row = Row(id: int, key: Key, time: int, status: string, bypassed: bool)

  /** How a table is read: is a row at the first time seen since the second, and which statuses count? */
  datatype Query = Query(seen: (int, int) -> bool, counts: string -> bool)

  /** Recoveries are stored with nine fraction digits, and every reservation counts. */
  const RECOVERIES := Query((time, since) => !TextLess(FixedText(time), FixedText(since)), _ => true)

  /** Proposals are stored as RFC3339Nano; failed and blocked ones do not use up a budget. */
  const EVENTS := Query((time, since) => !TextLess(NanoText(time), NanoText(since)),
                        status => status !in {"failed", "blocked"})

  predicate Matches(q: Query, row: Row, key: Key, since: int) {
    row.key == key && q.counts(row.status) && q.seen(row.time, since)
  }

  /** `SELECT COUNT(*) ... WHERE time >= since`. */
  function CountSince(q: Query, rows: seq<Row>, key: Key, since: int): nat {
    if rows == [] then 0
    else
      CountSince(q, rows[..|rows| - 1], key, since)
      + if Matches(q, rows[|rows| - 1], key, since) then 1 else 0
  }

  /** `SELECT attempted_at ... ORDER BY attempted_at DESC LIMIT 1`. */
  function Latest(q: Query, rows: seq<Row>, key: Key): Option<int> {
    if rows == [] then None
    else
      var earlier, last := Latest(q, rows[..|rows| - 1], key), rows[|rows| - 1];
      if last.key != key then earlier
      else if earlier.Some? && !q.seen(last.time, earlier.value) then earlier
      else Some(last.time)
  }

  // ----- decisions -----

  datatype Decision = Granted | CoolingDown(until: int) | LimitReached(count: nat)

  const DEFAULT_ATTEMPTS := 6

  function Attempts(maxPerHour: int): int {
    if maxPerHour <= 0 then DEFAULT_ATTEMPTS else maxPerHour
  }

  function DecideRecovery(q: Query, rows: seq<Row>, key: Key, now: int, cooldown: int, maxPerHour: int): Decision {
    var latest := Latest(q, rows, key);
    if latest.Some? && cooldown > 0 && now < latest.value + cooldown then CoolingDown(latest.value + cooldown)
    else
      var attempts := CountSince(q, rows, key, now - HOUR);
      if attempts >= Attempts(maxPerHour) then LimitReached(attempts) else Granted
  }

  /** The budgets that are exhausted; limits that are not positive mean none. */
  function ExhaustedBudgets(
      q: Query, rows: seq<Row>, key: Key, now: int, maxPerHour: int, maxPerDay: int): seq<Decision> {
    var hour, day := CountSince(q, rows, key, now - HOUR), CountSince(q, rows, key, now - DAY);
    (if maxPerHour > 0 && hour >= maxPerHour then [LimitReached(hour)] else [])
    + (if maxPerDay > 0 && day >= maxPerDay then [LimitReached(day)] else [])
  }

  // ----- intervals -----

  /** Rows of `key` that went through the limiter, in the closed interval from `from` to `to`. */
  predicate Within(q: Query, row: Row, key: Key, from: int, to: int) {
    row.key == key && q.counts(row.status) && !row.bypassed && from <= row.time <= to
  }

  function CountWithin(q: Query, rows: seq<Row>, key: Key, from: int, to: int): nat {
    if rows == [] then 0
    else
      CountWithin(q, rows[..|rows| - 1], key, from, to)
      + if Within(q, rows[|rows| - 1], key, from, to) then 1 else 0
  }

  /** The row was inserted when the window before it held fewer than `limit` rows. */
  ghost predicate Admitted(q: Query, earlier: seq<Row>, row: Row, window: int, limit: int) {
    row.bypassed || !q.counts(row.status) || CountSince(q, earlier, row.key, row.time - window) < limit
  }

  /** Every row of `key` was admitted when it was inserted. */
  ghost predicate AllAdmitted(q: Query, rows: seq<Row>, key: Key, window: int, limit: int) {
    rows == []
    || (&& AllAdmitted(q, rows[..|rows| - 1], key, window, limit)
        && (rows[|rows| - 1].key == key ==> Admitted(q, rows[..|rows| - 1], rows[|rows| - 1], window, limit)))
  }

  lemma {:induction false} WithinIsCounted(q: Query, rows: seq<Row>, key: Key, from: int, to: int, since: int)
    requires forall r :: r in rows && from <= r.time ==> q.seen(r.time, since)
    ensures CountWithin(q, rows, key, from, to) <= CountSince(q, rows, key, since)
  {
    if rows != [] {
      assert rows[|rows| - 1] in rows && forall r :: r in rows[..|rows| - 1] ==> r in rows;
      WithinIsCounted(q, rows[..|rows| - 1], key, from, to, since);
    }
  }

  /** Rows of one closed interval of length `span` are visible from each other's windows. */
  ghost predicate Visible(q: Query, rows: seq<Row>, from: int, span: int, window: int) {
    forall r, s :: r in rows && s in rows && from <= r.time && s.time <= from + span ==>
      q.seen(r.time, s.time - window)
  }

  /** The sliding window at work. The order of insertion is arbitrary, so the clock may run backwards. */
  lemma {:induction false} IntervalBound(
      q: Query, rows: seq<Row>, key: Key, window: int, limit: nat, from: int, span: int)
    requires AllAdmitted(q, rows, key, window, limit) && Visible(q, rows, from, span, window)
    ensures CountWithin(q, rows, key, from, from + span) <= limit
  {
    if rows != [] {
      var earlier, last := rows[..|rows| - 1], rows[|rows| - 1];
      assert last in rows && forall r :: r in earlier ==> r in rows;
      IntervalBound(q, earlier, key, window, limit, from, span);
      if Within(q, last, key, from, from + span) {
        WithinIsCounted(q, earlier, key, from, from + span, last.time - window);
      }
    }
  }

  // ----- recoveries over whole runs -----

  datatype Request = Request(key: Key, now: int, cooldown: int, maxPerHour: int)

  function AfterReserve(q: Query, rows: seq<Row>, id: int, r: Request): seq<Row> {
    if DecideRecovery(q, rows, r.key, r.now, r.cooldown, r.maxPerHour).Granted?
    then rows + [Row(id, r.key, r.now, "reserved", false)] else rows
  }

  function RunReserves(q: Query, requests: seq<Request>): seq<Row> {
    if requests == [] then []
    else AfterReserve(q, RunReserves(q, requests[..|requests| - 1]), |requests|, requests[|requests| - 1])
  }

  lemma AdmittedAppend(q: Query, rows: seq<Row>, row: Row, key: Key, window: int, limit: int)
    requires AllAdmitted(q, rows, key, window, limit)
    requires row.key == key ==> Admitted(q, rows, row, window, limit)
    ensures AllAdmitted(q, rows + [row], key, window, limit)
  {
    assert (rows + [row])[..|rows|] == rows;
  }

  lemma ReserveAdmitted(q: Query, rows: seq<Row>, id: int, r: Request, key: Key, limit: int)
    requires AllAdmitted(q, rows, key, HOUR, limit) && (r.key == key ==> Attempts(r.maxPerHour) <= limit)
    ensures AllAdmitted(q, AfterReserve(q, rows, id, r), key, HOUR, limit)
  {
    if DecideRecovery(q, rows, r.key, r.now, r.cooldown, r.maxPerHour).Granted? {
      AdmittedAppend(q, rows, Row(id, r.key, r.now, "reserved", false), key, HOUR, limit);
    }
  }

  lemma {:induction false} ReservesAdmitted(q: Query, requests: seq<Request>, key: Key, limit: int)
    requires forall r :: r in requests && r.key == key ==> Attempts(r.maxPerHour) <= limit
    ensures AllAdmitted(q, RunReserves(q, requests), key, HOUR, limit)
  {
    if requests != [] {
      var front, last := requests[..|requests| - 1], requests[|requests| - 1];
      assert last in requests && forall r :: r in front ==> r in requests;
      ReservesAdmitted(q, front, key, limit);
      ReserveAdmitted(q, RunReserves(q, front), |requests|, last, key, limit);
    }
  }

  lemma RecoveriesSeen(time: int, since: int)
    ensures RECOVERIES.seen(time, since) <==> since <= time
  {
    FixedTextIsChronological(time, since);
  }

  /**
   * Whatever the order of the request times, at most `limit` recoveries of one workload are granted in any
   * closed hour.
   */
  lemma HourlyRecoveryBound(requests: seq<Request>, key: Key, limit: nat, from: int)
    requires forall r :: r in requests && r.key == key ==> Attempts(r.maxPerHour) <= limit
    ensures CountWithin(RECOVERIES, RunReserves(RECOVERIES, requests), key, from, from + HOUR) <= limit
  {
    var rows := RunReserves(RECOVERIES, requests);
    ReservesAdmitted(RECOVERIES, requests, key, limit);
    forall r, s | r in rows && s in rows && from <= r.time && s.time <= from + HOUR
      ensures RECOVERIES.seen(r.time, s.time - HOUR)
    {
      RecoveriesSeen(r.time, s.time - HOUR);
    }
    IntervalBound(RECOVERIES, rows, key, HOUR, limit, from, HOUR);
  }

  ghost predicate Chronological(q: Query) {
    forall t, s :: q.seen(t, s) <==> s <= t
  }

  lemma RecoveriesAreChronological()
    ensures Chronological(RECOVERIES)
  {
    forall t, s ensures RECOVERIES.seen(t, s) <==> s <= t {
      RecoveriesSeen(t, s);
    }
  }

  lemma {:induction false} LatestIsMaximum(q: Query, rows: seq<Row>, key: Key)
    requires Chronological(q)
    ensures Latest(q, rows, key).None? <==> forall r :: r in rows ==> r.key != key
    ensures Latest(q, rows, key).Some? ==>
      forall r :: r in rows && r.key == key ==> r.time <= Latest(q, rows, key).value
    ensures Latest(q, rows, key).Some? ==> exists r :: r in rows && r.key == key && r.time == Latest(q, rows, key).value
  {
    if rows != [] {
      var front, last := rows[..|rows| - 1], rows[|rows| - 1];
      LatestIsMaximum(q, front, key);
      assert rows == front + [last];
      assert last in rows && forall r :: r in front ==> r in rows;
    }
  }

  lemma {:induction false} CooldownApart(q: Query, requests: seq<Request>, key: Key, cooldown: int, i: nat, j: nat)
    requires Chronological(q)
    requires cooldown > 0 && forall r :: r in requests && r.key == key ==> r.cooldown >= cooldown
    requires i < j < |RunReserves(q, requests)|
    requires RunReserves(q, requests)[i].key == key && RunReserves(q, requests)[j].key == key
    ensures RunReserves(q, requests)[i].time + cooldown <= RunReserves(q, requests)[j].time
  {
    var front, last := requests[..|requests| - 1], requests[|requests| - 1];
    assert last in requests && forall r :: r in front ==> r in requests;
    var before := RunReserves(q, front);
    if j < |before| {
      CooldownApart(q, front, key, cooldown, i, j);
    } else {
      assert before[i] in before;
      LatestIsMaximum(q, before, key);
    }
  }

  /** Granted recoveries of one workload are in time order and at least the cooldown apart. */
  lemma CooldownBetweenRecoveries(requests: seq<Request>, key: Key, cooldown: int, i: nat, j: nat)
    requires cooldown > 0 && forall r :: r in requests && r.key == key ==> r.cooldown >= cooldown
    requires i < j < |RunReserves(RECOVERIES, requests)|
    requires RunReserves(RECOVERIES, requests)[i].key == key && RunReserves(RECOVERIES, requests)[j].key == key
    ensures RunReserves(RECOVERIES, requests)[i].time + cooldown <= RunReserves(RECOVERIES, requests)[j].time
  {
    RecoveriesAreChronological();
    CooldownApart(RECOVERIES, requests, key, cooldown, i, j);
  }

  // ----- what the decisions mean -----

  /** The count of the query is the number of matching rows. */
  lemma {:induction false} CountIsSize(q: Query, rows: seq<Row>, key: Key, since: int)
    ensures CountSince(q, rows, key, since) == |set i | 0 <= i < |rows| && Matches(q, rows[i], key, since)|
  {
    if rows != [] {
      var front, n := rows[..|rows| - 1], |rows| - 1;
      CountIsSize(q, front, key, since);
      var some := set i | 0 <= i < |front| && Matches(q, front[i], key, since);
      var all := set i | 0 <= i < |rows| && Matches(q, rows[i], key, since);
      assert all == some + if Matches(q, rows[n], key, since) then {n} else {};
    }
  }

  /** The rows of the workload since the time, whatever their status. */
  ghost function AttemptsSince(rows: seq<Row>, key: Key, since: int): set<int> {
    set i | 0 <= i < |rows| && rows[i].key == key && since <= rows[i].time
  }

  /**
   * A recovery is granted exactly if every earlier attempt lies the cooldown back and the last 3600 seconds hold fewer
   * than the limit, which is six where none is set.
   */
  lemma GrantedExactly(rows: seq<Row>, key: Key, now: int, cooldown: int, maxPerHour: int)
    ensures DecideRecovery(RECOVERIES, rows, key, now, cooldown, maxPerHour) == Granted
       <==> && (cooldown > 0 ==> forall r :: r in rows && r.key == key ==> r.time + cooldown <= now)
            && |AttemptsSince(rows, key, now - 3600000000000)| < if maxPerHour <= 0 then 6 else maxPerHour
  {
    RecoveriesAreChronological();
    AttemptsAreCounted(RECOVERIES, rows, key, now - HOUR);
    LatestIsMaximum(RECOVERIES, rows, key);
    DecidedBy(RECOVERIES, rows, key, now, cooldown, maxPerHour);
  }

  lemma AttemptsAreCounted(q: Query, rows: seq<Row>, key: Key, since: int)
    requires Chronological(q) && forall s :: q.counts(s)
    ensures CountSince(q, rows, key, since) == |AttemptsSince(rows, key, since)|
  {
    CountIsSize(q, rows, key, since);
    assert AttemptsSince(rows, key, since) == set i | 0 <= i < |rows| && Matches(q, rows[i], key, since);
  }

  lemma DecidedBy(q: Query, rows: seq<Row>, key: Key, now: int, cooldown: int, maxPerHour: int)
    ensures DecideRecovery(q, rows, key, now, cooldown, maxPerHour) == Granted
       <==> && !(Latest(q, rows, key).Some? && cooldown > 0 && now < Latest(q, rows, key).value + cooldown)
            && CountSince(q, rows, key, now - 3600000000000) < if maxPerHour <= 0 then 6 else maxPerHour
  {
  }

  /** The proposals of the workload since the time by its text, without failed and blocked ones. */
  ghost function ProposalsSince(rows: seq<Row>, key: Key, since: int): set<int> {
    set i | 0 <= i < |rows| && rows[i].key == key && rows[i].status != "failed" && rows[i].status != "blocked"
            && !TextLess(NanoText(rows[i].time), NanoText(since))
  }

  /** Some budget is exhausted exactly if the hour or the day before holds as many proposals as its positive limit. */
  lemma ExhaustedExactly(rows: seq<Row>, key: Key, now: int, maxPerHour: int, maxPerDay: int)
    ensures ExhaustedBudgets(EVENTS, rows, key, now, maxPerHour, maxPerDay) != []
       <==> || 0 < maxPerHour <= |ProposalsSince(rows, key, now - 3600000000000)|
            || 0 < maxPerDay <= |ProposalsSince(rows, key, now - 86400000000000)|
  {
    ProposalsAreCounted(rows, key, now - HOUR);
    ProposalsAreCounted(rows, key, now - DAY);
    ExhaustedBy(EVENTS, rows, key, now, maxPerHour, maxPerDay);
  }

  lemma ProposalsAreCounted(rows: seq<Row>, key: Key, since: int)
    ensures CountSince(EVENTS, rows, key, since) == |ProposalsSince(rows, key, since)|
  {
    CountIsSize(EVENTS, rows, key, since);
    assert ProposalsSince(rows, key, since) == set i | 0 <= i < |rows| && Matches(EVENTS, rows[i], key, since) by {
      forall i | 0 <= i < |rows|
        ensures Matches(EVENTS, rows[i], key, since) <==> i in ProposalsSince(rows, key, since)
      {
        SeenIsText(rows[i].time, since);
      }
    }
  }

  lemma ExhaustedBy(q: Query, rows: seq<Row>, key: Key, now: int, maxPerHour: int, maxPerDay: int)
    ensures ExhaustedBudgets(q, rows, key, now, maxPerHour, maxPerDay) != []
       <==> || 0 < maxPerHour <= CountSince(q, rows, key, now - 3600000000000)
            || 0 < maxPerDay <= CountSince(q, rows, key, now - 86400000000000)
  {
  }

  // ----- budgets over whole runs -----

  /** One reconcile of one workload that ends in a recorded proposal, unless a budget blocks it. */
  datatype Proposal = Proposal(key: Key, now: int, maxPerHour: int, maxPerDay: int, bypassed: bool, status: string)

  function AfterProposal(q: Query, rows: seq<Row>, id: int, p: Proposal): seq<Row> {
    if p.bypassed || ExhaustedBudgets(q, rows, p.key, p.now, p.maxPerHour, p.maxPerDay) == []
    then rows + [Row(id, p.key, p.now, p.status, p.bypassed)] else rows
  }

  function RunProposals(q: Query, proposals: seq<Proposal>): seq<Row> {
    if proposals == [] then []
    else AfterProposal(q, RunProposals(q, proposals[..|proposals| - 1]), |proposals|, proposals[|proposals| - 1])
  }

  /** The limit of a proposal for one of the two windows; if it is not positive there is none. */
  function LimitOf(p: Proposal, window: int): int {
    if window == HOUR then p.maxPerHour else p.maxPerDay
  }

  /** All proposals of the workload that are subject to budgets have one for this window, of at most `budget`. */
  ghost predicate LimitedIn(proposals: seq<Proposal>, key: Key, window: int, budget: int) {
    forall p :: p in proposals && p.key == key && !p.bypassed ==> 0 < LimitOf(p, window) <= budget
  }

  lemma ProposalAdmitted(q: Query, rows: seq<Row>, id: int, p: Proposal, key: Key, window: int, budget: int)
    requires AllAdmitted(q, rows, key, window, budget) && window in {HOUR, DAY}
    requires p.key == key && !p.bypassed ==> 0 < LimitOf(p, window) <= budget
    ensures AllAdmitted(q, AfterProposal(q, rows, id, p), key, window, budget)
  {
    if p.bypassed || ExhaustedBudgets(q, rows, p.key, p.now, p.maxPerHour, p.maxPerDay) == [] {
      AdmittedAppend(q, rows, Row(id, p.key, p.now, p.status, p.bypassed), key, window, budget);
    }
  }

  lemma {:induction false} ProposalsAdmitted(q: Query, proposals: seq<Proposal>, key: Key, window: int, budget: int)
    requires LimitedIn(proposals, key, window, budget) && window in {HOUR, DAY}
    ensures AllAdmitted(q, RunProposals(q, proposals), key, window, budget)
  {
    if proposals != [] {
      var front, last := proposals[..|proposals| - 1], proposals[|proposals| - 1];
      assert last in proposals && forall p :: p in front ==> p in proposals;
      ProposalsAdmitted(q, front, key, window, budget);
      ProposalAdmitted(q, RunProposals(q, front), |proposals|, last, key, window, budget);
    }
  }

  /** In general a budget holds for every closed interval that is one second shorter than its window. */
  lemma ProposalBudgetBound(proposals: seq<Proposal>, key: Key, window: int, budget: nat, from: int)
    requires LimitedIn(proposals, key, window, budget) && window in {HOUR, DAY}
    ensures CountWithin(EVENTS, RunProposals(EVENTS, proposals), key, from, from + window - NANOS_PER_SECOND) <= budget
  {
    var rows := RunProposals(EVENTS, proposals);
    ProposalsAdmitted(EVENTS, proposals, key, window, budget);
    ASecondShort(rows, from, window);
    IntervalBound(EVENTS, rows, key, window, budget, from, window - NANOS_PER_SECOND);
  }

  lemma ASecondShort(rows: seq<Row>, from: int, window: int)
    ensures Visible(EVENTS, rows, from, window - NANOS_PER_SECOND, window)
  {
    forall r, s | r in rows && s in rows && from <= r.time && s.time <= from + (window - NANOS_PER_SECOND)
      ensures EVENTS.seen(r.time, s.time - window)
    {
      NanoTextOrder(s.time - window, r.time);
    }
  }

  /** A row at `t` lies within the window of `u`, and the count of that window overlooks it. */
  ghost predicate Hidden(t: int, u: int, window: int) {
    u - window < t && Misordered(t, u - window)
  }

  lemma UnseenIffHidden(t: int, u: int, window: int)
    requires u - window <= t
    ensures EVENTS.seen(t, u - window) <==> !Hidden(t, u, window)
  {
    SeenIffOrdered(t, u - window);
  }

  lemma SeenIffOrdered(t: int, since: int)
    requires since <= t
    ensures EVENTS.seen(t, since) <==> !(since < t && Misordered(t, since))
  {
    CutoffIsChronological(t, since);
    SeenIsText(t, since);
  }

  lemma SeenIsText(t: int, since: int)
    ensures EVENTS.seen(t, since) <==> !TextLess(NanoText(t), NanoText(since))
  {
  }

  /** No time is hidden from another one's window. */
  ghost predicate WellOrdered(times: iset<int>, window: int) {
    forall t, u :: t in times && u in times ==> !Hidden(t, u, window)
  }

  ghost predicate At(proposals: seq<Proposal>, times: iset<int>) {
    forall p :: p in proposals ==> p.now in times
  }

  lemma {:induction false} RecordedTimes(q: Query, proposals: seq<Proposal>, times: iset<int>, r: Row)
    requires At(proposals, times) && r in RunProposals(q, proposals)
    ensures r.time in times
  {
    var front, last := proposals[..|proposals| - 1], proposals[|proposals| - 1];
    assert last in proposals && forall p :: p in front ==> p in proposals;
    if r in RunProposals(q, front) {
      RecordedTimes(q, front, times, r);
    }
  }

  lemma WellOrderedIsVisible(rows: seq<Row>, times: iset<int>, from: int, window: int)
    requires WellOrdered(times, window) && forall r :: r in rows ==> r.time in times
    ensures Visible(EVENTS, rows, from, window, window)
  {
    forall r, s | r in rows && s in rows && from <= r.time && s.time <= from + window
      ensures EVENTS.seen(r.time, s.time - window)
    {
      UnseenIffHidden(r.time, s.time, window);
    }
  }

  /** The closed interval of one window from `from` on holds no more proposals than the budget. */
  ghost predicate KeepsBudget(q: Query, proposals: seq<Proposal>, key: Key, window: int, budget: nat, from: int) {
    CountWithin(q, RunProposals(q, proposals), key, from, from + window) <= budget
  }

  /** Where no time is hidden, a budget holds for its full window. */
  lemma FullWindowBudgetBound(
      proposals: seq<Proposal>, times: iset<int>, key: Key, window: int, budget: nat, from: int)
    requires LimitedIn(proposals, key, window, budget) && window in {HOUR, DAY}
    requires At(proposals, times) && WellOrdered(times, window)
    ensures KeepsBudget(EVENTS, proposals, key, window, budget, from)
  {
    ProposalsAdmitted(EVENTS, proposals, key, window, budget);
    forall r | r in RunProposals(EVENTS, proposals) ensures r.time in times {
      RecordedTimes(EVENTS, proposals, times, r);
    }
    WellOrderedIsVisible(RunProposals(EVENTS, proposals), times, from, window);
    IntervalBound(EVENTS, RunProposals(EVENTS, proposals), key, window, budget, from, window);
  }

  /** Reconciles on whole seconds are never hidden. */
  lemma WholeSecondsAreWellOrdered(window: int)
    requires Whole(window)
    ensures WellOrdered(iset t: int | Whole(t) :: t, window)
  {
    forall t, u | Whole(t) && Whole(u) ensures !Hidden(t, u, window) {
      WholeDifference(u, window);
      WholeSecondsAreOrdered(t, u - window);
    }
  }

  lemma WholeDifference(a: int, b: int)
    requires Whole(a) && Whole(b)
    ensures Whole(a - b)
  {
  }

  // ----- how far a budget can be exceeded -----

  lemma {:induction false} CountSplit(q: Query, rows: seq<Row>, key: Key, from: int, mid: int, to: int, later: int)
    requires to <= later
    ensures CountWithin(q, rows, key, from, to)
         <= CountWithin(q, rows, key, from, mid) + CountWithin(q, rows, key, mid, later)
  {
    if rows != [] {
      CountSplit(q, rows[..|rows| - 1], key, from, mid, to, later);
    }
  }

  /** Whatever the times are, a full window never holds more than twice its budget. */
  lemma AtMostTwiceTheBudget(proposals: seq<Proposal>, key: Key, window: int, budget: nat, from: int)
    requires LimitedIn(proposals, key, window, budget) && window in {HOUR, DAY}
    ensures CountWithin(EVENTS, RunProposals(EVENTS, proposals), key, from, from + window) <= 2 * budget
  {
    var rows, mid := RunProposals(EVENTS, proposals), from + window - NANOS_PER_SECOND;
    ProposalBudgetBound(proposals, key, window, budget, from);
    ProposalBudgetBound(proposals, key, window, budget, mid);
    CountSplit(EVENTS, rows, key, from, mid, from + window, mid + window - NANOS_PER_SECOND);
  }

  const WEB := Key("app", "ns", "web")

  /** `n` reconciles at `t` and the others at `u`. */
  function OverflowAt(t: int, u: int, n: nat, perHour: nat, perDay: nat, k: nat): Proposal {
    Proposal(WEB, if k < n then t else u, perHour, perDay, false, "pushed")
  }

  function Overflow(t: int, u: int, n: nat, perHour: nat, perDay: nat, k: nat): (run: seq<Proposal>)
    ensures |run| == k
  {
    if k == 0 then [] else Overflow(t, u, n, perHour, perDay, k - 1) + [OverflowAt(t, u, n, perHour, perDay, k - 1)]
  }

  function OverflowRows(t: int, u: int, n: nat, k: nat): (rows: seq<Row>)
    ensures |rows| == k
  {
    if k == 0 then []
    else OverflowRows(t, u, n, k - 1) + [Row(k, WEB, if k - 1 < n then t else u, "pushed", false)]
  }

  lemma OverflowRowsStep(t: int, u: int, n: nat, k: nat)
    requires k > 0
    ensures OverflowRows(t, u, n, k)[..k - 1] == OverflowRows(t, u, n, k - 1)
  {
  }

  lemma {:induction false} OverflowCounts(q: Query, t: int, u: int, n: nat, k: nat, since: int)
    ensures CountSince(q, OverflowRows(t, u, n, k), WEB, since) <= k
    ensures !q.seen(t, since) ==> CountSince(q, OverflowRows(t, u, n, k), WEB, since) <= if k <= n then 0 else k - n
  {
    if k > 0 {
      OverflowRowsStep(t, u, n, k);
      OverflowCounts(q, t, u, n, k - 1, since);
    }
  }

  /** There is no limit, or one of `n` at least, and the window from `u` overlooks the rows at `t`. */
  ghost predicate Roomy(q: Query, t: int, u: int, n: nat, window: int, limit: nat) {
    limit == 0 || (limit >= n && !q.seen(t, u - window))
  }

  lemma RoomForNext(q: Query, t: int, u: int, n: nat, k: nat, window: int, limit: nat)
    requires k < 2 * n && Roomy(q, t, u, n, window, limit)
    ensures limit > 0 ==> CountSince(q, OverflowRows(t, u, n, k), WEB, (if k < n then t else u) - window) < limit
  {
    OverflowCounts(q, t, u, n, k, (if k < n then t else u) - window);
  }

  /** A reconcile that finds its budgets open is recorded. */
  lemma OpenIsRecorded(q: Query, rows: seq<Row>, id: int, p: Proposal)
    requires p.maxPerHour > 0 ==> CountSince(q, rows, p.key, p.now - HOUR) < p.maxPerHour
    requires p.maxPerDay > 0 ==> CountSince(q, rows, p.key, p.now - DAY) < p.maxPerDay
    ensures AfterProposal(q, rows, id, p) == rows + [Row(id, p.key, p.now, p.status, p.bypassed)]
  {
  }

  lemma RunsAppend(q: Query, proposals: seq<Proposal>, p: Proposal)
    ensures RunProposals(q, proposals + [p])
         == AfterProposal(q, RunProposals(q, proposals), |proposals| + 1, p)
  {
    assert (proposals + [p])[..|proposals|] == proposals;
  }

  lemma OverflowNext(q: Query, t: int, u: int, n: nat, perHour: nat, perDay: nat, k: nat)
    requires k < 2 * n && Roomy(q, t, u, n, HOUR, perHour) && Roomy(q, t, u, n, DAY, perDay)
    ensures AfterProposal(q, OverflowRows(t, u, n, k), k + 1, OverflowAt(t, u, n, perHour, perDay, k))
         == OverflowRows(t, u, n, k + 1)
  {
    RoomForNext(q, t, u, n, k, HOUR, perHour);
    RoomForNext(q, t, u, n, k, DAY, perDay);
    OpenIsRecorded(q, OverflowRows(t, u, n, k), k + 1, OverflowAt(t, u, n, perHour, perDay, k));
  }

  lemma {:induction false} OverflowRuns(q: Query, t: int, u: int, n: nat, perHour: nat, perDay: nat, k: nat)
    requires k <= 2 * n && Roomy(q, t, u, n, HOUR, perHour) && Roomy(q, t, u, n, DAY, perDay)
    ensures RunProposals(q, Overflow(t, u, n, perHour, perDay, k)) == OverflowRows(t, u, n, k)
  {
    if k > 0 {
      OverflowRuns(q, t, u, n, perHour, perDay, k - 1);
      RunsAppend(q, Overflow(t, u, n, perHour, perDay, k - 1), OverflowAt(t, u, n, perHour, perDay, k - 1));
      OverflowNext(q, t, u, n, perHour, perDay, k - 1);
    }
  }

  lemma {:induction false} OverflowWithin(q: Query, t: int, u: int, n: nat, k: nat, from: int, to: int)
    requires q.counts("pushed") && from <= t <= to && from <= u <= to
    ensures CountWithin(q, OverflowRows(t, u, n, k), WEB, from, to) == k
  {
    if k > 0 {
      OverflowRowsStep(t, u, n, k);
      OverflowWithin(q, t, u, n, k - 1, from, to);
    }
  }

  /** A budget of `n` for the window, and none for the other one. */
  function PerHour(window: int, n: nat): nat {
    if window == HOUR then n else 0
  }

  function PerDay(window: int, n: nat): nat {
    if window == HOUR then 0 else n
  }

  function OverflowRun(t: int, u: int, window: int, n: nat): seq<Proposal> {
    Overflow(t, u, n, PerHour(window, n), PerDay(window, n), 2 * n)
  }

  lemma {:induction false} OverflowProposals(t: int, u: int, n: nat, perHour: nat, perDay: nat, k: nat, p: Proposal)
    requires p in Overflow(t, u, n, perHour, perDay, k)
    ensures p.now in {t, u} && p.maxPerHour == perHour && p.maxPerDay == perDay
  {
    if p in Overflow(t, u, n, perHour, perDay, k - 1) {
      OverflowProposals(t, u, n, perHour, perDay, k - 1, p);
    }
  }

  lemma OverflowIsLimited(t: int, u: int, window: int, n: nat)
    requires n > 0
    ensures LimitedIn(OverflowRun(t, u, window, n), WEB, window, n)
  {
    forall p | p in OverflowRun(t, u, window, n) ensures LimitOf(p, window) == n {
      OverflowProposals(t, u, n, PerHour(window, n), PerDay(window, n), 2 * n, p);
    }
  }

  lemma OverflowStores(q: Query, t: int, u: int, window: int, n: nat)
    requires window in {HOUR, DAY} && q.counts("pushed") && !q.seen(t, u - window) && t <= u <= t + window
    ensures CountWithin(q, RunProposals(q, OverflowRun(t, u, window, n)), WEB, t, t + window) == 2 * n
  {
    OverflowRuns(q, t, u, n, PerHour(window, n), PerDay(window, n), 2 * n);
    OverflowWithin(q, t, u, n, 2 * n, t, t + window);
  }

  lemma EventsCountPushed()
    ensures EVENTS.counts("pushed")
  {
    assert "pushed"[0] != "failed"[0] && "pushed"[0] != "blocked"[0];
  }

  /** Every hidden time and every budget `n` give a run that stores 2n proposals within the window. */
  lemma TwiceTheBudgetIsReached(t: int, u: int, window: int, n: nat)
    requires Hidden(t, u, window) && window in {HOUR, DAY} && n > 0
    ensures LimitedIn(OverflowRun(t, u, window, n), WEB, window, n)
    ensures CountWithin(EVENTS, RunProposals(EVENTS, OverflowRun(t, u, window, n)), WEB, t, t + window) == 2 * n
  {
    OverflowIsLimited(t, u, window, n);
    UnseenIffHidden(t, u, window);
    EventsCountPushed();
    OverflowStores(EVENTS, t, u, window, n);
  }

  /** All runs at these times keep all budgets of the window, for every closed interval of its length. */
  ghost predicate BudgetsHold(times: iset<int>, window: int) {
    forall proposals: seq<Proposal>, key: Key, budget: nat, from: int ::
      At(proposals, times) && LimitedIn(proposals, key, window, budget) ==>
        KeepsBudget(EVENTS, proposals, key, window, budget, from)
  }

  lemma OverflowIsAt(times: iset<int>, t: int, u: int, window: int, n: nat)
    requires t in times && u in times
    ensures At(OverflowRun(t, u, window, n), times)
  {
    forall p | p in OverflowRun(t, u, window, n) ensures p.now in times {
      OverflowProposals(t, u, n, PerHour(window, n), PerDay(window, n), 2 * n, p);
    }
  }

  lemma OverflowBreaks(q: Query, t: int, u: int, window: int, n: nat)
    requires window in {HOUR, DAY} && q.counts("pushed") && !q.seen(t, u - window) && t <= u <= t + window && n > 0
    ensures !KeepsBudget(q, OverflowRun(t, u, window, n), WEB, window, n, t)
  {
    OverflowStores(q, t, u, window, n);
  }

  lemma HiddenBreaksBudget(times: iset<int>, window: int, t: int, u: int, n: nat)
    requires window in {HOUR, DAY} && t in times && u in times && Hidden(t, u, window) && n > 0
    ensures !BudgetsHold(times, window)
  {
    OverflowIsAt(times, t, u, window, n);
    OverflowIsLimited(t, u, window, n);
    UnseenIffHidden(t, u, window);
    EventsCountPushed();
    OverflowBreaks(EVENTS, t, u, window, n);
  }

  lemma NoneHiddenKeepsBudget(times: iset<int>, window: int)
    requires window in {HOUR, DAY} && WellOrdered(times, window)
    ensures BudgetsHold(times, window)
  {
    forall proposals: seq<Proposal>, key: Key, budget: nat, from: int
      | At(proposals, times) && LimitedIn(proposals, key, window, budget)
      ensures KeepsBudget(EVENTS, proposals, key, window, budget, from)
    {
      FullWindowBudgetBound(proposals, times, key, window, budget, from);
    }
  }

  /** The budgets of a window hold exactly where no time is hidden from the window of another. */
  lemma BudgetsHoldExactly(times: iset<int>, window: int)
    requires window in {HOUR, DAY}
    ensures BudgetsHold(times, window) <==> WellOrdered(times, window)
  {
    if WellOrdered(times, window) {
      NoneHiddenKeepsBudget(times, window);
    } else {
      var t, u :| t in times && u in times && Hidden(t, u, window);
      HiddenBreaksBudget(times, window, t, u, 1);
    }
  }

  const HALF := 500000000

  /** So the budgets can be exceeded: half past zero is hidden from the window of the full hour. */
  lemma FullWindowCanOverflow(n: nat)
    requires n > 0
    ensures Hidden(HALF, HOUR, HOUR)
    ensures LimitedIn(OverflowRun(HALF, HOUR, HOUR, n), WEB, HOUR, n)
    ensures CountWithin(EVENTS, RunProposals(EVENTS, OverflowRun(HALF, HOUR, HOUR, n)), WEB, HALF, HALF + HOUR) == 2 * n
  {
    ZeroDigits(9);
    NanoTextOrder(0, HALF);
    TwiceTheBudgetIsReached(HALF, HOUR, HOUR, n);
  }
}
