/**
 * The historical replay (internal/backtest/backtest.go): replica bounds, demand in replicas, and the loop
 * that commits a target only after it held for a number of consecutive points.
 */
module Replay {
  import opened Numbers
  import opened Options

  /** A sample; `None` stands for NaN. */
  type Sample = Option<real>

  datatype Point = Point(
    timestamp: int, requestRate: Sample, latencyP95: Sample, errorRate: Sample, concurrentRequests: Sample,
    cpuUsage: Sample, memoryWorkingSet: Sample, availableReplicas: Sample)

  datatype Bounds = Bounds(min: int, max: int, initial: int)

  datatype Capacities = Capacities(traffic: real, cpu: real, memory: real)

  function ClampInt(value: int, low: int, high: int): int {
    if value < low then low else if value > high then high else value
  }

  predicate Positive(s: Sample) {
    s.Some? && s.value > 0.0
  }

  ghost predicate ValidBounds(b: Bounds) {
    b.min <= b.initial <= b.max
  }

  // ----- bounds -----

  function LowerBound(configuredMin: int): int {
    if configuredMin <= 0 then 1 else configuredMin
  }

  /** The count that the first point saw; the lower bound if it saw none. */
  function FirstSeen(points: seq<Point>, low: int): int {
    if points != [] && Positive(points[0].availableReplicas) then Round(points[0].availableReplicas.value) else low
  }

  /** The highest count that was seen, or the lower bound. */
  ghost predicate IsMost(points: seq<Point>, low: int, most: int) {
    && low <= most
    && (forall p :: p in points && Positive(p.availableReplicas) ==> Round(p.availableReplicas.value) <= most)
    && (most == low
        || exists p :: p in points && Positive(p.availableReplicas) && Round(p.availableReplicas.value) == most)
  }

  /** Fixed bounds without scaling; a missing maximum is twice the highest count that was seen. */
  method ReplicaBounds(configuredMin: int, configuredMax: int, scaling: bool, points: seq<Point>) returns (b: Bounds)
    ensures ValidBounds(b)
    ensures var low := LowerBound(configuredMin);
      && (!scaling ==> b.min == b.max == b.initial == FirstSeen(points, low))
      && (scaling ==> b.min == low && b.initial == ClampInt(FirstSeen(points, low), b.min, b.max))
      && (scaling && configuredMax > 0 ==> b.max == MaxInt(configuredMax, low))
      && (scaling && configuredMax <= 0 ==> exists most :: IsMost(points, low, most) && b.max == 2 * most)
  {
    var minReplicas := if configuredMin <= 0 then 1 else configuredMin;
    var maxReplicas, observedMax, initial := configuredMax, minReplicas, minReplicas;
    for index := 0 to |points|
      invariant IsMost(points[..index], minReplicas, observedMax)
      invariant initial == if index == 0 then minReplicas else FirstSeen(points, minReplicas)
    {
      ghost var before := observedMax;
      if Positive(points[index].availableReplicas) {
        var replicas := Round(points[index].availableReplicas.value);
        if index == 0 {
          initial := replicas;
        }
        if replicas > observedMax {
          observedMax := replicas;
        }
      }
      MostStep(points, index, minReplicas, before, observedMax);
    }
    assert points[..|points|] == points;
    if maxReplicas <= 0 {
      maxReplicas := MaxInt(observedMax * 2, minReplicas);
    }
    if maxReplicas < minReplicas {
      maxReplicas := minReplicas;
    }
    if !scaling {
      minReplicas, maxReplicas := initial, initial;
    }
    b := Bounds(minReplicas, maxReplicas, ClampInt(initial, minReplicas, maxReplicas));
  }

  lemma MostStep(points: seq<Point>, i: nat, low: int, before: int, after: int)
    requires i < |points| && IsMost(points[..i], low, before)
    requires var s := points[i].availableReplicas;
      after == if Positive(s) then MaxInt(Round(s.value), before) else before
    ensures IsMost(points[..i + 1], low, after)
  {
    assert points[..i + 1] == points[..i] + [points[i]];
    assert points[i] in points[..i + 1] && forall p :: p in points[..i] ==> p in points[..i + 1];
  }

  // ----- demand -----

  function Multiplier(p: Point): real {
    1.0 + (if p.latencyP95.Some? && p.latencyP95.value > 1.0 then 0.15 else 0.0)
        + (if Positive(p.errorRate) then 0.10 else 0.0)
  }

  /** `capacity * n` replicas' worth of capacity serve `load`; an unknown load or capacity asks for nothing. */
  ghost predicate Serves(load: Sample, capacity: real, n: int) {
    load.Some? && capacity > 0.0 ==> load.value <= capacity * n as real
  }

  ghost predicate ServesPoint(p: Point, caps: Capacities, n: int) {
    && Serves(if p.requestRate.Some? then Some(p.requestRate.value * Multiplier(p)) else None, caps.traffic, n)
    && Serves(p.concurrentRequests, caps.traffic * 5.0, n)
    && Serves(p.cpuUsage, caps.cpu, n)
    && Serves(p.memoryWorkingSet, caps.memory, n)
  }

  /** So many replicas carry a load. */
  ghost predicate Carries(load: Sample, capacity: real, n: int) {
    load.None? || capacity <= 0.0 || load.value <= capacity * n as real
  }

  /**
   * A count serves a point exactly if it carries everything that was measured, each by its own capacity: a latency
   * above one second makes the requests count fifteen percent more, errors ten, and a replica takes five times as
   * many concurrent requests as requests per second.
   */
  lemma ServedExactly(p: Point, caps: Capacities, n: int)
    ensures var slow := p.latencyP95.Some? && p.latencyP95.value > 1.0;
      var failing := p.errorRate.Some? && p.errorRate.value > 0.0;
      var factor := if slow && failing then 1.25 else if slow then 1.15 else if failing then 1.1 else 1.0;
      ServesPoint(p, caps, n)
      <==> && (p.requestRate.Some? && caps.traffic > 0.0 ==> p.requestRate.value * factor <= caps.traffic * n as real)
           && Carries(p.concurrentRequests, 5.0 * caps.traffic, n)
           && Carries(p.cpuUsage, caps.cpu, n) && Carries(p.memoryWorkingSet, caps.memory, n)
  {
    assert caps.traffic * 5.0 == 5.0 * caps.traffic;
  }

  lemma CeilServes(load: real, capacity: real, n: int)
    requires capacity > 0.0
    ensures load <= capacity * n as real <==> Ceil(load / capacity) <= n
  {
    var q := load / capacity;
    assert q * capacity == load;
    if Ceil(q) <= n {
      assert (n as real - q) * capacity >= 0.0;
    } else {
      assert (q - n as real) * capacity > 0.0;
    }
  }

  function AtLeast(target: int, load: Sample, capacity: real): int {
    if load.Some? && capacity > 0.0 then MaxInt(target, Ceil(load.value / capacity)) else target
  }

  lemma AtLeastServes(target: int, load: Sample, capacity: real, n: int)
    ensures AtLeast(target, load, capacity) <= n <==> target <= n && Serves(load, capacity, n)
  {
    if load.Some? && capacity > 0.0 {
      CeilServes(load.value, capacity, n);
    }
  }

  function RequestLoad(p: Point): Sample {
    if p.requestRate.Some? then Some(p.requestRate.value * Multiplier(p)) else None
  }

  /** The smallest count within the bounds that serves the point; the upper bound when none does. */
  ghost predicate IsDemand(p: Point, caps: Capacities, b: Bounds, n: int) {
    && b.min <= n <= b.max
    && (ServesPoint(p, caps, n) || n == b.max)
    && forall m :: b.min <= m < n ==> !ServesPoint(p, caps, m)
  }

  method DemandReplicas(p: Point, caps: Capacities, b: Bounds) returns (n: int)
    requires ValidBounds(b)
    ensures IsDemand(p, caps, b, n)
  {
    var t0 := b.min;
    var t1 := AtLeast(t0, RequestLoad(p), caps.traffic);
    var t2 := AtLeast(t1, p.concurrentRequests, caps.traffic * 5.0);
    var t3 := AtLeast(t2, p.cpuUsage, caps.cpu);
    var t4 := AtLeast(t3, p.memoryWorkingSet, caps.memory);
    forall m ensures t4 <= m <==> t0 <= m && ServesPoint(p, caps, m) {
      AtLeastServes(t0, RequestLoad(p), caps.traffic, m);
      AtLeastServes(t1, p.concurrentRequests, caps.traffic * 5.0, m);
      AtLeastServes(t2, p.cpuUsage, caps.cpu, m);
      AtLeastServes(t3, p.memoryWorkingSet, caps.memory, m);
    }
    n := ClampInt(t4, b.min, b.max);
  }

  lemma DemandIsUnique(p: Point, caps: Capacities, b: Bounds, n: int, m: int)
    requires IsDemand(p, caps, b, n) && IsDemand(p, caps, b, m)
    ensures n == m
  {
  }

  // ----- the stability gate -----

  /** Length of the run of equal targets at the end. */
  function Run(targets: seq<int>): nat {
    if |targets| <= 1 then |targets|
    else
      var front := targets[..|targets| - 1];
      if front[|front| - 1] == targets[|targets| - 1] then Run(front) + 1 else 1
  }

  /** The last `runs` targets are equal. */
  ghost predicate Held(targets: seq<int>, runs: int) {
    1 <= runs <= |targets|
    && forall k :: |targets| - runs <= k < |targets| ==> targets[k] == targets[|targets| - 1]
  }

  lemma {:induction false} RunIsHeld(targets: seq<int>, runs: int)
    requires runs >= 1
    ensures Run(targets) >= runs <==> Held(targets, runs)
  {
    if |targets| > 1 && runs > 1 {
      var front := targets[..|targets| - 1];
      RunIsHeld(front, runs - 1);
      assert forall k :: 0 <= k < |front| ==> front[k] == targets[k];
      if Held(targets, runs) {
        assert targets[|targets| - 2] == targets[|targets| - 1];
        assert Held(front, runs - 1);
      }
    }
  }

  /** The latest target that held for `runs` consecutive points; `initial` while there is none. */
  function Committed(initial: int, targets: seq<int>, runs: int): int {
    if targets == [] then initial
    else if Run(targets) >= runs then targets[|targets| - 1]
    else Committed(initial, targets[..|targets| - 1], runs)
  }

  /** How often the committed count changed. */
  function Commits(initial: int, targets: seq<int>, runs: int): nat {
    if targets == [] then 0
    else
      var front := targets[..|targets| - 1];
      Commits(initial, front, runs)
      + if Committed(initial, front, runs) != Committed(initial, targets, runs) then 1 else 0
  }

  /** Every commit uses up `runs` points of its own, and a pending change already has its run of points. */
  lemma {:induction false} CommitsAreRare(initial: int, targets: seq<int>, runs: int)
    requires runs >= 1
    ensures runs * Commits(initial, targets, runs)
            + (if targets != [] && targets[|targets| - 1] != Committed(initial, targets, runs) then Run(targets) else 0)
         <= |targets|
  {
    if targets != [] {
      var front := targets[..|targets| - 1];
      CommitsAreRare(initial, front, runs);
      assert runs * (Commits(initial, front, runs) + 1) == runs * Commits(initial, front, runs) + runs;
    }
  }

  /** The committed counts after each point. */
  function Trace(initial: int, targets: seq<int>, runs: int): seq<int> {
    if targets == [] then []
    else Trace(initial, targets[..|targets| - 1], runs) + [Committed(initial, targets, runs)]
  }

  lemma {:induction false} TraceInBounds(initial: int, targets: seq<int>, runs: int, low: int, high: int)
    requires low <= initial <= high && forall k :: 0 <= k < |targets| ==> low <= targets[k] <= high
    ensures |Trace(initial, targets, runs)| == |targets|
    ensures low <= Committed(initial, targets, runs) <= high
    ensures forall k :: 0 <= k < |targets| ==> low <= Trace(initial, targets, runs)[k] <= high
  {
    if targets != [] {
      TraceInBounds(initial, targets[..|targets| - 1], runs, low, high);
    }
  }

  /** The committed count after point `k` is the latest target that held, or the initial one. */
  lemma {:induction false} CommittedIsLatestHeld(initial: int, targets: seq<int>, runs: int)
    requires runs >= 1
    ensures (&& Committed(initial, targets, runs) == initial
             && forall j :: 0 <= j <= |targets| ==> !Held(targets[..j], runs))
         || exists j :: && 0 < j <= |targets| && Held(targets[..j], runs)
                        && Committed(initial, targets, runs) == targets[j - 1]
                        && forall l :: j < l <= |targets| ==> !Held(targets[..l], runs)
  {
    assert targets[..|targets|] == targets;
    RunIsHeld(targets, runs);
    if targets != [] && Run(targets) < runs {
      var front := targets[..|targets| - 1];
      CommittedIsLatestHeld(initial, front, runs);
      forall j | 0 <= j <= |front| ensures targets[..j] == front[..j] {
      }
      if j :| 0 < j <= |front| && Held(front[..j], runs) && Committed(initial, front, runs) == front[j - 1]
              && forall l :: j < l <= |front| ==> !Held(front[..l], runs) {
        assert Held(targets[..j], runs);
        assert forall l :: j < l <= |targets| ==> !Held(targets[..l], runs);
      }
    }
  }

  // ----- the loop -----

  datatype Report = Report(
    spikes: nat, proactive: nat, covered: nat, missed: nat, over: nat, under: nat, commits: nat, reactiveChanges: nat)

  /** More than a quarter, and at least one, above what is required. */
  predicate Excessive(committed: int, required: int) {
    committed > required + MaxInt(1, Ceil(required as real * 0.25))
  }

  /** Excessive is a count that is two or more too high, by more than a quarter of what is required. */
  lemma ExcessiveMeans(committed: int, required: int)
    requires required >= 0
    ensures Excessive(committed, required) <==> committed - required >= 2 && 4 * (committed - required - 1) >= required
  {
    var quarter := Ceil(required as real * 0.25);
    assert quarter as real - 1.0 < required as real * 0.25 <= quarter as real;
    assert 4 * quarter - 4 < required <= 4 * quarter;
  }

  datatype Counts = Counts(under: nat, over: nat, missed: nat)

  /** How often the committed count was too low, too high, and too low at a spike. */
  function Counted(spikes: seq<bool>, committed: seq<int>, reactive: seq<int>): Counts
    requires |spikes| == |committed| == |reactive|
  {
    if spikes == [] then Counts(0, 0, 0)
    else
      var n := |spikes| - 1;
      var before := Counted(spikes[..n], committed[..n], reactive[..n]);
      Counts(before.under + (if committed[n] < reactive[n] then 1 else 0),
             before.over + (if Excessive(committed[n], reactive[n]) then 1 else 0),
             before.missed + (if spikes[n] && committed[n] < reactive[n] then 1 else 0))
  }

  /** The points before `n` that have a property. */
  ghost function Those(n: int, p: int -> bool): set<int> {
    set k | 0 <= k < n && p(k)
  }

  lemma ThoseStep(n: nat, p: int -> bool, q: int -> bool)
    requires forall k :: 0 <= k < n ==> p(k) == q(k)
    ensures |Those(n + 1, p)| == |Those(n, q)| + if p(n) then 1 else 0
  {
    assert Those(n + 1, p) == Those(n, q) + if p(n) then {n} else {};
  }

  function TooLow(committed: seq<int>, reactive: seq<int>): int -> bool {
    k => 0 <= k < |committed| && k < |reactive| && committed[k] < reactive[k]
  }

  function TooHigh(committed: seq<int>, reactive: seq<int>): int -> bool {
    k => 0 <= k < |committed| && k < |reactive| && Excessive(committed[k], reactive[k])
  }

  function Missed(spikes: seq<bool>, committed: seq<int>, reactive: seq<int>): int -> bool {
    k => 0 <= k < |spikes| && spikes[k] && TooLow(committed, reactive)(k)
  }

  /** The counters are the numbers of the points that they are about. */
  lemma {:induction false} CountedMeans(spikes: seq<bool>, committed: seq<int>, reactive: seq<int>)
    requires |spikes| == |committed| == |reactive|
    ensures var counts, n := Counted(spikes, committed, reactive), |spikes|;
      && counts.under == |Those(n, TooLow(committed, reactive))|
      && counts.over == |Those(n, TooHigh(committed, reactive))|
      && counts.missed == |Those(n, Missed(spikes, committed, reactive))|
  {
    if spikes != [] {
      var n := |spikes| - 1;
      var s, c, r := spikes[..n], committed[..n], reactive[..n];
      CountedMeans(s, c, r);
      ThoseStep(n, TooLow(committed, reactive), TooLow(c, r));
      ThoseStep(n, TooHigh(committed, reactive), TooHigh(c, r));
      ThoseStep(n, Missed(spikes, committed, reactive), Missed(s, c, r));
    }
  }

  lemma {:induction false} CountTrueMeans(flags: seq<bool>)
    ensures CountTrue(flags) == |Those(|flags|, k => 0 <= k < |flags| && flags[k])|
  {
    if flags != [] {
      var n := |flags| - 1;
      CountTrueMeans(flags[..n]);
      ThoseStep(n, k => 0 <= k < |flags| && flags[k], k => 0 <= k < n && flags[..n][k]);
    }
  }

  /** The count at point `k` differs from the one before it. */
  function Differs(first: int, counts: seq<int>): int -> bool {
    k => 0 <= k < |counts| && counts[k] != if k == 0 then first else counts[k - 1]
  }

  lemma {:induction false} ChangesMean(first: int, counts: seq<int>)
    ensures Changes(first, counts) == |Those(|counts|, Differs(first, counts))|
  {
    if counts != [] {
      var n := |counts| - 1;
      ChangesMean(first, counts[..n]);
      ThoseStep(n, Differs(first, counts), Differs(first, counts[..n]));
    }
  }

  /** Commits are the changes of the committed count. */
  lemma {:induction false} CommitsAreChanges(initial: int, targets: seq<int>, runs: int)
    ensures |Trace(initial, targets, runs)| == |targets|
    ensures Commits(initial, targets, runs) == Changes(initial, Trace(initial, targets, runs))
    ensures targets != [] ==> Trace(initial, targets, runs)[|targets| - 1] == Committed(initial, targets, runs)
  {
    if targets != [] {
      var front, trace := targets[..|targets| - 1], Trace(initial, targets, runs);
      CommitsAreChanges(initial, front, runs);
      assert trace[..|targets| - 1] == Trace(initial, front, runs);
    }
  }

  /** How often the counts change, starting from `first`. */
  function Changes(first: int, counts: seq<int>): nat {
    if counts == [] then 0
    else
      var n := |counts| - 1;
      Changes(first, counts[..n]) + if counts[n] != (if n == 0 then first else counts[n - 1]) then 1 else 0
  }

  function CountTrue(flags: seq<bool>): nat {
    if flags == [] then 0 else CountTrue(flags[..|flags| - 1]) + if flags[|flags| - 1] then 1 else 0
  }

  /** What one point adds to the report once its committed count is known. */
  method Classify(report: Report, isSpike: bool, current: int, required: int, b: Bounds,
                  sinceScaleUp: Option<int>, horizonAndStep: int) returns (r: Report)
    ensures r.commits == report.commits && r.reactiveChanges == report.reactiveChanges
    ensures r.spikes == report.spikes + (if isSpike then 1 else 0)
    ensures r.proactive + r.covered + r.missed
         == report.proactive + report.covered + report.missed + (if isSpike then 1 else 0)
    ensures r.missed == report.missed + (if isSpike && current < required then 1 else 0)
    ensures r.under == report.under + (if current < required then 1 else 0)
    ensures r.proactive == report.proactive
         + (if isSpike && current >= required && required > b.min
               && sinceScaleUp.Some? && 0 < sinceScaleUp.value <= horizonAndStep then 1 else 0)
    ensures r.over == report.over
         + (if Excessive(current, required) then 1 else 0)
  {
    r := report;
    if isSpike {
      r := r.(spikes := r.spikes + 1);
      var covered := current >= required;
      var proactive := current >= required && required > b.min
                       && sinceScaleUp.Some? && 0 < sinceScaleUp.value <= horizonAndStep;
      if proactive {
        r := r.(proactive := r.proactive + 1);
      } else if covered {
        r := r.(covered := r.covered + 1);
      } else {
        r := r.(missed := r.missed + 1);
      }
    }
    if current < required {
      r := r.(under := r.under + 1);
    }
    if current > required + MaxInt(1, Ceil(required as real * 0.25)) {
      r := r.(over := r.over + 1);
    }
  }

  /** One point of the stability gate: the target before, and the state after it. */
  method Gate(
      initial: int, ghost front: seq<int>, target: int, runs: int, current: int, pendingTarget: int, pendingCount: int)
    returns (newCurrent: int, newTarget: int, newCount: int)
    requires runs >= 1 && current == Committed(initial, front, runs) && pendingCount == Run(front)
    requires pendingTarget == if front == [] then initial else front[|front| - 1]
    ensures var targets := front + [target];
      && newCurrent == Committed(initial, targets, runs)
      && newTarget == target && newCount == Run(targets)
      && Commits(initial, targets, runs) == Commits(initial, front, runs) + (if newCurrent != current then 1 else 0)
  {
    ghost var targets := front + [target];
    assert targets[..|targets| - 1] == front;
    newCurrent, newTarget, newCount := current, pendingTarget, pendingCount;
    if target == newTarget {
      newCount := newCount + 1;
    } else {
      newTarget, newCount := target, 1;
    }
    if newTarget != newCurrent && newCount >= runs {
      newCurrent := newTarget;
    }
  }

  /** `ns[k]` is the demand at `points[k]`, or the initial count when replicas are not scaled. */
  ghost predicate AreTargets(points: seq<Point>, caps: Capacities, b: Bounds, scaling: bool, ns: seq<int>) {
    ns == []
    || (&& |ns| <= |points|
        && AreTargets(points, caps, b, scaling, ns[..|ns| - 1])
        && b.min <= ns[|ns| - 1] <= b.max
        && if scaling then IsDemand(points[|ns| - 1], caps, b, ns[|ns| - 1]) else ns[|ns| - 1] == b.initial)
  }

  lemma {:induction false} TargetsInBounds(points: seq<Point>, caps: Capacities, b: Bounds, scaling: bool, ns: seq<int>)
    requires AreTargets(points, caps, b, scaling, ns)
    ensures forall k :: 0 <= k < |ns| ==> b.min <= ns[k] <= b.max
  {
    if ns != [] {
      TargetsInBounds(points, caps, b, scaling, ns[..|ns| - 1]);
    }
  }

  method NextTarget(points: seq<Point>, ghost ns: seq<int>, index: nat, caps: Capacities, b: Bounds, scaling: bool)
    returns (n: int)
    requires ValidBounds(b) && index == |ns| < |points| && AreTargets(points, caps, b, scaling, ns)
    ensures AreTargets(points, caps, b, scaling, ns + [n])
  {
    n := DemandReplicas(points[index], caps, b);
    if !scaling {
      n := b.initial;
    }
    assert (ns + [n])[..|ns|] == ns;
  }

  /** Counts a change of the committed count, and classifies the point. */
  method Tally(report: Report, lastScaleUp: Option<int>, timestamp: int, isSpike: bool, previous: int, current: int,
               required: int, b: Bounds, horizonAndStep: int)
    returns (r: Report, scaledUp: Option<int>)
    ensures r.commits == report.commits + (if current != previous then 1 else 0)
    ensures r.spikes == report.spikes + (if isSpike then 1 else 0)
    ensures r.proactive + r.covered + r.missed
         == report.proactive + report.covered + report.missed + (if isSpike then 1 else 0)
    ensures r.missed == report.missed + (if isSpike && current < required then 1 else 0)
    ensures r.under == report.under + (if current < required then 1 else 0)
    ensures r.over == report.over + (if Excessive(current, required) then 1 else 0)
    ensures r.reactiveChanges == report.reactiveChanges
    ensures scaledUp == if current > previous then Some(timestamp) else lastScaleUp
    ensures r.proactive == report.proactive
         + (if isSpike && current >= required && required > b.min
               && scaledUp.Some? && 0 < timestamp - scaledUp.value <= horizonAndStep then 1 else 0)
  {
    r, scaledUp := report, lastScaleUp;
    if current != previous {
      r := r.(commits := r.commits + 1);
      if current > previous {
        scaledUp := Some(timestamp);
      }
    }
    var sinceScaleUp := if scaledUp.Some? then Some(timestamp - scaledUp.value) else None;
    r := Classify(r, isSpike, current, required, b, sinceScaleUp, horizonAndStep);
  }

  /** `forecasts[k]` is the forecast made at point `k`; `spikes[k]` tells whether point `k` is a spike. */
  datatype Input = Input(
    points: seq<Point>, forecasts: seq<Point>, spikes: seq<bool>, caps: Capacities, b: Bounds, scaling: bool,
    stabilityRuns: int, horizonAndStep: int)

  ghost predicate ValidInput(i: Input) {
    |i.points| == |i.forecasts| == |i.spikes| > 0 && ValidBounds(i.b) && i.stabilityRuns >= 1
  }

  /** The variables of the loop, and the counts that it went through. */
  datatype Progress = Progress(
    current: int, pendingTarget: int, pendingCount: int, reactiveReplicas: int, lastScaleUp: Option<int>,
    report: Report,
    targets: seq<int>, reactive: seq<int>, committed: seq<int>)

  /** What the counts are after `n` points. */
  ghost predicate Followed(i: Input, n: nat, s: Progress) {
    && |s.targets| == |s.reactive| == |s.committed| == n <= |i.points| == |i.forecasts|
    && AreTargets(i.forecasts, i.caps, i.b, i.scaling, s.targets)
    && AreTargets(i.points, i.caps, i.b, i.scaling, s.reactive)
    && s.committed == Trace(i.b.initial, s.targets, i.stabilityRuns)
    && s.current == Committed(i.b.initial, s.targets, i.stabilityRuns)
    && s.pendingCount == Run(s.targets)
    && s.pendingTarget == if n == 0 then i.b.initial else s.targets[n - 1]
  }

  /** When the committed count was last raised. */
  function LastUp(i: Input, committed: seq<int>): Option<int>
    requires |committed| <= |i.points|
  {
    if committed == [] then None
    else
      var k := |committed| - 1;
      if committed[k] > (if k == 0 then i.b.initial else committed[k - 1]) then Some(i.points[k].timestamp)
      else LastUp(i, committed[..k])
  }

  /** The committed count went up at point `k`. */
  predicate Raised(i: Input, committed: seq<int>, k: int)
    requires |committed| <= |i.points|
  {
    0 <= k < |committed| && committed[k] > if k == 0 then i.b.initial else committed[k - 1]
  }

  lemma {:induction false} LastUpMeans(i: Input, committed: seq<int>)
    requires |committed| <= |i.points|
    ensures LastUp(i, committed).None? ==> forall k :: !Raised(i, committed, k)
    ensures LastUp(i, committed).Some? ==>
      exists k :: && Raised(i, committed, k) && LastUp(i, committed).value == i.points[k].timestamp
                  && forall l :: k < l ==> !Raised(i, committed, l)
  {
    if committed != [] && !Raised(i, committed, |committed| - 1) {
      var front := committed[..|committed| - 1];
      LastUpMeans(i, front);
      assert forall k :: Raised(i, committed, k) <==> Raised(i, front, k);
    } else if committed != [] {
      assert Raised(i, committed, |committed| - 1);
    }
  }

  /** Proactive are the spikes that were covered with more than the lower bound, soon after a raise before them. */
  lemma {:induction false} ProactiveMeans(i: Input, committed: seq<int>, reactive: seq<int>)
    requires |committed| == |reactive| <= |i.points| == |i.spikes|
    ensures Proactive(i, committed, reactive) == |Those(|committed|, CoveredInTime(i, committed, reactive))|
  {
    if committed != [] {
      var n := |committed| - 1;
      ProactiveMeans(i, committed[..n], reactive[..n]);
      forall k | 0 <= k < n
        ensures CoveredInTime(i, committed, reactive)(k) == CoveredInTime(i, committed[..n], reactive[..n])(k)
      {
        assert committed[..n][..k + 1] == committed[..k + 1];
      }
      assert committed[..n + 1] == committed;
      ThoseStep(n, CoveredInTime(i, committed, reactive), CoveredInTime(i, committed[..n], reactive[..n]));
    }
  }

  ghost function CoveredInTime(i: Input, committed: seq<int>, reactive: seq<int>): int -> bool
    requires |committed| == |reactive| <= |i.points| == |i.spikes|
  {
    k =>
      && 0 <= k < |committed| && i.spikes[k] && reactive[k] <= committed[k] && i.b.min < reactive[k]
      && SoonAfter(LastUp(i, committed[..k + 1]), i.points[k].timestamp, i.horizonAndStep)
  }

  predicate SoonAfter(up: Option<int>, time: int, span: int) {
    up.Some? && up.value < time <= up.value + span
  }

  /** The last point is a spike that a raise shortly before it has covered. */
  predicate IsProactive(i: Input, committed: seq<int>, required: int)
    requires 0 < |committed| <= |i.points| == |i.spikes|
  {
    var k, up := |committed| - 1, LastUp(i, committed);
    && i.spikes[k] && committed[k] >= required > i.b.min
    && up.Some? && 0 < i.points[k].timestamp - up.value <= i.horizonAndStep
  }

  function Proactive(i: Input, committed: seq<int>, reactive: seq<int>): nat
    requires |committed| == |reactive| <= |i.points| == |i.spikes|
  {
    if committed == [] then 0
    else
      var k := |committed| - 1;
      Proactive(i, committed[..k], reactive[..k]) + if IsProactive(i, committed, reactive[k]) then 1 else 0
  }

  /** The raises are tracked, and the spikes that they covered are counted. */
  ghost predicate Tracked(i: Input, s: Progress)
    requires |s.committed| == |s.reactive| <= |i.points| == |i.spikes|
  {
    && s.current == (if s.committed == [] then i.b.initial else s.committed[|s.committed| - 1])
    && s.lastScaleUp == LastUp(i, s.committed)
    && s.report.proactive == Proactive(i, s.committed, s.reactive)
  }

  lemma TrackedStep(i: Input, s: Progress, current: int, required: int)
    requires |s.committed| == |s.reactive| < |i.points| == |i.spikes| && Tracked(i, s)
    ensures var k, committed, reactive := |s.committed|, s.committed + [current], s.reactive + [required];
      && LastUp(i, committed) == (if current > s.current then Some(i.points[k].timestamp) else s.lastScaleUp)
      && Proactive(i, committed, reactive)
         == s.report.proactive + if IsProactive(i, committed, required) then 1 else 0
  {
    var k := |s.committed|;
    assert (s.committed + [current])[..k] == s.committed && (s.reactive + [required])[..k] == s.reactive;
  }

  /** What the report says about them. */
  ghost predicate Reported(i: Input, n: nat, s: Progress, first: int)
    requires |s.targets| == |s.reactive| == |s.committed| == n <= |i.spikes|
  {
    && s.report.commits == Commits(i.b.initial, s.targets, i.stabilityRuns)
    && s.report.spikes == CountTrue(i.spikes[..n]) == s.report.proactive + s.report.covered + s.report.missed
    && Counts(s.report.under, s.report.over, s.report.missed) == Counted(i.spikes[..n], s.committed, s.reactive)
    && s.reactiveReplicas == (if n == 0 then first else s.reactive[n - 1])
    && s.report.reactiveChanges == Changes(first, s.reactive)
    && (s.lastScaleUp.Some? || s.report.proactive > 0 ==> s.report.commits > 0)
  }

  /** The replay: targets, required and committed counts for every point, and the report. */
  method ReplayDecisions(i: Input)
    returns (report: Report, targets: seq<int>, reactive: seq<int>, committed: seq<int>)
    requires ValidInput(i)
    ensures |targets| == |reactive| == |i.points|
    ensures AreTargets(i.forecasts, i.caps, i.b, i.scaling, targets)
      && AreTargets(i.points, i.caps, i.b, i.scaling, reactive)
    ensures committed == Trace(i.b.initial, targets, i.stabilityRuns)
    ensures |committed| == |i.points| && forall k :: 0 <= k < |i.points| ==> i.b.min <= committed[k] <= i.b.max
    ensures report.commits == Commits(i.b.initial, targets, i.stabilityRuns)
    ensures i.stabilityRuns * report.commits <= |i.points|
    ensures report.spikes == CountTrue(i.spikes) == report.proactive + report.covered + report.missed
    ensures Counts(report.under, report.over, report.missed) == Counted(i.spikes, committed, reactive)
    ensures exists first ::
      IsDemand(i.points[0], i.caps, i.b, first) && report.reactiveChanges == Changes(first, reactive)
    ensures report.proactive == Proactive(i, committed, reactive)
    ensures report.proactive > 0 ==> report.commits > 0
  {
    var first := DemandReplicas(i.points[0], i.caps, i.b);
    var s := Progress(i.b.initial, i.b.initial, 0, first, None, Report(0, 0, 0, 0, 0, 0, 0, 0), [], [], []);
    for index := 0 to |i.points|
      invariant Followed(i, index, s) && Reported(i, index, s, first) && Tracked(i, s)
    {
      s := ReplayPoint(i, index, s, first);
    }
    ReplayEnds(i, s, first);
    report, targets, reactive, committed := s.report, s.targets, s.reactive, s.committed;
  }

  /** What holds of the counts and the report in the end. */
  lemma ReplayEnds(i: Input, s: Progress, first: int)
    requires ValidInput(i) && Followed(i, |i.points|, s) && Reported(i, |i.points|, s, first)
    ensures forall k :: 0 <= k < |i.points| ==> i.b.min <= s.committed[k] <= i.b.max
    ensures i.stabilityRuns * s.report.commits <= |i.points|
    ensures s.report.spikes == CountTrue(i.spikes)
    ensures Counts(s.report.under, s.report.over, s.report.missed) == Counted(i.spikes, s.committed, s.reactive)
  {
    assert i.spikes[..|i.points|] == i.spikes;
    CommitsAreRare(i.b.initial, s.targets, i.stabilityRuns);
    TargetsInBounds(i.forecasts, i.caps, i.b, i.scaling, s.targets);
    TraceInBounds(i.b.initial, s.targets, i.stabilityRuns, i.b.min, i.b.max);
  }

  /** One iteration: first the counts, then the report. */
  method ReplayPoint(i: Input, index: nat, s: Progress, ghost first: int) returns (t: Progress)
    requires ValidInput(i) && index < |i.points|
    requires Followed(i, index, s) && Reported(i, index, s, first) && Tracked(i, s)
    ensures Followed(i, index + 1, t) && Reported(i, index + 1, t, first) && Tracked(i, t)
  {
    t := FollowPoint(i, index, s);
    ghost var followed := t;
    t := ReportPoint(i, index, s, t);
    TalliedIsReported(i, index, s, followed, t, first);
    TalliedIsTracked(i, index, s, followed, t);
  }

  /** The counts have moved on by one point; the report has not. */
  ghost predicate Advanced(i: Input, s: Progress, t: Progress) {
    && t.report == s.report && t.lastScaleUp == s.lastScaleUp && t.reactiveReplicas == s.reactiveReplicas
    && |t.targets| > 0 && t.targets[..|t.targets| - 1] == s.targets
    && |t.reactive| > 0 && t.reactive == s.reactive + [t.reactive[|t.reactive| - 1]]
    && t.committed == s.committed + [t.current]
    && Commits(i.b.initial, t.targets, i.stabilityRuns)
       == Commits(i.b.initial, s.targets, i.stabilityRuns) + (if t.current != s.current then 1 else 0)
  }

  /** Required count, target and committed count at the next point. */
  method NextCounts(i: Input, index: nat, s: Progress) returns (required: int, target: int, current: int, pending: nat)
    requires ValidInput(i) && index < |i.points| && Followed(i, index, s)
    ensures AreTargets(i.points, i.caps, i.b, i.scaling, s.reactive + [required])
    ensures AreTargets(i.forecasts, i.caps, i.b, i.scaling, s.targets + [target])
    ensures current == Committed(i.b.initial, s.targets + [target], i.stabilityRuns)
    ensures pending == Run(s.targets + [target])
    ensures s.committed + [current] == Trace(i.b.initial, s.targets + [target], i.stabilityRuns)
    ensures Commits(i.b.initial, s.targets + [target], i.stabilityRuns)
         == Commits(i.b.initial, s.targets, i.stabilityRuns) + (if current != s.current then 1 else 0)
  {
    required := NextTarget(i.points, s.reactive, index, i.caps, i.b, i.scaling);
    target := NextTarget(i.forecasts, s.targets, index, i.caps, i.b, i.scaling);
    var pendingTarget;
    current, pendingTarget, pending :=
      Gate(i.b.initial, s.targets, target, i.stabilityRuns, s.current, s.pendingTarget, s.pendingCount);
    TraceAppend(i.b.initial, s.targets, target, i.stabilityRuns);
  }

  method FollowPoint(i: Input, index: nat, s: Progress) returns (t: Progress)
    requires ValidInput(i) && index < |i.points| && Followed(i, index, s)
    ensures Followed(i, index + 1, t) && Advanced(i, s, t)
  {
    var required, target, current, pending := NextCounts(i, index, s);
    t := s.(current := current, pendingTarget := target, pendingCount := pending,
            targets := s.targets + [target], reactive := s.reactive + [required], committed := s.committed + [current]);
  }

  /** The report has taken in the last point of the counts. */
  ghost predicate Tallied(i: Input, index: nat, s: Progress, t: Progress, u: Progress)
    requires index < |i.points| == |i.spikes| && index < |t.reactive|
  {
    var isSpike, required, r := i.spikes[index], t.reactive[index], u.report;
    var scaledUp := if t.current > s.current then Some(i.points[index].timestamp) else s.lastScaleUp;
    && u == t.(report := r, lastScaleUp := scaledUp, reactiveReplicas := required)
    && r.commits == s.report.commits + (if t.current != s.current then 1 else 0)
    && r.spikes == s.report.spikes + (if isSpike then 1 else 0)
    && r.proactive + r.covered + r.missed
       == s.report.proactive + s.report.covered + s.report.missed + (if isSpike then 1 else 0)
    && r.missed == s.report.missed + (if isSpike && t.current < required then 1 else 0)
    && r.under == s.report.under + (if t.current < required then 1 else 0)
    && r.over == s.report.over + (if Excessive(t.current, required) then 1 else 0)
    && r.reactiveChanges == s.report.reactiveChanges + (if required != s.reactiveReplicas then 1 else 0)
    && r.proactive == s.report.proactive
       + (if isSpike && t.current >= required > i.b.min
             && scaledUp.Some? && 0 < i.points[index].timestamp - scaledUp.value <= i.horizonAndStep then 1 else 0)
  }

  method ReportPoint(i: Input, index: nat, s: Progress, t: Progress) returns (u: Progress)
    requires index < |i.points| == |i.spikes| && index < |t.reactive|
    requires t.report == s.report && t.lastScaleUp == s.lastScaleUp && t.reactiveReplicas == s.reactiveReplicas
    ensures Tallied(i, index, s, t, u)
  {
    var required, report := t.reactive[index], t.report;
    if required != t.reactiveReplicas {
      report := report.(reactiveChanges := report.reactiveChanges + 1);
    }
    var lastScaleUp;
    report, lastScaleUp :=
      Tally(report, t.lastScaleUp, i.points[index].timestamp, i.spikes[index], s.current, t.current, required, i.b,
            i.horizonAndStep);
    u := t.(report := report, lastScaleUp := lastScaleUp, reactiveReplicas := required);
  }

  lemma TalliedIsReported(i: Input, index: nat, s: Progress, t: Progress, u: Progress, first: int)
    requires index < |i.points| == |i.spikes| && |s.targets| == |s.reactive| == |s.committed| == index
    requires Reported(i, index, s, first) && Advanced(i, s, t) && Tallied(i, index, s, t, u)
    ensures Reported(i, index + 1, u, first)
  {
    CountersStep(i, index, s, t, t.reactive[index], first);
  }

  lemma TalliedIsTracked(i: Input, index: nat, s: Progress, t: Progress, u: Progress)
    requires index < |i.points| == |i.spikes| && |s.targets| == |s.reactive| == |s.committed| == index
    requires Tracked(i, s) && Advanced(i, s, t) && Tallied(i, index, s, t, u)
    ensures Tracked(i, u)
  {
    TrackedStep(i, s, t.current, t.reactive[index]);
  }

  /** What the counters of the report must be after one more point. */
  lemma CountersStep(i: Input, index: nat, s: Progress, t: Progress, required: int, first: int)
    requires index < |i.points| == |i.spikes| && |s.targets| == |s.reactive| == |s.committed| == index
    requires Advanced(i, s, t) && required == t.reactive[index]
    ensures CountTrue(i.spikes[..index + 1]) == CountTrue(i.spikes[..index]) + (if i.spikes[index] then 1 else 0)
    ensures var before := Counted(i.spikes[..index], s.committed, s.reactive);
      Counted(i.spikes[..index + 1], t.committed, t.reactive)
      == Counts(before.under + (if t.current < required then 1 else 0),
                before.over + (if Excessive(t.current, required) then 1 else 0),
                before.missed + (if i.spikes[index] && t.current < required then 1 else 0))
    ensures Changes(first, t.reactive)
         == Changes(first, s.reactive) + if required != (if index == 0 then first else s.reactive[index - 1])
           then 1 else 0
  {
    CountedAppend(i.spikes, index, s.committed, t.current, s.reactive, required);
    ChangesAppend(first, s.reactive, required);
    CountTrueStep(i.spikes, index);
  }

  lemma CountTrueStep(flags: seq<bool>, i: nat)
    requires i < |flags|
    ensures CountTrue(flags[..i + 1]) == CountTrue(flags[..i]) + if flags[i] then 1 else 0
  {
    assert flags[..i + 1][..i] == flags[..i];
  }

  lemma TraceAppend(initial: int, targets: seq<int>, target: int, runs: int)
    ensures Trace(initial, targets + [target], runs)
         == Trace(initial, targets, runs) + [Committed(initial, targets + [target], runs)]
  {
    assert (targets + [target])[..|targets|] == targets;
  }

  lemma CountedAppend(spikes: seq<bool>, i: nat, committed: seq<int>, current: int, reactive: seq<int>, required: int)
    requires i < |spikes| && |committed| == |reactive| == i
    ensures var before := Counted(spikes[..i], committed, reactive);
      Counted(spikes[..i + 1], committed + [current], reactive + [required])
      == Counts(before.under + (if current < required then 1 else 0),
                before.over + (if Excessive(current, required) then 1 else 0),
                before.missed + (if spikes[i] && current < required then 1 else 0))
  {
    assert spikes[..i + 1][..i] == spikes[..i];
    assert (committed + [current])[..i] == committed && (reactive + [required])[..i] == reactive;
  }

  lemma ChangesAppend(first: int, counts: seq<int>, count: int)
    ensures Changes(first, counts + [count])
         == Changes(first, counts) + if count != (if counts == [] then first else counts[|counts| - 1]) then 1 else 0
  {
    assert (counts + [count])[..|counts|] == counts;
  }
}
