/**
 * The joint choice of replica count and requests (internal/analyzer/analyzer.go, optimizeReplicaResourcePlan
 * and candidateReplicaResourcePlan).
 */
module Optimizer {
  import opened Numbers
  import opened Options
  import opened Sizing

  /** What the optimiser knows of one resource of the container. */
  datatype Resource = Resource(
    unit: Unit, managed: bool, request: real, hasDemand: bool, demand: real, canDecrease: bool, policy: Policy)

  /** The demand constrains the plan only when demand, target and request are all known and positive. */
  predicate Constrained(r: Resource) {
    r.hasDemand && r.demand > 0.0 && r.policy.target > 0.0 && r.request > 0.0
  }

  function RoundUp(unit: Unit, amount: real): real {
    Value(unit, Rounded(unit, amount))
  }

  /** The request per replica when `n` replicas share the demand at target utilization. */
  function Share(r: Resource, n: int): real
    requires r.policy.target > 0.0 && n >= 1
  {
    PositiveProduct(n as real, r.policy.target);
    r.demand / (n as real * r.policy.target)
  }

  /** The request a plan for `n` replicas carries. */
  function Amount(r: Resource, n: int): real
    requires n >= 1
  {
    if Constrained(r) && r.managed && !(Share(r, n) < r.request && !r.canDecrease)
    then RoundUp(r.unit, Bounded(r.request, Share(r, n), r.policy.maxIncreasePercent, r.policy.maxDecreasePercent))
    else r.request
  }

  /** At target utilization, `n` replicas with this request serve at least 99% of the demand. */
  predicate Serves(r: Resource, amount: real, n: int) {
    amount * n as real * r.policy.target >= r.demand * 0.99
  }

  predicate Covers(r: Resource, amount: real, n: int) {
    Constrained(r) ==> Serves(r, amount, n)
  }

  predicate Feasible(cpu: Resource, memory: Resource, n: int)
    requires n >= 1
  {
    Covers(cpu, Amount(cpu, n), n) && Covers(memory, Amount(memory, n), n)
  }

  function Normalized(value: real, baseline: real): real {
    if baseline <= 0.0 then 0.0 else value / baseline
  }

  /** Lower is better: total resources relative to today's, and a small price for every replica. */
  function TotalScore(cpu: Resource, cores: real, memory: Resource, bytes: real, current: int, n: int): real {
    Normalized(cores * n as real, cpu.request * current as real)
    + Normalized(bytes * n as real, memory.request * current as real)
    + n as real * 0.02
  }

  function Score(cpu: Resource, memory: Resource, current: int, n: int): real
    requires n >= 1
  {
    TotalScore(cpu, Amount(cpu, n), memory, Amount(memory, n), current, n)
  }

  function Lowest(floor: int): int {
    if floor < 1 then 1 else floor
  }

  /** `max` is the configured maximum; values that are not positive mean none. */
  function Highest(floor: int, ceiling: int, replicas: int, max: int): int {
    var top := MaxInt(Lowest(floor), MaxInt(ceiling, replicas));
    if max > 0 && top > max then max else top
  }

  /** Keeping the current request because it may not shrink always covers the demand. */
  lemma HeldRequestCovers(r: Resource, n: int)
    requires n >= 1 && Constrained(r) && Share(r, n) < r.request
    ensures Covers(r, r.request, n)
  {
    var f := n as real * r.policy.target;
    PositiveProduct(n as real, r.policy.target);
    DivideAndMultiply(r.demand, f);
    Less(Share(r, n), r.request, f);
    assert r.request * n as real * r.policy.target == r.request * f;
  }

  // ----- what the choice is between -----

  /** The counts that are tried: from the floor on, up to the ceiling or what is there, within the maximum. */
  lemma RangeMeans(floor: int, ceiling: int, replicas: int, max: int, n: int)
    ensures Lowest(floor) <= n <= Highest(floor, ceiling, replicas, max)
       <==> && 1 <= n && floor <= n && (n <= ceiling || n <= replicas || n == Lowest(floor))
            && (max > 0 ==> n <= max)
  {
  }

  /** A count is feasible unless a resource with a known demand would fall more than a hundredth short of it. */
  lemma FeasibleExactly(cpu: Resource, memory: Resource, n: int)
    requires n >= 1
    ensures Feasible(cpu, memory, n)
       <==> !FallsShort(cpu, Amount(cpu, n), n) && !FallsShort(memory, Amount(memory, n), n)
  {
    CoversMeans(cpu, Amount(cpu, n), n);
    CoversMeans(memory, Amount(memory, n), n);
  }

  ghost predicate FallsShort(r: Resource, amount: real, n: int) {
    && r.hasDemand && r.demand > 0.0 && r.policy.target > 0.0 && r.request > 0.0
    && 100.0 * (amount * n as real * r.policy.target) < 99.0 * r.demand
  }

  lemma CoversMeans(r: Resource, amount: real, n: int)
    ensures Covers(r, amount, n) <==> !FallsShort(r, amount, n)
  {
  }

  /** All replicas at target utilization serve the demand. */
  lemma ShareMeans(r: Resource, n: int)
    requires n >= 1 && r.policy.target > 0.0
    ensures Share(r, n) * (n as real * r.policy.target) == r.demand
  {
    PositiveProduct(n as real, r.policy.target);
    DivideAndMultiply(r.demand, n as real * r.policy.target);
  }

  lemma NormalizedMeans(value: real, baseline: real, scale: real)
    requires baseline > 0.0
    ensures Normalized(value, baseline) * (baseline * scale) == value * scale
  {
    DivideAndMultiply(value, baseline);
    var q := value / baseline;
    assert q * (baseline * scale) == q * baseline * scale;
  }

  lemma Distribute(x: real, y: real, z: real, d: real)
    ensures (x + y + z) * d == x * d + y * d + z * d
  {
  }

  /**
   * One plan is cheaper than another exactly if it takes less of what is requested today, in CPU and in memory, where
   * another replica counts as two hundredths of all of it.
   */
  lemma CheaperExactly(
      cpu: Resource, memory: Resource, current: int, cores: real, bytes: real, n: int, otherCores: real,
      otherBytes: real, m: int, c: real, b: real)
    requires current >= 1 && cpu.request > 0.0 && memory.request > 0.0
    requires c == cpu.request * current as real && b == memory.request * current as real
    ensures TotalScore(cpu, cores, memory, bytes, current, n)
          < TotalScore(cpu, otherCores, memory, otherBytes, current, m)
      <==> cores * n as real * b + bytes * n as real * c + n as real * 0.02 * (c * b)
           < otherCores * m as real * b + otherBytes * m as real * c + m as real * 0.02 * (c * b)
  {
    PositiveProduct(cpu.request, current as real);
    PositiveProduct(memory.request, current as real);
    PositiveProduct(c, b);
    ScoreTimes(cpu, memory, current, cores, bytes, n, c, b);
    ScoreTimes(cpu, memory, current, otherCores, otherBytes, m, c, b);
    Less(TotalScore(cpu, cores, memory, bytes, current, n),
         TotalScore(cpu, otherCores, memory, otherBytes, current, m), c * b);
  }

  lemma ScoreTimes(
      cpu: Resource, memory: Resource, current: int, cores: real, bytes: real, n: int, c: real, b: real)
    requires c == cpu.request * current as real > 0.0 && b == memory.request * current as real > 0.0
    ensures TotalScore(cpu, cores, memory, bytes, current, n) * (c * b)
         == cores * n as real * b + bytes * n as real * c + n as real * 0.02 * (c * b)
  {
    NormalizedMeans(cores * n as real, c, b);
    NormalizedMeans(bytes * n as real, b, c);
    assert b * c == c * b;
    Distribute(Normalized(cores * n as real, c), Normalized(bytes * n as real, b), n as real * 0.02, c * b);
  }

  /** A resource without a request does not count. */
  lemma ScoreOfUnknown(cpu: Resource, memory: Resource, current: int, cores: real, bytes: real, n: int)
    requires current >= 1 && cpu.request <= 0.0 && memory.request <= 0.0
    ensures TotalScore(cpu, cores, memory, bytes, current, n) == n as real * 0.02
  {
    NotPositive(cpu.request, current as real);
    NotPositive(memory.request, current as real);
  }

  lemma NotPositive(x: real, y: real)
    requires x <= 0.0 && y > 0.0
    ensures x * y <= 0.0
  {
  }

  datatype Plan = NoPlan | Plan(replicas: int, cpu: real, memory: real, score: real)

  /** One resource of a candidate: the request, unless it leaves too much demand unserved. */
  method Fit(r: Resource, n: int) returns (amount: real, ok: bool)
    requires n >= 1
    ensures ok == Covers(r, Amount(r, n), n) && amount == Amount(r, n)
  {
    amount := r.request;
    if Constrained(r) {
      var share := Share(r, n);
      if r.managed {
        if share < r.request && !r.canDecrease {
          HeldRequestCovers(r, n);
        } else {
          amount := RoundUp(r.unit, Bounded(r.request, share, r.policy.maxIncreasePercent,
                                            r.policy.maxDecreasePercent));
          if !Serves(r, amount, n) {
            return amount, false;
          }
        }
      } else if !Serves(r, r.request, n) {
        return amount, false;
      }
    }
    ok := true;
  }

  method Candidate(cpu: Resource, memory: Resource, current: int, n: int) returns (plan: Plan)
    requires n >= 1
    ensures plan == if Feasible(cpu, memory, n)
                    then Plan(n, Amount(cpu, n), Amount(memory, n), Score(cpu, memory, current, n)) else NoPlan
  {
    var cores, cpuFits := Fit(cpu, n);
    if !cpuFits {
      return NoPlan;
    }
    var bytes, memoryFits := Fit(memory, n);
    if !memoryFits {
      return NoPlan;
    }
    return Plan(n, cores, bytes, TotalScore(cpu, cores, memory, bytes, current, n));
  }

  /** `n` beats every other feasible count, and costs strictly less than every smaller one. */
  ghost predicate Best(cpu: Resource, memory: Resource, current: int, low: int, high: int, n: int)
    requires low >= 1
  {
    && low <= n <= high && Feasible(cpu, memory, n)
    && forall m :: low <= m <= high && Feasible(cpu, memory, m) ==>
         if m < n then Score(cpu, memory, current, n) < Score(cpu, memory, current, m)
         else Score(cpu, memory, current, n) <= Score(cpu, memory, current, m)
  }

  method Optimize(cpu: Resource, memory: Resource, replicas: int, max: int, floor: int, ceiling: int)
    returns (best: Plan)
    ensures var low, high := Lowest(floor), Highest(floor, ceiling, replicas, max);
      && (best.NoPlan? <==> forall n :: low <= n <= high ==> !Feasible(cpu, memory, n))
      && (best.Plan? ==>
            && Best(cpu, memory, MaxInt(replicas, 1), low, high, best.replicas)
            && best.cpu == Amount(cpu, best.replicas) && best.memory == Amount(memory, best.replicas)
            && Covers(cpu, best.cpu, best.replicas) && Covers(memory, best.memory, best.replicas))
  {
    var low, high := Lowest(floor), Highest(floor, ceiling, replicas, max);
    var current := MaxInt(replicas, 1);
    best := NoPlan;
    var n := low;
    while n <= high
      invariant low <= n && (low <= high ==> n <= high + 1)
      invariant best.Plan? ==> low <= high
      invariant best.NoPlan? ==> forall m :: low <= m < n ==> !Feasible(cpu, memory, m)
      invariant best.Plan? ==>
        && Best(cpu, memory, current, low, n - 1, best.replicas)
        && best == Plan(best.replicas, Amount(cpu, best.replicas), Amount(memory, best.replicas),
                        Score(cpu, memory, current, best.replicas))
    {
      var plan := Candidate(cpu, memory, current, n);
      if plan.Plan? && (best.NoPlan? || plan.score < best.score) {
        best := plan;
      }
      n := n + 1;
    }
    assert best.Plan? ==> low <= best.replicas <= high && Feasible(cpu, memory, best.replicas);
  }

  // ----- requests under a kept count -----

  /** The resource with a request of `x` milli-cores or bytes. */
  function Requesting(r: Resource, x: int): Resource {
    r.(request := Value(r.unit, x))
  }

  /** What the plan for `n` replicas makes of the request. There are no thresholds on utilization. */
  function PlanResize(r: Resource, n: int): Resized
    requires n >= 1
  {
    if Constrained(r) && r.managed && !(Share(r, n) < r.request && !r.canDecrease)
    then To(Bounded(r.request, Share(r, n), r.policy.maxIncreasePercent, r.policy.maxDecreasePercent))
    else Hold
  }

  /** The request of a plan is kept if it is not managed or may not shrink; else it goes towards its share. */
  lemma PlanResizeMeans(r: Resource, n: int)
    requires n >= 1 && Sane(r.policy)
    ensures !(r.managed && r.hasDemand && r.demand > 0.0 && r.request > 0.0) ==> PlanResize(r, n) == Hold
    ensures r.managed && r.hasDemand && r.demand > 0.0 && r.request > 0.0 ==>
      && (Share(r, n) < r.request && !r.canDecrease ==> PlanResize(r, n) == Hold)
      && (Share(r, n) < r.request && r.canDecrease ==>
            PlanResize(r, n) == To(Max(Share(r, n), r.request * (1.0 - r.policy.maxDecreasePercent as real / 100.0))))
      && (Share(r, n) > r.request ==>
            PlanResize(r, n) == To(Min(Share(r, n), r.request * (1.0 + r.policy.maxIncreasePercent as real / 100.0))))
  {
    if r.request > 0.0 {
      BoundedMeans(r.request, Share(r, n), r.policy.maxIncreasePercent, r.policy.maxDecreasePercent);
    }
  }

  /** The request after a reconcile. The limit of the container is not looked at, the threshold for changes is. */
  function PlanStep(r: Resource, n: int, x: int, minChangePercent: real): int
    requires n >= 1
  {
    if x <= 0 then x else Next(r.unit, x, PlanResize(Requesting(r, x), n), None, minChangePercent)
  }

  lemma PlanStepIsAmount(r: Resource, n: int, x: int)
    requires n >= 1
    ensures Amount(Requesting(r, x), n) == Value(r.unit, PlanStep(r, n, x, 0.0))
  {
  }

  function PlanGoal(r: Resource, n: int): int
    requires n >= 1 && r.policy.target > 0.0
  {
    Quanta(r.unit, Level(r.unit, Share(r, n)))
  }

  lemma BoundedMeets(request: real, wanted: real, inc: int, dec: int)
    requires request > 0.0 && 0 < inc && 0 < dec < 100
    ensures Between(request, Bounded(request, wanted, inc, dec), wanted)
  {
    BoundedBetween(request, wanted, inc, dec);
    PositiveProduct(request, inc as real / 100.0);
    PositiveProduct(request, dec as real / 100.0);
    assert request * (1.0 + inc as real / 100.0) == request + request * (inc as real / 100.0);
    assert request * (1.0 - dec as real / 100.0) == request - request * (dec as real / 100.0);
  }

  lemma PlanResizeMeets(r: Resource, n: int)
    requires n >= 1 && r.request > 0.0 && Sane(r.policy)
    ensures var resized := PlanResize(r, n); resized.To? ==> Between(r.request, resized.amount, Share(r, n))
  {
    BoundedMeets(r.request, Share(r, n), r.policy.maxIncreasePercent, r.policy.maxDecreasePercent);
  }

  lemma SameShare(r: Resource, n: int, x: int)
    requires n >= 1 && r.policy.target > 0.0
    ensures Share(Requesting(r, x), n) == Share(r, n)
  {
  }

  lemma PlanStepTowardsGoal(r: Resource, n: int, x: int, minChangePercent: real)
    requires n >= 1 && Sane(r.policy) && x > 0
    ensures StepsTo(r.unit, None, x, PlanStep(r, n, x, minChangePercent), PlanGoal(r, n))
  {
    PlanResizeMeets(Requesting(r, x), n);
    SameShare(r, n, x);
    NextStepsTo(r.unit, x, Share(r, n), PlanResize(Requesting(r, x), n), None, minChangePercent);
  }

  lemma PlanStepLeads(r: Resource, n: int, minChangePercent: real)
    requires n >= 1 && Sane(r.policy)
    ensures Leads(y => PlanStep(r, n, y, minChangePercent), r.unit, None, PlanGoal(r, n))
  {
    forall y | y > 0 ensures StepsTo(r.unit, None, y, PlanStep(r, n, y, minChangePercent), PlanGoal(r, n)) {
      PlanStepTowardsGoal(r, n, y, minChangePercent);
    }
  }

  /** As long as the count is kept, every request of the joint choice converges under fixed demand. */
  lemma KeptCountConverges(r: Resource, n: int, x: int, minChangePercent: real)
    requires n >= 1 && Sane(r.policy) && x > 0
    ensures ConvergesLater(y => PlanStep(r, n, y, minChangePercent), r.unit, None, x, PlanGoal(r, n))
  {
    PlanStepLeads(r, n, minChangePercent);
    QuantaAreAligned(r.unit, Level(r.unit, Share(r, n)));
    LeadsConverges(y => PlanStep(r, n, y, minChangePercent), r.unit, None, x, PlanGoal(r, n));
  }
}
