/**
 * Request sizing (internal/analyzer/analyzer.go): the learned resource policy, the bounded request step
 * and what iterating that step converges to. CPU is sized in steps of ten milli-cores, memory in steps of
 * one Mi, but a request may start anywhere. Floating point is modelled by `real`.
 */
module Sizing {
  import opened Numbers
  import opened Options

  function Min(x: real, y: real): real {
    if x < y then x else y
  }

  function Max(x: real, y: real): real {
    if x > y then x else y
  }

  function ClampFloat(value: real, low: real, high: real): real {
    if value < low then low else if value > high then high else value
  }

  // ----- the learned policy -----

  datatype Profile = Profile(
    minTarget: real, maxTarget: real,
    minIncreasePercent: int, maxIncreasePercent: int, minDecreasePercent: int, maxDecreasePercent: int,
    increaseGap: real, increaseVolatility: real, decreaseGap: real, decreaseVolatility: real)

  const CPU_PROFILE := Profile(0.55, 0.72, 35, 125, 10, 45, 0.08, 0.10, 0.15, 0.15)
  const MEMORY_PROFILE := Profile(0.70, 0.84, 20, 75, 5, 35, 0.08, 0.08, 0.16, 0.18)

  datatype History = NoHistory | History(points: int, p50: real, p95: real, max: real)

  /** Operator limits on one step; values that are not positive mean no limit. */
  datatype Guardrail = Guardrail(maxIncreasePercent: int, maxDecreasePercent: int)

  datatype Policy = Policy(
    target: real, increaseThreshold: real, decreaseThreshold: real, maxIncreasePercent: int, maxDecreasePercent: int)

  function Volatility(history: History): real {
    if history.History? && history.points >= 12 && history.p95 > 0.0 then
      var spread := ClampFloat((history.p95 - history.p50) / history.p95, 0.0, 1.0);
      var burst := ClampFloat((history.max - history.p95) / history.p95, 0.0, 1.0);
      ClampFloat(spread * 0.7 + burst * 0.3, 0.0, 1.0)
    else
      0.65
  }

  function PercentFromVolatility(atLow: int, atHigh: int, volatility: real): int {
    Round(atLow as real + (atHigh - atLow) as real * ClampFloat(volatility, 0.0, 1.0))
  }

  function Guarded(percent: int, limit: int): int {
    if limit > 0 && percent > limit then limit else percent
  }

  function Target(profile: Profile, volatility: real): real {
    profile.maxTarget - (profile.maxTarget - profile.minTarget) * volatility
  }

  function PolicyFrom(target: real, raise: real, lower: real, up: int, down: int, guardrail: Guardrail): Policy {
    Policy(target, ClampFloat(target + raise, target, 0.95), ClampFloat(target - lower, 0.05, target),
           Guarded(up, guardrail.maxIncreasePercent), Guarded(down, guardrail.maxDecreasePercent))
  }

  function LearnedPolicy(history: History, profile: Profile, guardrail: Guardrail): Policy {
    var v := Volatility(history);
    PolicyFrom(Target(profile, v),
               profile.increaseGap + profile.increaseVolatility * v,
               profile.decreaseGap + profile.decreaseVolatility * v,
               PercentFromVolatility(profile.minIncreasePercent, profile.maxIncreasePercent, v),
               PercentFromVolatility(profile.maxDecreasePercent, profile.minDecreasePercent, v),
               guardrail)
  }

  /** What the step below relies on. */
  ghost predicate Sane(policy: Policy) {
    && 0.0 < policy.decreaseThreshold <= policy.target <= policy.increaseThreshold
    && 0 < policy.maxIncreasePercent
    && 0 < policy.maxDecreasePercent < 100
  }

  ghost predicate SaneProfile(profile: Profile) {
    && 0.05 <= profile.minTarget <= profile.maxTarget <= 0.95
    && 0 < profile.minIncreasePercent <= profile.maxIncreasePercent
    && 0 < profile.minDecreasePercent <= profile.maxDecreasePercent < 100
  }

  lemma Fraction(d: real, v: real)
    requires 0.0 <= d && 0.0 <= v <= 1.0
    ensures 0.0 <= d * v <= d
  {
    assert d * (1.0 - v) >= 0.0;
  }

  lemma Interpolate(low: real, high: real, v: real)
    requires low <= high && 0.0 <= v <= 1.0
    ensures 0.0 <= (high - low) * v <= high - low
  {
    Fraction(high - low, v);
  }

  lemma PercentBetween(low: int, high: int, v: real)
    requires low <= high && 0.0 <= v <= 1.0
    ensures low <= PercentFromVolatility(low, high, v) <= high
    ensures low <= PercentFromVolatility(high, low, v) <= high
  {
    Interpolate(low as real, high as real, v);
    assert (high - low) as real == high as real - low as real;
    assert (low - high) as real * v == -((high as real - low as real) * v);
  }

  lemma BuiltInProfilesAreSane()
    ensures SaneProfile(CPU_PROFILE) && SaneProfile(MEMORY_PROFILE)
  {
  }

  lemma VolatilityBounds(history: History)
    ensures 0.0 <= Volatility(history) <= 1.0
  {
  }

  lemma TargetBounds(profile: Profile, v: real)
    requires SaneProfile(profile) && 0.0 <= v <= 1.0
    ensures profile.minTarget <= Target(profile, v) <= profile.maxTarget
  {
    Interpolate(profile.minTarget, profile.maxTarget, v);
  }

  lemma SaneParts(target: real, raise: real, lower: real, up: int, down: int, guardrail: Guardrail)
    requires 0.05 <= target <= 0.95 && 0 < up && 0 < down < 100
    ensures var policy := PolicyFrom(target, raise, lower, up, down, guardrail);
      Sane(policy) && policy.target == target && policy.increaseThreshold <= 0.95
  {
  }

  /** Whatever the history and the operator limits are, the learned policy is sane. */
  lemma LearnedPolicyIsSane(history: History, profile: Profile, guardrail: Guardrail)
    requires SaneProfile(profile)
    ensures var policy := LearnedPolicy(history, profile, guardrail);
      Sane(policy) && profile.minTarget <= policy.target <= profile.maxTarget && policy.increaseThreshold <= 0.95
  {
    var v := Volatility(history);
    VolatilityBounds(history);
    TargetBounds(profile, v);
    PercentBetween(profile.minIncreasePercent, profile.maxIncreasePercent, v);
    PercentBetween(profile.minDecreasePercent, profile.maxDecreasePercent, v);
    SaneParts(Target(profile, v),
              profile.increaseGap + profile.increaseVolatility * v,
              profile.decreaseGap + profile.decreaseVolatility * v,
              PercentFromVolatility(profile.minIncreasePercent, profile.maxIncreasePercent, v),
              PercentFromVolatility(profile.maxDecreasePercent, profile.minDecreasePercent, v),
              guardrail);
  }

  // ----- what the policy learns -----

  /**
   * Seven tenths of the volatility are how far the median lies below the 95th percentile, three tenths how far the
   * maximum lies above it; with fewer than twelve points it is 0.65.
   */
  lemma VolatilityMeans(history: History)
    ensures history.NoHistory? || history.points < 12 || history.p95 <= 0.0 ==> Volatility(history) == 0.65
    ensures history.History? && history.points >= 12 && history.p95 > 0.0
            && 0.0 <= history.p50 <= history.p95 <= history.max <= 2.0 * history.p95 ==>
      Volatility(history) * history.p95 == 0.7 * (history.p95 - history.p50) + 0.3 * (history.max - history.p95)
  {
    if history.History? && history.p95 > 0.0 && 0.0 <= history.p50 <= history.p95 <= history.max <= 2.0 * history.p95 {
      ShareOf(history.p95 - history.p50, history.p95);
      ShareOf(history.max - history.p95, history.p95);
    }
  }

  lemma ShareOf(part: real, whole: real)
    requires whole > 0.0 && 0.0 <= part <= whole
    ensures 0.0 <= part / whole <= 1.0 && part / whole * whole == part
  {
    DivideAndMultiply(part, whole);
    Less(part / whole, 0.0, whole);
    Less(1.0, part / whole, whole);
  }

  /** A median outside of its range counts as the end of it, and a maximum like one that is at most twice as high. */
  lemma VolatilityIsLimited(history: History)
    requires history.History? && history.p95 > 0.0
    ensures Volatility(history)
         == Volatility(history.(p50 := ClampFloat(history.p50, 0.0, history.p95),
                                max := ClampFloat(history.max, history.p95, 2.0 * history.p95)))
  {
    Saturates(history.p95 - history.p50, history.p95 - ClampFloat(history.p50, 0.0, history.p95), history.p95);
    Saturates(history.max - history.p95, ClampFloat(history.max, history.p95, 2.0 * history.p95) - history.p95,
              history.p95);
  }

  lemma Saturates(part: real, other: real, whole: real)
    requires whole > 0.0 && other == ClampFloat(part, 0.0, whole)
    ensures ClampFloat(part / whole, 0.0, 1.0) == ClampFloat(other / whole, 0.0, 1.0)
  {
    DivideAndMultiply(part, whole);
    Less(part / whole, 0.0, whole);
    Less(1.0, part / whole, whole);
  }

  lemma QuotientOrder(x: real, y: real, d: real)
    requires x <= y && d > 0.0
    ensures x / d <= y / d
  {
    DivideAndMultiply(x, d);
    DivideAndMultiply(y, d);
    Less(y / d, x / d, d);
  }

  /** A lower median or a higher maximum is more volatile. */
  lemma VolatilityOrder(history: History, p50: real, max: real)
    requires history.History? && p50 <= history.p50 && history.max <= max
    ensures Volatility(history) <= Volatility(history.(p50 := p50, max := max))
  {
    if history.p95 > 0.0 {
      QuotientOrder(history.p95 - history.p50, history.p95 - p50, history.p95);
      QuotientOrder(history.max - history.p95, max - history.p95, history.p95);
    }
  }

  lemma PercentOrder(low: int, high: int, v: real, w: real)
    requires low <= high && 0.0 <= v <= w <= 1.0
    ensures PercentFromVolatility(low, high, v) <= PercentFromVolatility(low, high, w)
    ensures PercentFromVolatility(high, low, w) <= PercentFromVolatility(high, low, v)
  {
    var d, e := (high - low) as real, (low - high) as real;
    Products(d, v, w);
    Opposite(d, e, v);
    Opposite(d, e, w);
    RoundOrder(low as real + d * v, low as real + d * w);
    RoundOrder(high as real + e * w, high as real + e * v);
  }

  lemma Opposite(d: real, e: real, v: real)
    requires e == -d
    ensures e * v == -(d * v)
  {
  }

  lemma RoundOrder(x: real, y: real)
    requires x <= y
    ensures Round(x) <= Round(y)
  {
  }

  lemma Products(d: real, v: real, w: real)
    requires 0.0 <= d && v <= w
    ensures d * v <= d * w
  {
    assert d * (w - v) >= 0.0;
  }

  /** The more volatile the history, the lower is the target, the larger are increases and the smaller decreases. */
  lemma VolatilityMakesCautious(calm: History, wild: History, profile: Profile, guardrail: Guardrail)
    requires SaneProfile(profile) && Volatility(calm) <= Volatility(wild)
    ensures var some, other := LearnedPolicy(calm, profile, guardrail), LearnedPolicy(wild, profile, guardrail);
      && other.target <= some.target
      && some.maxIncreasePercent <= other.maxIncreasePercent && other.maxDecreasePercent <= some.maxDecreasePercent
  {
    var v, w := Volatility(calm), Volatility(wild);
    VolatilityBounds(calm);
    VolatilityBounds(wild);
    LearnedParts(calm, profile, guardrail, v);
    LearnedParts(wild, profile, guardrail, w);
    TargetOrder(profile, v, w);
    PercentOrder(profile.minIncreasePercent, profile.maxIncreasePercent, v, w);
    PercentOrder(profile.minDecreasePercent, profile.maxDecreasePercent, v, w);
  }

  lemma TargetOrder(profile: Profile, v: real, w: real)
    requires profile.minTarget <= profile.maxTarget && v <= w
    ensures Target(profile, w) <= Target(profile, v)
  {
    Products(profile.maxTarget - profile.minTarget, v, w);
  }

  lemma LearnedParts(history: History, profile: Profile, guardrail: Guardrail, v: real)
    requires v == Volatility(history)
    ensures var policy := LearnedPolicy(history, profile, guardrail);
      && policy.target == Target(profile, v)
      && policy.maxIncreasePercent == Guarded(PercentFromVolatility(profile.minIncreasePercent,
                                                profile.maxIncreasePercent, v), guardrail.maxIncreasePercent)
      && policy.maxDecreasePercent == Guarded(PercentFromVolatility(profile.maxDecreasePercent,
                                                profile.minDecreasePercent, v), guardrail.maxDecreasePercent)
  {
  }

  /** Operator limits cap a step, and nothing else. */
  lemma GuardrailsCap(history: History, profile: Profile, guardrail: Guardrail)
    ensures var free, capped := LearnedPolicy(history, profile, Guardrail(0, 0)),
                                LearnedPolicy(history, profile, guardrail);
      capped == free.(
        maxIncreasePercent := if guardrail.maxIncreasePercent <= 0 then free.maxIncreasePercent
                              else MinInt(free.maxIncreasePercent, guardrail.maxIncreasePercent),
        maxDecreasePercent := if guardrail.maxDecreasePercent <= 0 then free.maxDecreasePercent
                              else MinInt(free.maxDecreasePercent, guardrail.maxDecreasePercent))
  {
  }

  /** A day of steady use, and one with bursts to twice the 95th percentile. */
  const STEADY := History(24, 3.0, 3.0, 3.0)
  const BURSTING := History(24, 0.0, 3.0, 6.0)

  /** What the built-in profiles come to for them, and without enough history. */
  lemma BuiltInPolicies()
    ensures LearnedPolicy(STEADY, CPU_PROFILE, Guardrail(0, 0)) == Policy(0.72, 0.80, 0.57, 35, 45)
    ensures LearnedPolicy(STEADY, MEMORY_PROFILE, Guardrail(0, 0)) == Policy(0.84, 0.92, 0.68, 20, 35)
    ensures LearnedPolicy(BURSTING, CPU_PROFILE, Guardrail(0, 0)) == Policy(0.55, 0.73, 0.25, 125, 10)
    ensures LearnedPolicy(BURSTING, MEMORY_PROFILE, Guardrail(0, 0)) == Policy(0.70, 0.86, 0.36, 75, 5)
    ensures LearnedPolicy(NoHistory, CPU_PROFILE, Guardrail(0, 0)) == Policy(0.6095, 0.7545, 0.3620, 94, 22)
    ensures LearnedPolicy(NoHistory, MEMORY_PROFILE, Guardrail(0, 0)) == Policy(0.749, 0.881, 0.472, 56, 16)
  {
    VolatilityMeans(STEADY);
    VolatilityMeans(BURSTING);
    assert Volatility(STEADY) == 0.0 && Volatility(BURSTING) == 1.0;
  }

  // ----- the bounded request -----

  function Bounded(current: real, recommended: real, maxIncreasePercent: int, maxDecreasePercent: int): real {
    var raised := if maxIncreasePercent > 0
                  then Min(recommended, current * (1.0 + maxIncreasePercent as real / 100.0)) else recommended;
    if maxDecreasePercent > 0
    then Max(raised, current * (1.0 - maxDecreasePercent as real / 100.0)) else raised
  }

  /** From cores to milli-cores, up to a multiple of ten. */
  function RoundToMilli(cores: real): int {
    var milli := Ceil(cores * 1000.0 / 10.0) * 10;
    if milli < 1 then 1 else milli
  }

  const MI := 1048576.0

  /** From bytes to Mi, rounded up. */
  function RoundToMi(bytes: real): int {
    var mi := Ceil(bytes / MI);
    if mi < 1 then 1 else mi
  }

  // ----- one reconcile -----

  datatype Resized = Hold | To(amount: real)

  /** What one replica wants at target utilization. */
  function Wanted(demand: real, replicas: real, policy: Policy): real
    requires replicas > 0.0 && policy.target > 0.0
  {
    demand / replicas / policy.target
  }

  function Utilization(request: real, demand: real, replicas: real): real
    requires request > 0.0 && replicas > 0.0
  {
    PositiveProduct(request, replicas);
    demand / (request * replicas)
  }

  /** The decision of one reconcile on a request, both in cores or both in bytes. */
  function Resize(request: real, demand: real, replicas: real, policy: Policy, downscaleAllowed: bool): Resized
    requires request > 0.0 && replicas > 0.0 && policy.target > 0.0
  {
    var utilization := Utilization(request, demand, replicas);
    if utilization > policy.increaseThreshold || (utilization < policy.decreaseThreshold && downscaleAllowed) then
      To(Bounded(request, Wanted(demand, replicas, policy), policy.maxIncreasePercent, policy.maxDecreasePercent))
    else
      Hold
  }

  /** CPU requests are whole milli-cores in steps of ten, memory requests whole bytes in steps of one Mi. */
  datatype Unit = Cores | Bytes

  const BYTES_PER_MI := 1048576

  function Quantum(unit: Unit): int {
    match unit
    case Cores => 10
    case Bytes => BYTES_PER_MI
  }

  function Quanta(unit: Unit, k: int): int {
    match unit
    case Cores => 10 * k
    case Bytes => BYTES_PER_MI * k
  }

  predicate Aligned(unit: Unit, x: int) {
    match unit
    case Cores => x % 10 == 0
    case Bytes => x % BYTES_PER_MI == 0
  }

  /** A request of `x` milli-cores in cores, or of `x` bytes in bytes. */
  function Value(unit: Unit, x: int): (value: real)
    ensures x > 0 ==> value > 0.0
  {
    match unit
    case Cores => x as real / 1000.0
    case Bytes => x as real
  }

  function InQuanta(unit: Unit, amount: real): real {
    match unit
    case Cores => amount * 1000.0 / 10.0
    case Bytes => amount / MI
  }

  /** An amount as a request, rounded up. */
  function Rounded(unit: Unit, amount: real): int {
    match unit
    case Cores => RoundToMilli(amount)
    case Bytes => BYTES_PER_MI * RoundToMi(amount)
  }

  /** No request above the limit of the container. */
  function Clamped(limit: Option<int>, y: int): int {
    if limit.Some? && y > limit.value then limit.value else y
  }

  function ChangePercent(x: int, y: int): real
    requires x > 0
  {
    Distance(x, y) as real / x as real * 100.0
  }

  /** The change is too small to be made. */
  predicate Small(minChangePercent: real, x: int, y: int)
    requires x > 0
  {
    minChangePercent > 0.0 && ChangePercent(x, y) < minChangePercent
  }

  /** The next request: rounded, within the limit, and the old one if that is a small change. */
  function Next(unit: Unit, x: int, resized: Resized, limit: Option<int>, minChangePercent: real): int
    requires x > 0
  {
    match resized
    case Hold => x
    case To(amount) =>
      var y := Clamped(limit, Rounded(unit, amount));
      if Small(minChangePercent, x, y) then x else y
  }

  /** What stays the same from reconcile to reconcile. */
  datatype Setting = Setting(
    demand: real, replicas: real, policy: Policy, downscaleAllowed: bool, limit: Option<int>, minChangePercent: real)

  ghost predicate Proper(s: Setting) {
    s.replicas > 0.0 && Sane(s.policy) && (s.limit.Some? ==> s.limit.value > 0)
  }

  function Decided(unit: Unit, x: int, s: Setting): Resized
    requires x > 0 && s.replicas > 0.0 && s.policy.target > 0.0
  {
    Resize(Value(unit, x), s.demand, s.replicas, s.policy, s.downscaleAllowed)
  }

  /** A container without a request keeps none. */
  function Step(unit: Unit, x: int, s: Setting): int
    requires s.replicas > 0.0 && s.policy.target > 0.0
  {
    if x <= 0 then x else Next(unit, x, Decided(unit, x, s), s.limit, s.minChangePercent)
  }

  // ----- one step towards the goal -----

  /** Demand per replica at target utilization, rounded up. */
  function Goal(unit: Unit, s: Setting): int
    requires s.replicas > 0.0 && s.policy.target > 0.0
  {
    Quanta(unit, Level(unit, Wanted(s.demand, s.replicas, s.policy)))
  }

  /** How many quanta an amount needs. */
  function Level(unit: Unit, amount: real): int {
    Ceil(InQuanta(unit, amount))
  }

  function LevelOf(unit: Unit, x: int): int {
    Level(unit, Value(unit, x))
  }

  /** The request rounded up. */
  function Top(unit: Unit, x: int): int {
    Quanta(unit, LevelOf(unit, x))
  }

  lemma TopIsNext(unit: Unit, x: int)
    ensures Aligned(unit, Top(unit, x)) && x <= Top(unit, x) < x + Quantum(unit)
    ensures Aligned(unit, x) <==> Top(unit, x) == x
  {
    if unit.Cores? {
      TopOfMilli(x);
    } else {
      TopOfBytes(x);
    }
  }

  lemma TopOfMilli(x: int)
    ensures var top := 10 * Ceil(x as real / 1000.0 * 1000.0 / 10.0);
      top % 10 == 0 && x <= top < x + 10 && (x % 10 == 0 <==> top == x)
  {
    assert x as real / 1000.0 * 1000.0 == x as real;
    var k := Ceil(x as real / 10.0);
    assert k as real - 1.0 < x as real / 10.0 <= k as real;
    assert 10 * k - 10 < x <= 10 * k;
  }

  lemma TopOfBytes(x: int)
    ensures var top := BYTES_PER_MI * Ceil(x as real / MI);
      top % BYTES_PER_MI == 0 && x <= top < x + BYTES_PER_MI && (x % BYTES_PER_MI == 0 <==> top == x)
  {
    var k := Ceil(x as real / MI);
    assert k as real - 1.0 < x as real / MI <= k as real;
    assert BYTES_PER_MI * k - BYTES_PER_MI < x <= BYTES_PER_MI * k;
  }

  lemma Less(x: real, y: real, f: real)
    requires f > 0.0
    ensures x < y <==> x * f < y * f
  {
    if x < y {
      assert (y - x) * f > 0.0;
    } else {
      assert (x - y) * f >= 0.0;
    }
  }

  /** Utilization above (below) target means that a larger (smaller) request is wanted. */
  lemma PressureMeansMore(demand: real, replicas: real, request: real, target: real, utilization: real, wanted: real)
    requires replicas > 0.0 && request > 0.0 && target > 0.0
    requires utilization * (request * replicas) == demand && wanted * target * replicas == demand
    ensures utilization > target ==> wanted > request
    ensures utilization < target ==> wanted < request
  {
    var f := request * replicas;
    assert f > 0.0;
    Less(target, utilization, f);
    Less(utilization, target, f);
    var g := target * replicas;
    assert g > 0.0;
    Less(request, wanted, g);
    Less(wanted, request, g);
    assert target * f == request * g;
    assert wanted * g == demand;
  }

  lemma BoundedBetween(request: real, wanted: real, inc: int, dec: int)
    requires request > 0.0 && 0 < inc && 0 < dec < 100
    ensures var b := Bounded(request, wanted, inc, dec);
      b > 0.0 && (wanted > request ==> request < b <= wanted) && (wanted < request ==> wanted <= b <= request)
  {
    var i, d := inc as real / 100.0, dec as real / 100.0;
    PositiveProduct(request, i);
    PositiveProduct(request, d);
    PositiveProduct(request, 1.0 - d);
    assert request * (1.0 + i) == request + request * i;
    assert request * (1.0 - d) == request - request * d;
  }

  lemma UtilizationTimes(request: real, demand: real, replicas: real)
    requires request > 0.0 && replicas > 0.0
    ensures Utilization(request, demand, replicas) * (request * replicas) == demand
  {
    PositiveProduct(request, replicas);
    DivideAndMultiply(demand, request * replicas);
  }

  lemma WantedTimes(demand: real, replicas: real, policy: Policy)
    requires replicas > 0.0 && policy.target > 0.0
    ensures Wanted(demand, replicas, policy) * policy.target * replicas == demand
  {
    DivideAndMultiply(demand / replicas, policy.target);
    DivideAndMultiply(demand, replicas);
  }

  lemma UtilizationWants(request: real, demand: real, replicas: real, policy: Policy)
    requires request > 0.0 && replicas > 0.0 && policy.target > 0.0
    ensures Utilization(request, demand, replicas) > policy.target ==> Wanted(demand, replicas, policy) > request
    ensures Utilization(request, demand, replicas) < policy.target ==> Wanted(demand, replicas, policy) < request
  {
    UtilizationTimes(request, demand, replicas);
    WantedTimes(demand, replicas, policy);
    PressureMeansMore(demand, replicas, request, policy.target, Utilization(request, demand, replicas),
                      Wanted(demand, replicas, policy));
  }

  /** `b` lies between the request and what is wanted, and is not the request if more is wanted. */
  ghost predicate Between(request: real, b: real, wanted: real) {
    b > 0.0 && (request < b <= wanted || wanted <= b <= request)
  }

  lemma ResizeTowards(request: real, demand: real, replicas: real, policy: Policy, allowed: bool)
    requires request > 0.0 && replicas > 0.0 && Sane(policy)
    ensures match Resize(request, demand, replicas, policy, allowed)
            case Hold => Utilization(request, demand, replicas) <= policy.increaseThreshold
            case To(b) => Between(request, b, Wanted(demand, replicas, policy))
                          && (Utilization(request, demand, replicas) > policy.increaseThreshold ==> request < b)
  {
    UtilizationWants(request, demand, replicas, policy);
    BoundedBetween(request, Wanted(demand, replicas, policy), policy.maxIncreasePercent, policy.maxDecreasePercent);
  }

  /**
   * When a request is changed, and to what before rounding: above the one threshold towards what is wanted, as far as
   * an increase may go; below the other, if that is allowed, as far as a decrease may go.
   */
  lemma ResizeMeans(request: real, demand: real, replicas: real, policy: Policy, allowed: bool)
    requires request > 0.0 && replicas > 0.0 && Sane(policy)
    ensures var utilization, wanted := Utilization(request, demand, replicas), Wanted(demand, replicas, policy);
      Resize(request, demand, replicas, policy, allowed)
      == if utilization > policy.increaseThreshold then
           To(Min(wanted, request * (1.0 + policy.maxIncreasePercent as real / 100.0)))
         else if utilization < policy.decreaseThreshold && allowed then
           To(Max(wanted, request * (1.0 - policy.maxDecreasePercent as real / 100.0)))
         else Hold
  {
    UtilizationWants(request, demand, replicas, policy);
    BoundedMeans(request, Wanted(demand, replicas, policy), policy.maxIncreasePercent, policy.maxDecreasePercent);
  }

  lemma BoundedMeans(request: real, wanted: real, inc: int, dec: int)
    requires request > 0.0 && 0 < inc && 0 < dec < 100
    ensures wanted > request ==>
      Bounded(request, wanted, inc, dec) == Min(wanted, request * (1.0 + inc as real / 100.0))
    ensures wanted < request ==>
      Bounded(request, wanted, inc, dec) == Max(wanted, request * (1.0 - dec as real / 100.0))
  {
    if wanted > request {
      RaisedIsBounded(request, wanted, inc, dec);
    } else if wanted < request {
      LoweredIsBounded(request, wanted, inc, dec);
    }
  }

  /** A change is small by its share of the request. */
  lemma SmallMeans(percent: real, x: int, y: int)
    requires x > 0
    ensures Small(percent, x, y) <==> percent > 0.0 && (y as real - x as real) * 100.0 < percent * x as real
                                      && (x as real - y as real) * 100.0 < percent * x as real
  {
    var d, n := Distance(x, y) as real, x as real;
    PercentOf(d, n, percent);
    assert d >= y as real - x as real && d >= x as real - y as real;
    assert d == y as real - x as real || d == x as real - y as real;
    assert Small(percent, x, y) <==> percent > 0.0 && d * 100.0 < percent * n;
  }

  lemma PercentOf(d: real, n: real, percent: real)
    requires n > 0.0
    ensures d / n * 100.0 < percent <==> d * 100.0 < percent * n
  {
    var q := d / n;
    DivideAndMultiply(d, n);
    HundredTimes(q, n, d);
    Less(q * 100.0, percent, n);
  }

  lemma HundredTimes(q: real, n: real, d: real)
    requires q * n == d
    ensures q * 100.0 * n == d * 100.0
  {
  }

  /** A step towards `goal` that does not cross it. */
  ghost predicate Towards(now: int, next: int, goal: int) {
    && (now <= goal ==> now <= next <= goal)
    && (goal <= now ==> goal <= next <= now)
  }

  /** Rounding up is monotone. */
  lemma RoundedOrder(unit: Unit, b: real, c: real)
    requires b > 0.0
    ensures Rounded(unit, b) == Quanta(unit, Level(unit, b))
    ensures b <= c ==> Quanta(unit, Level(unit, b)) <= Quanta(unit, Level(unit, c))
    ensures c <= b ==> Quanta(unit, Level(unit, c)) <= Quanta(unit, Level(unit, b))
  {
    CeilOrder(InQuanta(unit, b), InQuanta(unit, c));
    CeilOrder(0.0, InQuanta(unit, b));
  }

  lemma CeilOrder(b: real, c: real)
    ensures b <= c ==> Ceil(b) <= Ceil(c)
    ensures c <= b ==> Ceil(c) <= Ceil(b)
    ensures b >= 0.0 ==> Ceil(b) >= 0
    ensures b > 0.0 ==> Ceil(b) >= 1
  {
  }

  /** Rounded up, an amount is a positive request that is not below it. */
  lemma RoundedCovers(unit: Unit, b: real)
    requires b > 0.0
    ensures Rounded(unit, b) > 0 && Aligned(unit, Rounded(unit, b)) && Value(unit, Rounded(unit, b)) >= b
  {
  }

  /** Where nothing is wanted, the least request is one milli-core or one Mi. */
  lemma LeastRequest(unit: Unit, amount: real)
    requires amount <= 0.0
    ensures Rounded(unit, amount) == if unit == Cores then 1 else 1048576
  {
    CeilOrder(InQuanta(unit, amount), 0.0);
  }

  lemma ValueOrder(unit: Unit, x: int, y: int)
    ensures x < y <==> Value(unit, x) < Value(unit, y)
  {
  }

  /**
   * The request stays, or becomes a rounded one between it, rounded up, and the goal, as far as the limit lets it.
   */
  ghost predicate StepsTo(unit: Unit, limit: Option<int>, x: int, next: int, goal: int) {
    next == x || exists y :: IsRequest(unit, y) && Towards(Top(unit, x), y, goal) && next == Clamped(limit, y)
  }

  lemma RoundedTowards(unit: Unit, x: int, wanted: real, b: real)
    requires x > 0 && Between(Value(unit, x), b, wanted)
    ensures IsRequest(unit, Rounded(unit, b))
    ensures Towards(Top(unit, x), Rounded(unit, b), Quanta(unit, Level(unit, wanted)))
    ensures Value(unit, x) < b ==> x < Rounded(unit, b)
  {
    RoundedOrder(unit, b, Value(unit, x));
    RoundedOrder(unit, b, wanted);
    RoundedCovers(unit, b);
    ValueOrder(unit, x, Rounded(unit, b));
  }

  lemma NextStepsTo(
      unit: Unit, x: int, wanted: real, resized: Resized, limit: Option<int>, minChangePercent: real)
    requires x > 0 && (resized.To? ==> Between(Value(unit, x), resized.amount, wanted))
    ensures StepsTo(unit, limit, x, Next(unit, x, resized, limit, minChangePercent),
                    Quanta(unit, Level(unit, wanted)))
  {
    if resized.To? {
      RoundedTowards(unit, x, wanted, resized.amount);
    }
  }

  /** From any request, one step goes towards the goal. */
  lemma StepTowardsGoal(unit: Unit, x: int, s: Setting)
    requires x > 0 && Proper(s)
    ensures StepsTo(unit, s.limit, x, Step(unit, x, s), Goal(unit, s))
  {
    ResizeTowards(Value(unit, x), s.demand, s.replicas, s.policy, s.downscaleAllowed);
    NextStepsTo(unit, x, Wanted(s.demand, s.replicas, s.policy), Decided(unit, x, s), s.limit, s.minChangePercent);
  }

  // ----- decreases that raise the request -----

  /** The step takes the branch for decreases. */
  predicate Decreasing(request: real, s: Setting)
    requires request > 0.0 && s.replicas > 0.0
  {
    var utilization := Utilization(request, s.demand, s.replicas);
    utilization <= s.policy.increaseThreshold && utilization < s.policy.decreaseThreshold && s.downscaleAllowed
  }

  /** What a decrease comes to before rounding: the wanted amount, but no more than the step allows. */
  function Lowered(request: real, s: Setting): real
    requires s.replicas > 0.0 && s.policy.target > 0.0
  {
    Max(Wanted(s.demand, s.replicas, s.policy), request * (1.0 - s.policy.maxDecreasePercent as real / 100.0))
  }

  /**
   * A decrease raises the request exactly if the request is not aligned, the lowered amount is above the next lower
   * quantum, and neither the limit nor the threshold for changes stops it.
   */
  lemma DecreaseRaises(unit: Unit, x: int, s: Setting)
    requires x > 0 && Proper(s) && Decreasing(Value(unit, x), s)
    ensures Step(unit, x, s) > x
       <==> && !Aligned(unit, x) && Lowered(Value(unit, x), s) > Value(unit, Top(unit, x) - Quantum(unit))
            && Clamped(s.limit, Top(unit, x)) > x
            && !Small(s.minChangePercent, x, Clamped(s.limit, Top(unit, x)))
  {
    var request := Value(unit, x);
    DecreaseIsLowered(request, s);
    LoweredRaises(unit, x, Lowered(request, s));
  }

  lemma DecreaseIsLowered(request: real, s: Setting)
    requires request > 0.0 && Proper(s) && Decreasing(request, s)
    ensures Resize(request, s.demand, s.replicas, s.policy, s.downscaleAllowed) == To(Lowered(request, s))
    ensures 0.0 < Lowered(request, s) <= request
  {
    var wanted := Wanted(s.demand, s.replicas, s.policy);
    UtilizationWants(request, s.demand, s.replicas, s.policy);
    LoweredIsBounded(request, wanted, s.policy.maxIncreasePercent, s.policy.maxDecreasePercent);
  }

  lemma LoweredRaises(unit: Unit, x: int, b: real)
    requires 0.0 < b <= Value(unit, x)
    ensures Rounded(unit, b) > x <==> !Aligned(unit, x) && b > Value(unit, Top(unit, x) - Quantum(unit))
    ensures Rounded(unit, b) > x ==> Rounded(unit, b) == Top(unit, x)
  {
    RoundedOrder(unit, b, Value(unit, x));
    TopIsNext(unit, x);
    SameQuantum(unit, b, LevelOf(unit, x));
    QuantaOrder(unit, Level(unit, b), LevelOf(unit, x));
  }

  lemma QuantaOrder(unit: Unit, j: int, k: int)
    ensures j < k ==> Quanta(unit, j) + Quantum(unit) <= Quanta(unit, k)
  {
  }

  /** Below the request, the limit on increases does not matter. */
  lemma LoweredIsBounded(request: real, wanted: real, inc: int, dec: int)
    requires request > 0.0 && wanted < request && 0 < inc && 0 < dec < 100
    ensures Bounded(request, wanted, inc, dec) == Max(wanted, request * (1.0 - dec as real / 100.0))
    ensures 0.0 < Bounded(request, wanted, inc, dec) <= request
  {
    PositiveProduct(request, inc as real / 100.0);
    assert request * (1.0 + inc as real / 100.0) == request + request * (inc as real / 100.0);
    BoundedBetween(request, wanted, inc, dec);
  }

  /** An amount rounds up to `k` quanta or more exactly if it is above k - 1 quanta. */
  lemma SameQuantum(unit: Unit, b: real, k: int)
    ensures Level(unit, b) >= k <==> b > Value(unit, Quanta(unit, k) - Quantum(unit))
  {
    CeilAbove(InQuanta(unit, b), k);
    if unit.Cores? {
      assert (10 * k - 10) as real / 1000.0 == (k as real - 1.0) / 100.0;
      assert b * 1000.0 / 10.0 == b * 100.0;
    } else {
      assert (BYTES_PER_MI * k - BYTES_PER_MI) as real == MI * (k as real - 1.0);
      assert b / MI * MI == b;
    }
  }

  lemma CeilAbove(b: real, k: int)
    ensures Ceil(b) >= k <==> b > k as real - 1.0
  {
  }

  /** What the built-in CPU profile learns from a volatile history. */
  const VOLATILE := History(12, 0.0, 1.0, 2.0)

  /** A nearly idle container. */
  function Idle(): Setting {
    Setting(0.001, 1.0, LearnedPolicy(VOLATILE, CPU_PROFILE, Guardrail(0, 0)), true, None, 0.0)
  }

  /** One that requests 25m is to shrink, and gets 30m. */
  lemma DecreaseCanRaise()
    ensures Proper(Idle()) && Decreasing(0.025, Idle()) && Goal(Cores, Idle()) == 10 && Step(Cores, 25, Idle()) == 30
  {
    VolatilePolicy();
    var s := Idle();
    assert Wanted(s.demand, s.replicas, s.policy) == 0.001 / 0.55;
    assert 0.1 < 0.001 / 0.55 * 1000.0 / 10.0 <= 1.0;
    assert 0.025 * (1.0 - 10.0 / 100.0) == 0.0225;
    assert Decided(Cores, 25, s) == To(0.0225);
  }

  lemma VolatilePolicy()
    ensures LearnedPolicy(VOLATILE, CPU_PROFILE, Guardrail(0, 0)) == Policy(0.55, 0.73, 0.25, 125, 10)
  {
    assert Volatility(VOLATILE) == 1.0;
  }

  // ----- iteration -----

  function Iterate(step: int -> int, start: int, n: nat): int {
    if n == 0 then start else step(Iterate(step, start, n - 1))
  }

  function Distance(x: int, y: int): nat {
    if x < y then y - x else x - y
  }

  predicate IsRequest(unit: Unit, x: int) {
    x > 0 && Aligned(unit, x)
  }

  /** What a step can lead to: a rounded request within the limit, or the limit itself. */
  predicate Within(unit: Unit, limit: Option<int>, x: int) {
    (Aligned(unit, x) || limit == Some(x)) && (limit.Some? ==> x <= limit.value)
  }

  /** The number of quanta between two requests. */
  function Gap(unit: Unit, x: int, y: int): nat {
    Distance(LevelOf(unit, x), LevelOf(unit, y))
  }

  /** From every request, `step` goes towards the goal. */
  ghost predicate Leads(step: int -> int, unit: Unit, limit: Option<int>, goal: int) {
    forall x {:trigger step(x)} :: x > 0 ==> StepsTo(unit, limit, x, step(x), goal)
  }

  /** The iterates move one way, never cross the goal, and are at rest once `rest` steps have been made. */
  ghost predicate Converges(step: int -> int, start: int, goal: int, rest: int) {
    forall n: nat :: MovesCloser(step, start, goal, rest, n)
  }

  ghost predicate MovesCloser(step: int -> int, start: int, goal: int, rest: int, n: nat) {
    var now, next := Iterate(step, start, n), Iterate(step, start, n + 1);
    && (start <= goal ==> start <= now <= next <= goal)
    && (goal <= start ==> goal <= next <= now <= start)
    && (n >= rest ==> next == now)
  }

  lemma LevelOrder(unit: Unit, x: int, y: int)
    ensures x <= y ==> LevelOf(unit, x) <= LevelOf(unit, y)
    ensures Quanta(unit, LevelOf(unit, x)) < Quanta(unit, LevelOf(unit, y)) <==> LevelOf(unit, x) < LevelOf(unit, y)
  {
    CeilOrder(InQuanta(unit, Value(unit, x)), InQuanta(unit, Value(unit, y)));
  }

  /** Different requests that a step can lead to have different levels. */
  lemma LevelsDiffer(unit: Unit, limit: Option<int>, x: int, y: int)
    requires Within(unit, limit, x) && Within(unit, limit, y) && x < y
    ensures LevelOf(unit, x) < LevelOf(unit, y)
  {
    TopIsNext(unit, x);
    TopIsNext(unit, y);
    LevelOrder(unit, x, y);
  }

  /** An aligned value is the number of its quanta. */
  lemma ClampedGoal(unit: Unit, limit: Option<int>, goal: int)
    requires Aligned(unit, goal)
    ensures Within(unit, limit, Clamped(limit, goal))
  {
  }

  lemma StepWithin(unit: Unit, limit: Option<int>, x: int, next: int, goal: int)
    requires StepsTo(unit, limit, x, next, goal) && Aligned(unit, goal) && x > 0 && Within(unit, limit, x)
    requires limit.Some? ==> limit.value > 0
    ensures next > 0 && Within(unit, limit, next) && Towards(x, next, Clamped(limit, goal))
  {
    if next != x {
      var y :| IsRequest(unit, y) && Towards(Top(unit, x), y, goal) && next == Clamped(limit, y);
      TopIsNext(unit, x);
      AlignedMove(unit, y, Top(unit, x));
      AlignedMove(unit, goal, Top(unit, x));
    }
  }

  lemma AlignedMove(unit: Unit, x: int, y: int)
    requires Aligned(unit, x) && Aligned(unit, y)
    ensures x == y || Distance(x, y) >= Quantum(unit)
  {
    var q := Quantum(unit);
    var i, j := x / q, y / q;
    assert x == q * i && y == q * j;
    if i < j {
      MultiplesApart(q, i, j);
    } else if j < i {
      MultiplesApart(q, j, i);
    }
  }

  lemma MultiplesApart(q: int, i: int, j: int)
    requires q > 0 && i < j
    ensures q * i + q <= q * j
  {
    assert q * (j - i - 1) >= 0;
  }

  /** Levels between two levels: a move towards the goal closes the gap. */
  lemma CloserLevel(unit: Unit, limit: Option<int>, now: int, next: int, goal: int)
    requires Within(unit, limit, now) && Within(unit, limit, next) && Within(unit, limit, goal)
    requires Towards(now, next, goal)
    ensures next == now || Gap(unit, next, goal) < Gap(unit, now, goal)
  {
    LevelOrder(unit, now, goal);
    LevelOrder(unit, goal, now);
    LevelOrder(unit, next, goal);
    LevelOrder(unit, goal, next);
    if now < next {
      LevelsDiffer(unit, limit, now, next);
    } else if next < now {
      LevelsDiffer(unit, limit, next, now);
    }
  }

  lemma {:induction false} IterateLeads(
      step: int -> int, unit: Unit, limit: Option<int>, start: int, goal: int, n: nat)
    requires Leads(step, unit, limit, goal) && Aligned(unit, goal) && (limit.Some? ==> limit.value > 0)
    requires start > 0 && Within(unit, limit, start)
    ensures var now, next, end := Iterate(step, start, n), Iterate(step, start, n + 1), Clamped(limit, goal);
      && now > 0 && Within(unit, limit, now) && Within(unit, limit, next)
      && (start <= end ==> start <= now <= next <= end)
      && (end <= start ==> end <= next <= now <= start)
      && (next == now || Gap(unit, now, end) + n <= Gap(unit, start, end))
  {
    ClampedGoal(unit, limit, goal);
    if n > 0 {
      IterateLeads(step, unit, limit, start, goal, n - 1);
      CloserLevel(unit, limit, Iterate(step, start, n - 1), Iterate(step, start, n), Clamped(limit, goal));
    }
    var now := Iterate(step, start, n);
    StepWithin(unit, limit, now, step(now), goal);
  }

  lemma RestsBy(step: int -> int, unit: Unit, limit: Option<int>, start: int, goal: int, n: nat)
    requires Leads(step, unit, limit, goal) && Aligned(unit, goal) && (limit.Some? ==> limit.value > 0)
    requires start > 0 && Within(unit, limit, start) && n >= Gap(unit, start, Clamped(limit, goal))
    ensures Iterate(step, start, n + 1) == Iterate(step, start, n)
  {
    IterateLeads(step, unit, limit, start, goal, n);
    ClampedGoal(unit, limit, goal);
    CloserLevel(unit, limit, Iterate(step, start, n), Iterate(step, start, n + 1), Clamped(limit, goal));
  }

  lemma StepsConverge(step: int -> int, unit: Unit, limit: Option<int>, start: int, goal: int)
    requires Leads(step, unit, limit, goal) && Aligned(unit, goal) && (limit.Some? ==> limit.value > 0)
    requires start > 0 && Within(unit, limit, start)
    ensures Converges(step, start, Clamped(limit, goal), Gap(unit, start, Clamped(limit, goal)))
  {
    var end := Clamped(limit, goal);
    forall n: nat ensures MovesCloser(step, start, end, Gap(unit, start, end), n) {
      IterateLeads(step, unit, limit, start, goal, n);
      if n >= Gap(unit, start, end) {
        RestsBy(step, unit, limit, start, goal, n);
      }
    }
  }

  // ----- from any start -----

  /** A request that its step leaves alone, or that converges from its first step on. */
  ghost predicate ConvergesLater(step: int -> int, unit: Unit, limit: Option<int>, x: int, end: int) {
    var next := step(x);
    next == x
    || (&& next > 0 && Within(unit, limit, next) && Gap(unit, next, end) <= Gap(unit, x, end)
        && Converges(step, next, end, Gap(unit, next, end)))
  }

  lemma TopLevel(unit: Unit, x: int)
    ensures LevelOf(unit, Top(unit, x)) == LevelOf(unit, x)
  {
    TopIsNext(unit, x);
    TopIsNext(unit, Top(unit, x));
    LevelOrder(unit, x, Top(unit, x));
  }

  /** The level of a clamped request is clamped likewise. */
  lemma ClampedLevel(unit: Unit, limit: Option<int>, y: int)
    ensures LevelOf(unit, Clamped(limit, y))
         == if limit.Some? then MinInt(LevelOf(unit, y), LevelOf(unit, limit.value)) else LevelOf(unit, y)
  {
    if limit.Some? {
      LevelOrder(unit, y, limit.value);
      LevelOrder(unit, limit.value, y);
    }
  }

  /** A step that moves leads within the limit and not away from the goal. */
  lemma FirstMove(unit: Unit, limit: Option<int>, x: int, next: int, goal: int)
    requires StepsTo(unit, limit, x, next, goal) && next != x && Aligned(unit, goal)
    requires limit.Some? ==> limit.value > 0
    ensures next > 0 && Within(unit, limit, next)
    ensures Gap(unit, next, Clamped(limit, goal)) <= Gap(unit, x, Clamped(limit, goal))
  {
    var y :| IsRequest(unit, y) && Towards(Top(unit, x), y, goal) && next == Clamped(limit, y);
    TopLevel(unit, x);
    TowardsLevels(unit, Top(unit, x), y, goal);
    ClampedLevel(unit, limit, y);
    ClampedLevel(unit, limit, goal);
    if limit.Some? {
      NotFurther(LevelOf(unit, x), LevelOf(unit, y), LevelOf(unit, goal), LevelOf(unit, limit.value));
    }
  }

  lemma NotFurther(now: int, next: int, goal: int, limit: int)
    requires Towards(now, next, goal)
    ensures Distance(MinInt(next, limit), MinInt(goal, limit)) <= Distance(now, MinInt(goal, limit))
  {
  }

  lemma TowardsLevels(unit: Unit, now: int, next: int, goal: int)
    requires Towards(now, next, goal)
    ensures Towards(LevelOf(unit, now), LevelOf(unit, next), LevelOf(unit, goal))
  {
    LevelOrder(unit, next, goal);
    LevelOrder(unit, goal, next);
    LevelOrder(unit, next, now);
    LevelOrder(unit, now, next);
  }

  lemma LeadsConverges(step: int -> int, unit: Unit, limit: Option<int>, x: int, goal: int)
    requires Leads(step, unit, limit, goal) && Aligned(unit, goal) && (limit.Some? ==> limit.value > 0) && x > 0
    ensures ConvergesLater(step, unit, limit, x, Clamped(limit, goal))
  {
    if step(x) != x {
      FirstMove(unit, limit, x, step(x), goal);
      StepsConverge(step, unit, limit, step(x), goal);
    }
  }

  lemma {:induction false} FirstStep(step: int -> int, start: int, n: nat)
    ensures Iterate(step, start, n + 1) == Iterate(step, step(start), n)
  {
    if n > 0 {
      FirstStep(step, start, n - 1);
    }
  }

  lemma {:induction false} Rests(step: int -> int, start: int, n: nat)
    requires step(start) == start
    ensures Iterate(step, start, n) == start
  {
    if n > 0 {
      Rests(step, start, n - 1);
    }
  }

  lemma RestsLater(step: int -> int, unit: Unit, limit: Option<int>, x: int, end: int, n: nat)
    requires ConvergesLater(step, unit, limit, x, end) && n > Gap(unit, x, end)
    ensures Iterate(step, x, n + 1) == Iterate(step, x, n)
  {
    if step(x) == x {
      Rests(step, x, n);
    } else {
      FirstStep(step, x, n);
      FirstStep(step, x, n - 1);
      assert MovesCloser(step, step(x), end, Gap(unit, step(x), end), n - 1);
    }
  }

  // ----- the request of one workload -----

  lemma QuantaAreAligned(unit: Unit, k: int)
    ensures Aligned(unit, Quanta(unit, k))
  {
  }

  lemma StepLeads(unit: Unit, s: Setting)
    requires Proper(s)
    ensures Leads(x => Step(unit, x, s), unit, s.limit, Goal(unit, s)) && Aligned(unit, Goal(unit, s))
  {
    QuantaAreAligned(unit, Level(unit, Wanted(s.demand, s.replicas, s.policy)));
    forall x | x > 0 ensures StepsTo(unit, s.limit, x, Step(unit, x, s), Goal(unit, s)) {
      StepTowardsGoal(unit, x, s);
    }
  }

  /** Under fixed demand, a request that is rounded or at its limit converges to the goal, as far as the limit. */
  lemma AlignedRequestConverges(unit: Unit, x: int, s: Setting)
    requires x > 0 && Proper(s) && Within(unit, s.limit, x)
    ensures var end := Clamped(s.limit, Goal(unit, s)); Converges(y => Step(unit, y, s), x, end, Gap(unit, x, end))
  {
    StepLeads(unit, s);
    StepsConverge(y => Step(unit, y, s), unit, s.limit, x, Goal(unit, s));
  }

  /** Under fixed demand every request converges, from its first new value on. */
  lemma RequestConverges(unit: Unit, x: int, s: Setting)
    requires x > 0 && Proper(s)
    ensures ConvergesLater(y => Step(unit, y, s), unit, s.limit, x, Clamped(s.limit, Goal(unit, s)))
  {
    StepLeads(unit, s);
    LeadsConverges(y => Step(unit, y, s), unit, s.limit, x, Goal(unit, s));
  }

  /** So every request rests after one step and one more for each quantum between it and the goal. */
  lemma RequestRests(unit: Unit, x: int, s: Setting, n: nat)
    requires x > 0 && Proper(s) && n > Gap(unit, x, Clamped(s.limit, Goal(unit, s)))
    ensures var step := y => Step(unit, y, s); Iterate(step, x, n + 1) == Iterate(step, x, n)
  {
    RequestConverges(unit, x, s);
    RestsLater(y => Step(unit, y, s), unit, s.limit, x, Clamped(s.limit, Goal(unit, s)), n);
  }

  // ----- pressure on a request at rest -----

  predicate Pressed(request: real, s: Setting)
    requires request > 0.0 && s.replicas > 0.0
  {
    Utilization(request, s.demand, s.replicas) > s.policy.increaseThreshold
  }

  /** What an increase comes to before rounding: the wanted amount, but no more than the step allows. */
  function RaisedAmount(request: real, s: Setting): real
    requires s.replicas > 0.0 && s.policy.target > 0.0
  {
    Min(Wanted(s.demand, s.replicas, s.policy), request * (1.0 + s.policy.maxIncreasePercent as real / 100.0))
  }

  function Raised(unit: Unit, x: int, s: Setting): int
    requires s.replicas > 0.0 && s.policy.target > 0.0
  {
    Rounded(unit, RaisedAmount(Value(unit, x), s))
  }

  /** Above the request, the limit on decreases does not matter. */
  lemma RaisedIsBounded(request: real, wanted: real, inc: int, dec: int)
    requires request > 0.0 && wanted > request && 0 < inc && 0 < dec < 100
    ensures Bounded(request, wanted, inc, dec) == Min(wanted, request * (1.0 + inc as real / 100.0))
    ensures Bounded(request, wanted, inc, dec) > request
  {
    PositiveProduct(request, inc as real / 100.0);
    PositiveProduct(request, dec as real / 100.0);
    assert request * (1.0 + inc as real / 100.0) == request + request * (inc as real / 100.0);
    assert request * (1.0 - dec as real / 100.0) == request - request * (dec as real / 100.0);
  }

  lemma PressedIsRaised(request: real, s: Setting)
    requires request > 0.0 && Proper(s) && Pressed(request, s)
    ensures Resize(request, s.demand, s.replicas, s.policy, s.downscaleAllowed) == To(RaisedAmount(request, s))
    ensures request < RaisedAmount(request, s) <= Wanted(s.demand, s.replicas, s.policy)
  {
    var wanted := Wanted(s.demand, s.replicas, s.policy);
    UtilizationWants(request, s.demand, s.replicas, s.policy);
    RaisedIsBounded(request, wanted, s.policy.maxIncreasePercent, s.policy.maxDecreasePercent);
  }

  lemma RaisedIsMore(unit: Unit, x: int, s: Setting)
    requires x > 0 && Proper(s) && Pressed(Value(unit, x), s)
    ensures Raised(unit, x, s) > x && Value(unit, Raised(unit, x, s)) >= RaisedAmount(Value(unit, x), s)
  {
    PressedIsRaised(Value(unit, x), s);
    RoundedTowards(unit, x, Wanted(s.demand, s.replicas, s.policy), RaisedAmount(Value(unit, x), s));
    RoundedCovers(unit, RaisedAmount(Value(unit, x), s));
  }

  /**
   * A request under pressure rests exactly if it is at its limit, or the raise, as far as the limit lets it, is too
   * small a change. Otherwise pressure never survives.
   */
  lemma RestsUnderPressure(unit: Unit, x: int, s: Setting)
    requires x > 0 && Proper(s) && Pressed(Value(unit, x), s)
    ensures Step(unit, x, s) == x
       <==> s.limit == Some(x) || Small(s.minChangePercent, x, Clamped(s.limit, Raised(unit, x, s)))
  {
    PressedStep(unit, x, s);
    RaisedIsMore(unit, x, s);
  }

  lemma PressedStep(unit: Unit, x: int, s: Setting)
    requires x > 0 && Proper(s) && Pressed(Value(unit, x), s)
    ensures var y := Clamped(s.limit, Raised(unit, x, s));
      Step(unit, x, s) == if Small(s.minChangePercent, x, y) then x else y
  {
    PressedIsRaised(Value(unit, x), s);
  }

  /** The pressure is at least the one at the threshold, so the raise is at least the one wanted there. */
  lemma WantedUnderPressure(demand: real, replicas: real, request: real, target: real, threshold: real)
    requires replicas > 0.0 && request > 0.0 && target > 0.0
    requires Utilization(request, demand, replicas) > threshold
    ensures demand / replicas / target > request * threshold / target
  {
    var f := request * replicas;
    PositiveProduct(request, replicas);
    DivideAndMultiply(demand, f);
    Less(threshold, demand / f, f);
    DivideAndMultiply(demand, replicas);
    Less(request * threshold, demand / replicas, replicas);
    assert threshold * f == request * threshold * replicas;
    Less(request * threshold / target, demand / replicas / target, target);
    DivideAndMultiply(request * threshold, target);
    DivideAndMultiply(demand / replicas, target);
  }

  /** No raise is too small a change. */
  predicate Sensitive(s: Setting)
    requires s.policy.target > 0.0
  {
    && s.minChangePercent <= s.policy.maxIncreasePercent as real
    && s.policy.target * (1.0 + s.minChangePercent / 100.0) <= s.policy.increaseThreshold
  }

  lemma Percent(request: real, raised: real, percent: real)
    requires request > 0.0 && raised >= request * (1.0 + percent / 100.0)
    ensures (raised - request) / request * 100.0 >= percent
  {
    assert request * (1.0 + percent / 100.0) == request + request * (percent / 100.0);
    Less((raised - request) / request, percent / 100.0, request);
    DivideAndMultiply(raised - request, request);
  }

  lemma RaiseIsEnough(request: real, s: Setting)
    requires request > 0.0 && Proper(s) && Pressed(request, s) && Sensitive(s)
    ensures RaisedAmount(request, s) >= request * (1.0 + s.minChangePercent / 100.0)
  {
    var target, threshold, m := s.policy.target, s.policy.increaseThreshold, 1.0 + s.minChangePercent / 100.0;
    WantedUnderPressure(s.demand, s.replicas, request, target, threshold);
    ThresholdIsEnough(request, target, threshold, m);
    Less(1.0 + s.policy.maxIncreasePercent as real / 100.0, m, request);
  }

  lemma ThresholdIsEnough(request: real, target: real, threshold: real, m: real)
    requires request > 0.0 && target > 0.0 && target * m <= threshold
    ensures request * m <= request * threshold / target
  {
    DivideAndMultiply(request * threshold, target);
    Less(threshold, target * m, request);
    assert request * m * target == target * m * request;
    Less(request * threshold / target, request * m, target);
  }

  lemma ChangeOf(unit: Unit, x: int, y: int)
    requires 0 < x <= y
    ensures (Value(unit, y) - Value(unit, x)) / Value(unit, x) == (y - x) as real / x as real
  {
    if unit.Cores? {
      ThousandthsCancel((y - x) as real, x as real);
      assert Value(unit, y) - Value(unit, x) == (y - x) as real / 1000.0;
    }
  }

  lemma ThousandthsCancel(n: real, d: real)
    requires d > 0.0
    ensures n / 1000.0 / (d / 1000.0) == n / d
  {
    DivideAndMultiply(n, d);
    var q := n / d;
    assert q * (d / 1000.0) == n / 1000.0;
    DivideAndMultiply(n / 1000.0, d / 1000.0);
    SameQuotient(n / 1000.0 / (d / 1000.0), q, d / 1000.0);
  }

  lemma SameQuotient(a: real, b: real, d: real)
    requires d > 0.0 && a * d == b * d
    ensures a == b
  {
    Less(a, b, d);
    Less(b, a, d);
  }

  /** With a threshold for changes below both the step and the slack above target, pressure goes on until the limit. */
  lemma PressureGetsThrough(unit: Unit, x: int, s: Setting)
    requires x > 0 && Proper(s) && Pressed(Value(unit, x), s) && Sensitive(s)
    requires s.limit.Some? ==> Raised(unit, x, s) <= s.limit.value
    ensures Step(unit, x, s) == Raised(unit, x, s) > x
  {
    RaisedIsMore(unit, x, s);
    RaiseIsEnough(Value(unit, x), s);
    var y := Raised(unit, x, s);
    NotSmall(unit, x, y, s.minChangePercent);
    PressedStep(unit, x, s);
  }

  lemma NotSmall(unit: Unit, x: int, y: int, percent: real)
    requires 0 < x <= y && Value(unit, y) >= Value(unit, x) * (1.0 + percent / 100.0)
    ensures !Small(percent, x, y)
  {
    Percent(Value(unit, x), Value(unit, y), percent);
    ChangeOf(unit, x, y);
  }

  /** Ten cores of demand on one replica, with steps of three percent where changes below five are not made. */
  function Stuck(): Setting {
    Setting(10.0, 1.0, LearnedPolicy(NoHistory, CPU_PROFILE, Guardrail(3, 0)), true, None, 5.0)
  }

  lemma StuckPolicy()
    ensures LearnedPolicy(NoHistory, CPU_PROFILE, Guardrail(3, 0)) == Policy(0.6095, 0.7545, 0.3620, 3, 22)
  {
  }

  /** A core at tenfold utilization is requested at every reconcile. */
  lemma PressureCanStay(n: nat)
    ensures Proper(Stuck()) && Pressed(1.0, Stuck())
    ensures Raised(Cores, 1000, Stuck()) == 1030
    ensures Iterate(y => Step(Cores, y, Stuck()), 1000, n) == 1000
  {
    StuckPolicy();
    StuckStep(Stuck());
    Rests(y => Step(Cores, y, Stuck()), 1000, n);
  }

  lemma StuckStep(s: Setting)
    requires s == Setting(10.0, 1.0, Policy(0.6095, 0.7545, 0.3620, 3, 22), true, None, 5.0)
    ensures Pressed(1.0, s) && Raised(Cores, 1000, s) == 1030 && Step(Cores, 1000, s) == 1000
  {
    assert Value(Cores, 1000) == 1.0 && 1.0 * (1.0 + 3.0 / 100.0) == 1.03;
    assert Wanted(10.0, 1.0, s.policy) == 10.0 / 0.6095 > 1.03;
    assert Small(5.0, 1000, 1030);
    RestsUnderPressure(Cores, 1000, s);
  }
}
