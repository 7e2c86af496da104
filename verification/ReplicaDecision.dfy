/**
 * The recommended replica count (internal/analyzer/analyzer.go): scoring of the signals, the clamp to the
 * configured maximum, the joint optimiser and the scale-down block.
 */
module ReplicaDecision {
  import opened Numbers
  import opened Sizing
  import opened Optimizer

  datatype Anomaly = Critical | Warning | Normal | Unknown

  datatype Signal = Absent | Observed(state: Anomaly, belowMedian: bool)

  /** Request-rate history and forecast; `NoTraffic` when there is too little history. */
  datatype Traffic = NoTraffic | Traffic(forecast: real, peak: real, scaleUpAllowed: bool)

  datatype Inputs = Inputs(
    replicas: nat, min: int, max: int, pdbFloor: int, replicaFloor: int, emergency: bool,
    traffic: Traffic, latency: Signal, errorRate: Signal, concurrency: Signal,
    cpu: Resource, cpuDriven: int, memory: Resource, memoryDriven: int, downscaleBlocked: bool)

  datatype Component = Component(score: real, replicas: int)

  function Current(i: Inputs): int {
    MaxInt(i.replicas, 1)
  }

  function ScaleUpAllowed(i: Inputs): bool {
    i.traffic.Traffic? && i.traffic.peak > 0.0 && i.traffic.scaleUpAllowed
  }

  function ResourceScaleUpAllowed(i: Inputs): bool {
    ScaleUpAllowed(i) || i.emergency
  }

  /** Replicas needed for the forecast; capped at the current count unless scaling up is allowed. */
  function TrafficReplicas(i: Inputs): int {
    if i.traffic.NoTraffic? || i.traffic.peak <= 0.0 then 0
    else
      var peakPerReplica := i.traffic.peak / Current(i) as real;
      var needed := Ceil(i.traffic.forecast / (peakPerReplica * 0.75));
      if !i.traffic.scaleUpAllowed && needed > Current(i) then Current(i) else needed
  }

  function AvailabilityFloor(i: Inputs): int {
    if i.emergency then
      var recovery := if i.max > 0 && i.replicas + 1 > i.max then i.max else i.replicas + 1;
      MaxInt(i.replicaFloor, recovery)
    else
      i.replicaFloor
  }

  function Floor(i: Inputs): int {
    MaxInt(MaxInt(i.min, i.pdbFloor), MaxInt(AvailabilityFloor(i), 1))
  }

  // ----- scoring -----

  function TrafficComponent(i: Inputs): seq<Component> {
    if TrafficReplicas(i) <= 0 then []
    else if ScaleUpAllowed(i) then [Component(0.25, TrafficReplicas(i))]
    else if TrafficReplicas(i) < Current(i) then [Component(-0.12, TrafficReplicas(i))]
    else [Component(0.0, TrafficReplicas(i))]
  }

  function AnomalyComponent(signal: Signal, current: int): seq<Component> {
    match signal
    case Absent => []
    case Observed(Critical, _) => [Component(0.35, current + 1)]
    case Observed(Warning, _) => [Component(0.18, current)]
    case Observed(Normal, true) => [Component(-0.05, current)]
    case Observed(_, _) => [Component(0.0, current)]
  }

  function ResourceComponent(r: Resource, driven: int, current: int, allowed: bool): seq<Component> {
    if !r.hasDemand || driven <= 0 then []
    else if driven > current && allowed then [Component(0.30, driven)]
    else if driven > current then [Component(0.0, current)]
    else if driven < current then [Component(-0.10, driven)]
    else [Component(0.0, driven)]
  }

  function TrafficFloorComponent(i: Inputs): seq<Component> {
    if ScaleUpAllowed(i) && TrafficReplicas(i) > 0 then [Component(0.45, TrafficReplicas(i))] else []
  }

  function FloorComponent(i: Inputs): seq<Component> {
    if Floor(i) > 1 then [Component(0.0, Floor(i))] else []
  }

  function Components(i: Inputs): seq<Component> {
    TrafficComponent(i)
    + AnomalyComponent(i.latency, Current(i))
    + AnomalyComponent(i.errorRate, Current(i))
    + AnomalyComponent(i.concurrency, Current(i))
    + ResourceComponent(i.cpu, i.cpuDriven, Current(i), ResourceScaleUpAllowed(i))
    + ResourceComponent(i.memory, i.memoryDriven, Current(i), ResourceScaleUpAllowed(i))
    + TrafficFloorComponent(i)
    + FloorComponent(i)
  }

  function ScoreSum(components: seq<Component>): real {
    if components == [] then 0.0
    else ScoreSum(components[..|components| - 1]) + components[|components| - 1].score
  }

  function HighestPressure(components: seq<Component>, floor: int): int {
    if components == [] then floor
    else
      var last := components[|components| - 1];
      var highest := HighestPressure(components[..|components| - 1], floor);
      if last.score > 0.0 && last.replicas > highest then last.replicas else highest
  }

  /** What the resources that the engine does not manage are asking for. */
  function UnmanagedDriven(i: Inputs): int {
    MaxInt(if i.cpu.managed then 0 else i.cpuDriven, if i.memory.managed then 0 else i.memoryDriven)
  }

  function FinalScore(i: Inputs): real {
    ClampFloat(ScoreSum(Components(i)), -1.5, 1.5)
  }

  function Scored(i: Inputs): int {
    if FinalScore(i) >= 0.25 then MaxInt(MaxInt(Current(i), HighestPressure(Components(i), Floor(i))), Floor(i))
    else if FinalScore(i) <= -0.05 then MaxInt(Floor(i), UnmanagedDriven(i))
    else MaxInt(Current(i), Floor(i))
  }

  method MultiSignalReplicaDecision(i: Inputs) returns (recommended: int, score: real)
    ensures recommended == Scored(i) && score == FinalScore(i)
    ensures recommended >= Floor(i) >= 1
  {
    var current, floor := Current(i), Floor(i);
    var components := Components(i);
    var sum, highestPressure := 0.0, floor;
    var lowestResource := MaxInt(floor, UnmanagedDriven(i));
    for x := 0 to |components|
      invariant sum == ScoreSum(components[..x])
      invariant highestPressure == HighestPressure(components[..x], floor) >= floor
    {
      assert components[..x + 1][..x] == components[..x];
      sum := sum + components[x].score;
      if components[x].score > 0.0 && components[x].replicas > highestPressure {
        highestPressure := components[x].replicas;
      }
    }
    assert components[..|components|] == components;
    score := ClampFloat(sum, -1.5, 1.5);
    if score >= 0.25 {
      recommended := MaxInt(MaxInt(current, highestPressure), floor);
    } else if score <= -0.05 {
      recommended := MaxInt(lowestResource, floor);
    } else {
      recommended := MaxInt(current, floor);
    }
  }

  // ----- the decision in terms of the signals -----

  /** What the traffic adds to the score: much if it may scale up, and a little the other way if it needs less. */
  function TrafficVote(i: Inputs): real {
    if TrafficReplicas(i) <= 0 then 0.0
    else if ScaleUpAllowed(i) then 0.7
    else if TrafficReplicas(i) < Current(i) then -0.12
    else 0.0
  }

  function SignalVote(signal: Signal): real {
    if signal.Absent? then 0.0
    else if signal.state == Critical then 0.35
    else if signal.state == Warning then 0.18
    else if signal.state == Normal && signal.belowMedian then -0.05
    else 0.0
  }

  /** A resource asks for more or for fewer replicas than there are. */
  predicate AsksForMore(r: Resource, driven: int, i: Inputs) {
    r.hasDemand && driven > Current(i) && (ScaleUpAllowed(i) || i.emergency)
  }

  function ResourceVote(r: Resource, driven: int, i: Inputs): real {
    if AsksForMore(r, driven, i) then 0.3
    else if r.hasDemand && 0 < driven < Current(i) then -0.1
    else 0.0
  }

  function Votes(i: Inputs): real {
    TrafficVote(i) + SignalVote(i.latency) + SignalVote(i.errorRate) + SignalVote(i.concurrency)
    + ResourceVote(i.cpu, i.cpuDriven, i) + ResourceVote(i.memory, i.memoryDriven, i)
  }

  lemma {:induction false} ScoreSumAppend(some: seq<Component>, more: seq<Component>)
    ensures ScoreSum(some + more) == ScoreSum(some) + ScoreSum(more)
  {
    if more == [] {
      assert some + more == some;
    } else {
      assert (some + more)[..|some + more| - 1] == some + more[..|more| - 1];
      ScoreSumAppend(some, more[..|more| - 1]);
    }
  }

  lemma ScoreOfOne(components: seq<Component>)
    requires |components| <= 1
    ensures ScoreSum(components) == if components == [] then 0.0 else components[0].score
  {
    if components != [] {
      assert components[..0] == [];
    }
  }

  lemma SignalScore(signal: Signal, current: int)
    ensures ScoreSum(AnomalyComponent(signal, current)) == SignalVote(signal)
  {
    ScoreOfOne(AnomalyComponent(signal, current));
  }

  lemma ResourceScore(r: Resource, driven: int, i: Inputs)
    ensures ScoreSum(ResourceComponent(r, driven, Current(i), ResourceScaleUpAllowed(i))) == ResourceVote(r, driven, i)
  {
    ScoreOfOne(ResourceComponent(r, driven, Current(i), ResourceScaleUpAllowed(i)));
  }

  lemma TrafficScore(i: Inputs)
    ensures ScoreSum(TrafficComponent(i)) + ScoreSum(TrafficFloorComponent(i)) == TrafficVote(i)
    ensures ScoreSum(FloorComponent(i)) == 0.0
  {
    ScoreOfOne(TrafficComponent(i));
    ScoreOfOne(TrafficFloorComponent(i));
    ScoreOfOne(FloorComponent(i));
  }

  /** The score is the sum of what the signals say. */
  lemma ScoreMeans(i: Inputs)
    ensures FinalScore(i) == ClampFloat(Votes(i), -1.5, 1.5)
  {
    var a, b, c := TrafficComponent(i), AnomalyComponent(i.latency, Current(i)),
                   AnomalyComponent(i.errorRate, Current(i));
    var d := AnomalyComponent(i.concurrency, Current(i));
    var e := ResourceComponent(i.cpu, i.cpuDriven, Current(i), ResourceScaleUpAllowed(i));
    var f := ResourceComponent(i.memory, i.memoryDriven, Current(i), ResourceScaleUpAllowed(i));
    EightScores(a, b, c, d, e, f, TrafficFloorComponent(i), FloorComponent(i));
    TrafficScore(i);
    SignalScore(i.latency, Current(i));
    SignalScore(i.errorRate, Current(i));
    SignalScore(i.concurrency, Current(i));
    ResourceScore(i.cpu, i.cpuDriven, i);
    ResourceScore(i.memory, i.memoryDriven, i);
  }

  lemma EightScores(
      a: seq<Component>, b: seq<Component>, c: seq<Component>, d: seq<Component>, e: seq<Component>,
      f: seq<Component>, g: seq<Component>, h: seq<Component>)
    ensures ScoreSum(a + b + c + d + e + f + g + h)
         == ScoreSum(a) + ScoreSum(b) + ScoreSum(c) + ScoreSum(d) + ScoreSum(e) + ScoreSum(f) + ScoreSum(g)
            + ScoreSum(h)
  {
    ScoreSumAppend(a, b);
    ScoreSumAppend(a + b, c);
    ScoreSumAppend(a + b + c, d);
    ScoreSumAppend(a + b + c + d, e);
    ScoreSumAppend(a + b + c + d + e, f);
    ScoreSumAppend(a + b + c + d + e + f, g);
    ScoreSumAppend(a + b + c + d + e + f + g, h);
  }

  /** No component asks for more than `n`. */
  ghost predicate Within(components: seq<Component>, n: int) {
    forall c :: c in components && c.score > 0.0 ==> c.replicas <= n
  }

  lemma {:induction false} PressureMeans(components: seq<Component>, floor: int, n: int)
    ensures HighestPressure(components, floor) <= n
       <==> floor <= n && Within(components, n)
  {
    if components != [] {
      var front, last := components[..|components| - 1], components[|components| - 1];
      assert last in components && forall c :: c in front ==> c in components;
      assert forall c :: c in components ==> c in front || c == last;
      PressureMeans(front, floor, n);
    }
  }

  /** The count is enough for every signal that asks for more. */
  predicate Enough(i: Inputs, n: int) {
    && Current(i) <= n && Floor(i) <= n
    && (ScaleUpAllowed(i) ==> TrafficReplicas(i) <= n)
    && (IsCritical(i.latency) || IsCritical(i.errorRate) || IsCritical(i.concurrency) ==> Current(i) < n)
    && (AsksForMore(i.cpu, i.cpuDriven, i) ==> i.cpuDriven <= n)
    && (AsksForMore(i.memory, i.memoryDriven, i) ==> i.memoryDriven <= n)
  }

  lemma ComponentsWithin(i: Inputs, n: int)
    requires Current(i) <= n && Floor(i) <= n
    ensures Within(Components(i), n) <==> Enough(i, n)
  {
    EightWithin(TrafficComponent(i), AnomalyComponent(i.latency, Current(i)), AnomalyComponent(i.errorRate, Current(i)),
                AnomalyComponent(i.concurrency, Current(i)),
                ResourceComponent(i.cpu, i.cpuDriven, Current(i), ResourceScaleUpAllowed(i)),
                ResourceComponent(i.memory, i.memoryDriven, Current(i), ResourceScaleUpAllowed(i)),
                TrafficFloorComponent(i), FloorComponent(i), n);
    TrafficWithin(i, n);
    SignalWithin(i.latency, Current(i), n);
    SignalWithin(i.errorRate, Current(i), n);
    SignalWithin(i.concurrency, Current(i), n);
    ResourceWithin(i.cpu, i.cpuDriven, i, n);
    ResourceWithin(i.memory, i.memoryDriven, i, n);
  }

  lemma TrafficWithin(i: Inputs, n: int)
    requires Current(i) <= n && Floor(i) <= n
    ensures Within(TrafficComponent(i), n) && Within(TrafficFloorComponent(i), n)
       <==> (ScaleUpAllowed(i) ==> TrafficReplicas(i) <= n)
    ensures Within(FloorComponent(i), n)
  {
    EnoughOf(TrafficComponent(i), n);
    EnoughOf(TrafficFloorComponent(i), n);
    EnoughOf(FloorComponent(i), n);
  }

  lemma SignalWithin(signal: Signal, current: int, n: int)
    requires current <= n
    ensures Within(AnomalyComponent(signal, current), n) <==> (IsCritical(signal) ==> current < n)
  {
    EnoughOf(AnomalyComponent(signal, current), n);
  }

  lemma ResourceWithin(r: Resource, driven: int, i: Inputs, n: int)
    requires Current(i) <= n
    ensures Within(ResourceComponent(r, driven, Current(i), ResourceScaleUpAllowed(i)), n)
       <==> (AsksForMore(r, driven, i) ==> driven <= n)
  {
    EnoughOf(ResourceComponent(r, driven, Current(i), ResourceScaleUpAllowed(i)), n);
  }

  lemma WithinBoth(some: seq<Component>, more: seq<Component>, n: int)
    ensures Within(some + more, n) <==> Within(some, n) && Within(more, n)
  {
    assert forall c :: c in some + more <==> c in some || c in more;
  }

  lemma EightWithin(
      a: seq<Component>, b: seq<Component>, c: seq<Component>, d: seq<Component>, e: seq<Component>,
      f: seq<Component>, g: seq<Component>, h: seq<Component>, n: int)
    ensures Within(a + b + c + d + e + f + g + h, n)
       <==> && Within(a, n) && Within(b, n) && Within(c, n) && Within(d, n) && Within(e, n) && Within(f, n)
            && Within(g, n) && Within(h, n)
  {
    WithinBoth(a, b, n);
    WithinBoth(a + b, c, n);
    WithinBoth(a + b + c, d, n);
    WithinBoth(a + b + c + d, e, n);
    WithinBoth(a + b + c + d + e, f, n);
    WithinBoth(a + b + c + d + e + f, g, n);
    WithinBoth(a + b + c + d + e + f + g, h, n);
  }

  lemma EnoughOf(components: seq<Component>, n: int)
    requires |components| <= 1
    ensures Within(components, n) <==> components == [] || components[0].score <= 0.0 || components[0].replicas <= n
  {
    if components != [] {
      assert components[0] in components;
    }
  }

  /**
   * From a score of 0.25 on, the count is the least one that is enough for all signals; down to -0.05 it is what is
   * there; and below, as few as the floor and the resources that the engine does not manage allow.
   */
  lemma ScoredMeans(i: Inputs, n: int)
    ensures Scored(i) <= n <==>
      if FinalScore(i) >= 0.25 then Enough(i, n)
      else if FinalScore(i) <= -0.05 then
        Floor(i) <= n && (i.cpu.managed || i.cpuDriven <= n) && (i.memory.managed || i.memoryDriven <= n)
      else Current(i) <= n && Floor(i) <= n
  {
    PressureMeans(Components(i), Floor(i), n);
    FloorMeans(i, n);
    if Current(i) <= n && Floor(i) <= n {
      ComponentsWithin(i, n);
    }
  }

  /** One critical anomaly is enough for another replica, unless something speaks for fewer. */
  lemma CriticalMeansMore(i: Inputs)
    requires IsCritical(i.latency) || IsCritical(i.errorRate) || IsCritical(i.concurrency)
    requires TrafficVote(i) >= 0.0 && SignalVote(i.latency) >= 0.0 && SignalVote(i.errorRate) >= 0.0
    requires SignalVote(i.concurrency) >= 0.0
    requires ResourceVote(i.cpu, i.cpuDriven, i) >= 0.0 && ResourceVote(i.memory, i.memoryDriven, i) >= 0.0
    ensures Scored(i) > Current(i)
  {
    ScoreMeans(i);
    ScoredMeans(i, Current(i));
  }

  /** Warnings alone never change the count. */
  lemma WarningsKeepTheCount(i: Inputs)
    requires i.traffic.NoTraffic? && !i.cpu.hasDemand && !i.memory.hasDemand
    requires forall s :: s in {i.latency, i.errorRate, i.concurrency} ==> s.Absent? || s.state == Warning
    ensures Scored(i) == MaxInt(Current(i), Floor(i))
  {
    var signals := {i.latency, i.errorRate, i.concurrency};
    assert i.latency in signals && i.errorRate in signals && i.concurrency in signals;
    ScoreMeans(i);
    ScoredMeans(i, MaxInt(Current(i), Floor(i)));
    ScoredMeans(i, MaxInt(Current(i), Floor(i)) - 1);
  }

  /** The least count that everything allows: at least one, and in an emergency one more, as far as the maximum. */
  lemma FloorMeans(i: Inputs, n: int)
    ensures Floor(i) <= n <==>
      && 1 <= n && i.min <= n && i.pdbFloor <= n && i.replicaFloor <= n
      && (i.emergency ==> i.replicas < n || (i.max > 0 && i.max <= n))
  {
  }

  /** The traffic needs as many replicas as carry the forecast at three quarters of the peak load of one. */
  lemma TrafficMeans(i: Inputs, n: int)
    requires i.traffic.Traffic? && i.traffic.peak > 0.0
    ensures TrafficReplicas(i) <= n <==>
      || i.traffic.forecast * 4.0 * Current(i) as real <= 3.0 * i.traffic.peak * n as real
      || (!i.traffic.scaleUpAllowed && Current(i) <= n)
  {
    var current, forecast, peak := Current(i) as real, i.traffic.forecast, i.traffic.peak;
    var each := peak / current * 0.75;
    DivideAndMultiply(peak, current);
    assert each * current * 4.0 == 3.0 * peak;
    CeilCarries(forecast, each, current, n);
    assert each * n as real * (current * 4.0) == 3.0 * peak * n as real;
  }

  lemma CeilCarries(forecast: real, each: real, current: real, n: int)
    requires current > 0.0 && each > 0.0
    ensures Ceil(forecast / each) <= n <==> forecast * (current * 4.0) <= each * n as real * (current * 4.0)
  {
    DivideAndMultiply(forecast, each);
    Less(n as real, forecast / each, each);
    Less(each * n as real, forecast, current * 4.0);
  }

  // ----- when nothing asks for more -----

  predicate IsCritical(signal: Signal) {
    signal.Observed? && signal.state == Critical
  }

  /** No demand signal: no traffic growth, no emergency, and no critical anomaly. */
  predicate NoDemandSignal(i: Inputs) {
    && !ScaleUpAllowed(i) && !i.emergency
    && !IsCritical(i.latency) && !IsCritical(i.errorRate) && !IsCritical(i.concurrency)
  }

  /** The count that should not be exceeded without a demand signal. */
  function Ceiling(i: Inputs): int {
    MaxInt(Current(i), Floor(i))
  }

  /**
   * Without a demand signal the scored count stays within the ceiling, except in one case: the signals add
   * up to waste and a resource that the engine does not manage was sized for more replicas.
   */
  lemma ScoredWithoutDemand(i: Inputs)
    requires NoDemandSignal(i)
    ensures Scored(i) <= Ceiling(i) <==> !(FinalScore(i) <= -0.05 && UnmanagedDriven(i) > Ceiling(i))
  {
    ScoredMeans(i, Ceiling(i));
  }

  lemma QuietComponents(i: Inputs, c: Component)
    requires NoDemandSignal(i) && c in Components(i) && c.score > 0.0
    ensures c.replicas <= Ceiling(i)
  {
    ComponentsWithin(i, Ceiling(i));
  }

  /** Three replicas, traffic that needs one, no anomaly, and an unmanaged CPU request that is too small. */
  function UnmanagedExample(): Inputs {
    var cpu := Resource(Cores, false, 0.1, true, 0.7, true, Policy(0.7, 0.8, 0.5, 50, 20));
    Inputs(3, 1, 0, 0, 0, false, Traffic(1.0, 6.0, false), Absent, Absent, Absent,
           cpu, 10, cpu.(hasDemand := false), 0, false)
  }

  /** The exception is real: here ten replicas are recommended although nothing allows scaling up. */
  lemma ScaleUpWithoutDemand()
    ensures var i := UnmanagedExample(); NoDemandSignal(i) && Ceiling(i) == 3 && Scored(i) == 10
  {
    var i := UnmanagedExample();
    assert TrafficReplicas(i) == 1;
    var waste, blocked := Component(-0.12, 1), Component(0.0, 3);
    assert Components(i) == [waste, blocked];
    assert [waste, blocked][..1] == [waste] && [waste][..0] == [];
    assert ScoreSum([waste]) == ScoreSum([waste][..0]) + -0.12;
    assert ScoreSum([waste, blocked]) == ScoreSum([waste, blocked][..1]) + 0.0;
  }

  // ----- the recommended count -----

  /** The scored count, within the configured maximum. */
  function Clamped(i: Inputs): int {
    if i.max > 0 && Scored(i) > i.max then i.max else Scored(i)
  }

  /** The highest count that the optimiser may choose. */
  function OptimizerCeiling(i: Inputs): int {
    var ceiling := MaxInt(Clamped(i), MaxInt(TrafficReplicas(i), i.replicas));
    if ResourceScaleUpAllowed(i) then MaxInt(ceiling, MaxInt(i.cpuDriven, i.memoryDriven)) else ceiling
  }

  lemma CeilingMeans(i: Inputs, n: int)
    ensures n <= OptimizerCeiling(i) <==>
      || n <= Clamped(i) || n <= TrafficReplicas(i) || n <= i.replicas
      || ((ScaleUpAllowed(i) || i.emergency) && (n <= i.cpuDriven || n <= i.memoryDriven))
  {
  }

  /** The count before the scale-down block: the cheapest feasible one from the clamped count on, if there is
      one and no emergency. */
  ghost predicate Chosen(i: Inputs, n: int) {
    var low, high := Lowest(Clamped(i)), Highest(Clamped(i), OptimizerCeiling(i), i.replicas, i.max);
    if i.emergency || forall m :: low <= m <= high ==> !Feasible(i.cpu, i.memory, m) then n == Clamped(i)
    else Best(i.cpu, i.memory, MaxInt(i.replicas, 1), low, high, n)
  }

  /** A blocked scale-down restores the current count, even above the maximum. */
  function Unblocked(i: Inputs, n: int): int {
    if n < i.replicas && i.downscaleBlocked then i.replicas else n
  }

  lemma {:induction false} PressureAtLeast(components: seq<Component>, floor: int)
    ensures HighestPressure(components, floor) >= floor
  {
    if components != [] {
      PressureAtLeast(components[..|components| - 1], floor);
    }
  }

  lemma ClampedAtLeast(i: Inputs)
    ensures Scored(i) >= Floor(i) >= 1
    ensures Clamped(i) >= 1 && (i.max > 0 ==> Clamped(i) <= i.max)
    ensures Clamped(i) >= Floor(i) || (i.max > 0 && Clamped(i) == i.max)
  {
    PressureAtLeast(Components(i), Floor(i));
  }

  lemma ChosenBetween(i: Inputs, n: int)
    requires Chosen(i, n)
    ensures Clamped(i) <= n <= OptimizerCeiling(i) && (i.max > 0 ==> n <= i.max)
  {
    ClampedAtLeast(i);
  }

  /** The bounds of the count, and when it exceeds what is there without a demand signal. */
  lemma CountWithinBounds(i: Inputs, n: int)
    requires Chosen(i, n)
    ensures i.max > 0 ==> (if Floor(i) < i.max then Floor(i) else i.max) <= Unblocked(i, n) <= MaxInt(i.max, i.replicas)
    ensures i.max <= 0 ==> Floor(i) <= Unblocked(i, n)
    ensures NoDemandSignal(i) ==>
              (Unblocked(i, n) <= Ceiling(i) <==>
               !(FinalScore(i) <= -0.05 && UnmanagedDriven(i) > Ceiling(i) && (i.max <= 0 || i.max > Ceiling(i))))
  {
    ChosenBetween(i, n);
    ClampedAtLeast(i);
    if NoDemandSignal(i) {
      ScoredWithoutDemand(i);
      assert TrafficReplicas(i) <= Current(i) && !ResourceScaleUpAllowed(i);
    }
  }

  method RecommendReplicas(i: Inputs) returns (recommended: int)
    ensures exists n :: Chosen(i, n) && recommended == Unblocked(i, n)
    ensures i.downscaleBlocked ==> recommended >= i.replicas
    ensures recommended >= i.replicas || Chosen(i, recommended)
    ensures i.max > 0 ==> (if Floor(i) < i.max then Floor(i) else i.max) <= recommended <= MaxInt(i.max, i.replicas)
    ensures i.max <= 0 ==> Floor(i) <= recommended
    ensures NoDemandSignal(i) ==>
              (recommended <= Ceiling(i) <==>
               !(FinalScore(i) <= -0.05 && UnmanagedDriven(i) > Ceiling(i) && (i.max <= 0 || i.max > Ceiling(i))))
  {
    var raw, _ := MultiSignalReplicaDecision(i);
    if i.max > 0 && raw > i.max {
      raw := i.max;
    }
    if !i.emergency {
      var ceiling := MaxInt(raw, MaxInt(TrafficReplicas(i), i.replicas));
      if ResourceScaleUpAllowed(i) {
        ceiling := MaxInt(ceiling, MaxInt(i.cpuDriven, i.memoryDriven));
      }
      var plan := Optimize(i.cpu, i.memory, i.replicas, i.max, raw, ceiling);
      if plan.Plan? {
        raw := plan.replicas;
      }
    }
    assert Chosen(i, raw);
    CountWithinBounds(i, raw);
    if raw < i.replicas && i.downscaleBlocked {
      raw := i.replicas;
    }
    recommended := raw;
  }
}
