/**
 * The persisted gates of one workload (internal/state/sqlite.go): what a reconcile makes of the recorded runs,
 * and what it records for the next ones. Reason texts are left out.
 */
module OutcomeGates {
  import opened Options

  datatype Field = Replicas | CPU | Memory

  datatype Sizes = Sizes(replicas: int, cpu: string, memory: string)

  /** `None` parses to nothing, like resource.ParseQuantity failing. */
  type Parser = string -> Option<real>

  datatype Outcome =
    NoOutcome | NoChangeRecommended | NoActionTaken | DryRunNotApplied | NotApplied | PartiallyApplied
    | TooAggressive | TooConservative | AppliedSuccessful

  /** A row of workload_runs, as far as it is read again. */
  datatype Run = Run(
    current: Sizes, recommended: Sizes, mode: string, actionable: bool, outcome: Outcome, offered: set<Field>)

  /**
   * What a reconcile brings along. `drafted` is the recommendation before the stored feedback is applied and
   * `settled` the one after it; `urgentTraffic` and `flooredOrBlocked` are read off the reason codes.
   */
  datatype Reconcile = Reconcile(
    mode: string, current: Sizes, drafted: Sizes, settled: Sizes, unhealthy: bool, memoryAnomaly: bool,
    urgentTraffic: bool, flooredOrBlocked: bool, recovery: bool)

  /** What happened to the recommendation between the gates and its being recorded. */
  datatype Delivery = Delivery(pushed: bool, blocked: bool)

  datatype Status = Hold | Stable | Pending | Blocked

  datatype Gate = Gate(status: Status, observed: nat, required: nat)

  datatype Gates = Gates(replicas: Gate, cpu: Gate, memory: Gate) {
    function Of(field: Field): Gate {
      match field
      case Replicas => replicas
      case CPU => cpu
      case Memory => memory
    }

    predicate Actionable() {
      Passes(replicas) && Passes(cpu) && Passes(memory)
    }
  }

  predicate Passes(gate: Gate) {
    gate.status == Stable || gate.status == Hold
  }

  const REQUIRED := 3
  const COOLDOWN_RUNS := 3
  const STABLE_NOW := Gate(Stable, 1, 1)
  const OUTCOME_BLOCK := Gate(Blocked, 0, 0)
  const ALL_BLOCKED := Gates(OUTCOME_BLOCK, OUTCOME_BLOCK, OUTCOME_BLOCK)

  // ----- directions -----

  /** The sign of a change; `None` if there is no change or a quantity cannot be read. Equal amounts that are
      written differently have direction 0. */
  function Direction(parse: Parser, current: string, recommended: string): Option<int> {
    if current == "" || recommended == "" || current == recommended then None
    else if parse(current).None? || parse(recommended).None? then None
    else if parse(recommended).value > parse(current).value then Some(1)
    else if parse(recommended).value < parse(current).value then Some(-1)
    else Some(0)
  }

  function Move(parse: Parser, field: Field, current: Sizes, recommended: Sizes): Option<int> {
    match field
    case Replicas =>
      if recommended.replicas == current.replicas then None
      else Some(if recommended.replicas > current.replicas then 1 else -1)
    case CPU => Direction(parse, current.cpu, recommended.cpu)
    case Memory => Direction(parse, current.memory, recommended.memory)
  }

  predicate Moved(parse: Parser, field: Field, run: Run, direction: int) {
    Move(parse, field, run.current, run.recommended) == Some(direction)
  }

  /** How many of the newest runs moved the field in this direction without a break. */
  function Streak(parse: Parser, field: Field, recent: seq<Run>, direction: int): nat {
    if recent == [] || !Moved(parse, field, recent[0], direction) then 0
    else 1 + Streak(parse, field, recent[1..], direction)
  }

  method CountStreak(parse: Parser, field: Field, recent: seq<Run>, direction: int) returns (count: nat)
    ensures count == Streak(parse, field, recent, direction)
  {
    count := 0;
    for i := 0 to |recent|
      invariant count == i
      invariant Streak(parse, field, recent, direction) == count + Streak(parse, field, recent[i..], direction)
    {
      if !Moved(parse, field, recent[i], direction) {
        break;
      }
      count := count + 1;
      assert recent[i..][1..] == recent[i + 1..];
    }
  }

  lemma {:induction false} StreakReaches(parse: Parser, field: Field, recent: seq<Run>, direction: int, n: nat)
    ensures Streak(parse, field, recent, direction) >= n
       <==> n <= |recent| && forall i :: 0 <= i < n ==> Moved(parse, field, recent[i], direction)
  {
    if n > 0 && recent != [] && Moved(parse, field, recent[0], direction) {
      StreakReaches(parse, field, recent[1..], direction, n - 1);
      if n <= |recent| && forall i :: 0 <= i < n - 1 ==> Moved(parse, field, recent[1..][i], direction) {
        forall i | 0 <= i < n ensures Moved(parse, field, recent[i], direction) {
          assert i > 0 ==> recent[i] == recent[1..][i - 1];
        }
      }
    }
  }

  // ----- the outcome of the previous run -----

  function Get(sizes: Sizes, field: Field): (int, string) {
    match field
    case Replicas => (sizes.replicas, "")
    case CPU => (0, sizes.cpu)
    case Memory => (0, sizes.memory)
  }

  /** The fields that the previous run offered to change. */
  function Expected(previous: Run): set<Field> {
    set f | f in previous.offered && Get(previous.current, f) != Get(previous.recommended, f)
  }

  function Applied(previous: Run, now: Reconcile): set<Field> {
    set f | f in Expected(previous) && Get(now.current, f) == Get(previous.recommended, f)
  }

  /** Some field is still recommended to move the way the previous run moved it. */
  predicate StillMoving(parse: Parser, previous: Run, now: Reconcile) {
    exists f: Field :: KeepsMoving(parse, f, previous, now)
  }

  predicate KeepsMoving(parse: Parser, f: Field, previous: Run, now: Reconcile) {
    var before := Move(parse, f, previous.current, previous.recommended);
    before.Some? && before == Move(parse, f, now.current, now.drafted)
  }

  /** White space, as Go's unicode package has it. */
  predicate Space(c: char) {
    c in " \t\n\r\U{B}\U{C}\U{85}\U{A0}\U{1680}\U{2028}\U{2029}\U{202F}\U{205F}\U{3000}"
    || '\U{2000}' <= c <= '\U{200A}'
  }

  predicate Blank(mode: string) {
    forall c :: c in mode ==> Space(c)
  }

  predicate DryRun(mode: string) {
    Blank(mode) || mode == "dry-run"
  }

  function OutcomeOf(parse: Parser, previous: Run, now: Reconcile): Outcome {
    var expected, applied := Expected(previous), Applied(previous, now);
    if expected == {} then if previous.actionable then NoChangeRecommended else NoActionTaken
    else if applied == {} then if DryRun(previous.mode) then DryRunNotApplied else NotApplied
    else if applied < expected then PartiallyApplied
    else if now.unhealthy then TooAggressive
    else if StillMoving(parse, previous, now) then TooConservative
    else AppliedSuccessful
  }

  /** The three counters of the source, tied to the sets. */
  method CountApplied(previous: Run, now: Reconcile) returns (expected: nat, applied: nat)
    ensures expected == |Expected(previous)| && applied == |Applied(previous, now)|
  {
    expected, applied := 0, 0;
    if Replicas in previous.offered && previous.current.replicas != previous.recommended.replicas {
      expected := expected + 1;
      if now.current.replicas == previous.recommended.replicas {
        applied := applied + 1;
      }
    }
    if CPU in previous.offered && previous.current.cpu != previous.recommended.cpu {
      expected := expected + 1;
      if now.current.cpu == previous.recommended.cpu {
        applied := applied + 1;
      }
    }
    if Memory in previous.offered && previous.current.memory != previous.recommended.memory {
      expected := expected + 1;
      if now.current.memory == previous.recommended.memory {
        applied := applied + 1;
      }
    }
    FieldCount(Expected(previous));
    FieldCount(Applied(previous, now));
  }

  function One(b: bool): nat {
    if b then 1 else 0
  }

  lemma FieldCount(s: set<Field>)
    ensures |s| == One(Replicas in s) + One(CPU in s) + One(Memory in s)
  {
    Without(s, Replicas);
    Without(s - {Replicas}, CPU);
    Without(s - {Replicas} - {CPU}, Memory);
    var rest := s - {Replicas} - {CPU} - {Memory};
    assert forall f :: f in rest ==> f != Replicas && f != CPU && f != Memory;
    assert rest == {};
  }

  lemma Without(s: set<Field>, f: Field)
    ensures |s| == One(f in s) + |s - {f}|
  {
    if f in s {
      assert s == (s - {f}) + {f};
    } else {
      assert s - {f} == s;
    }
  }

  method ClassifyOutcome(parse: Parser, previous: Run, now: Reconcile) returns (outcome: Outcome)
    ensures outcome == OutcomeOf(parse, previous, now)
  {
    var expected, applied := CountApplied(previous, now);
    var moving := CheckMoving(parse, previous, now);
    SmallerSubset(Applied(previous, now), Expected(previous));
    if expected == 0 {
      outcome := if previous.actionable then NoChangeRecommended else NoActionTaken;
    } else if applied == 0 {
      outcome := if DryRun(previous.mode) then DryRunNotApplied else NotApplied;
    } else if applied < expected {
      outcome := PartiallyApplied;
    } else if now.unhealthy {
      outcome := TooAggressive;
    } else if moving {
      outcome := TooConservative;
    } else {
      outcome := AppliedSuccessful;
    }
  }

  method CheckMoving(parse: Parser, previous: Run, now: Reconcile) returns (moving: bool)
    ensures moving <==> StillMoving(parse, previous, now)
  {
    moving := KeepsMoving(parse, Replicas, previous, now) || KeepsMoving(parse, CPU, previous, now)
           || KeepsMoving(parse, Memory, previous, now);
  }

  lemma SmallerSubset(small: set<Field>, large: set<Field>)
    requires small <= large
    ensures |small| < |large| <==> small < large
    ensures |small| == 0 <==> small == {}
    ensures |large| == 0 <==> large == {}
  {
    assert large == small + (large - small);
  }

  predicate Concerning(outcome: Outcome) {
    outcome in {DryRunNotApplied, NotApplied, PartiallyApplied, TooAggressive, TooConservative}
  }

  /** The outcome blocks a reconcile in this mode. A mode that is blank is treated as a dry run when an outcome
      is classified, but not here. */
  predicate Blocks(outcome: Outcome, mode: string) {
    Concerning(outcome) && (outcome == DryRunNotApplied ==> mode == "dry-run")
  }

  // ----- the outcome in terms of the two runs -----

  /** The previous run offered to change the field, and wanted something else than it found. */
  ghost predicate Changed(previous: Run, f: Field) {
    && f in previous.offered
    && match f
       case Replicas => previous.current.replicas != previous.recommended.replicas
       case CPU => previous.current.cpu != previous.recommended.cpu
       case Memory => previous.current.memory != previous.recommended.memory
  }

  /** The field has what the previous run recommended. */
  ghost predicate AtGoal(previous: Run, now: Reconcile, f: Field) {
    match f
    case Replicas => now.current.replicas == previous.recommended.replicas
    case CPU => now.current.cpu == previous.recommended.cpu
    case Memory => now.current.memory == previous.recommended.memory
  }

  /** The field is drafted to move the way it was recommended to move before. */
  ghost predicate Continued(parse: Parser, previous: Run, now: Reconcile, f: Field) {
    match f
    case Replicas =>
      || (previous.current.replicas < previous.recommended.replicas && now.current.replicas < now.drafted.replicas)
      || (previous.current.replicas > previous.recommended.replicas && now.current.replicas > now.drafted.replicas)
    case CPU =>
      AmountsMoveAlike(parse, previous.current.cpu, previous.recommended.cpu, now.current.cpu, now.drafted.cpu)
    case Memory =>
      AmountsMoveAlike(parse, previous.current.memory, previous.recommended.memory, now.current.memory,
                       now.drafted.memory)
  }

  /** Two different quantities each time, and they go up, down or stay the same amount both times. */
  ghost predicate AmountsMoveAlike(parse: Parser, a: string, b: string, c: string, d: string) {
    && Amounts(parse, a, b) && Amounts(parse, c, d)
    && (parse(a).value < parse(b).value <==> parse(c).value < parse(d).value)
    && (parse(a).value > parse(b).value <==> parse(c).value > parse(d).value)
  }

  ghost predicate Amounts(parse: Parser, a: string, b: string) {
    a != b && a != "" && b != "" && parse(a).Some? && parse(b).Some?
  }

  lemma OfferedFields(previous: Run, now: Reconcile, f: Field)
    ensures f in Expected(previous) <==> Changed(previous, f)
    ensures f in Applied(previous, now) <==> Changed(previous, f) && AtGoal(previous, now, f)
  {
  }

  lemma MovesAlike(parse: Parser, previous: Run, now: Reconcile, f: Field)
    ensures KeepsMoving(parse, f, previous, now) <==> Continued(parse, previous, now, f)
  {
  }

  /** Each outcome in terms of what the previous run offered, what is there now and what is drafted now. */
  lemma OutcomeMeans(parse: Parser, previous: Run, now: Reconcile)
    ensures var outcome := OutcomeOf(parse, previous, now);
      var offered := exists f :: Changed(previous, f);
      var reached := exists f :: Changed(previous, f) && AtGoal(previous, now, f);
      var missed := exists f :: Changed(previous, f) && !AtGoal(previous, now, f);
      var continued := exists f :: Continued(parse, previous, now, f);
      && (outcome == NoChangeRecommended <==> !offered && previous.actionable)
      && (outcome == NoActionTaken <==> !offered && !previous.actionable)
      && (outcome == DryRunNotApplied <==>
            offered && !reached && (previous.mode == "dry-run" || forall c :: c in previous.mode ==> Space(c)))
      && (outcome == NotApplied <==>
            offered && !reached && previous.mode != "dry-run" && exists c :: c in previous.mode && !Space(c))
      && (outcome == PartiallyApplied <==> reached && missed)
      && (outcome == TooAggressive <==> offered && !missed && now.unhealthy)
      && (outcome == TooConservative <==> offered && !missed && !now.unhealthy && continued)
      && (outcome == AppliedSuccessful <==> offered && !missed && !now.unhealthy && !continued)
  {
    forall f ensures (f in Expected(previous) <==> Changed(previous, f))
                     && (f in Applied(previous, now) <==> Changed(previous, f) && AtGoal(previous, now, f))
                     && (KeepsMoving(parse, f, previous, now) <==> Continued(parse, previous, now, f)) {
      OfferedFields(previous, now, f);
      MovesAlike(parse, previous, now, f);
    }
    OutcomeBySets(parse, previous, now, Expected(previous), Applied(previous, now));
  }

  lemma OutcomeBySets(parse: Parser, previous: Run, now: Reconcile, expected: set<Field>, applied: set<Field>)
    requires expected == Expected(previous) && applied == Applied(previous, now)
    ensures var outcome, some, all := OutcomeOf(parse, previous, now), expected != {}, expected <= applied;
      && (outcome == NoChangeRecommended <==> !some && previous.actionable)
      && (outcome == NoActionTaken <==> !some && !previous.actionable)
      && (outcome == DryRunNotApplied <==> some && applied == {} && DryRun(previous.mode))
      && (outcome == NotApplied <==> some && applied == {} && !DryRun(previous.mode))
      && (outcome == PartiallyApplied <==> applied != {} && !all)
      && (outcome == TooAggressive <==> some && all && now.unhealthy)
      && (outcome == TooConservative <==> some && all && !now.unhealthy && StillMoving(parse, previous, now))
      && (outcome == AppliedSuccessful <==> some && all && !now.unhealthy && !StillMoving(parse, previous, now))
  {
  }

  /** A change was offered, and it was not carried out in full, or the workload is not well, or it is to go on. */
  ghost predicate Troubled(parse: Parser, previous: Run, now: Reconcile) {
    && (exists f :: Changed(previous, f))
    && (|| (exists f :: Changed(previous, f) && !AtGoal(previous, now, f))
        || now.unhealthy
        || exists f :: Continued(parse, previous, now, f))
  }

  /**
   * The next reconcile is concerned exactly if a change was offered and was not carried out, did harm, or is to be
   * continued.
   */
  lemma ConcerningExactly(parse: Parser, previous: Run, now: Reconcile)
    ensures Concerning(OutcomeOf(parse, previous, now))
       <==> Troubled(parse, previous, now)
  {
    OutcomeMeans(parse, previous, now);
  }

  // ----- stability -----

  function Counted(streak: nat): Gate {
    Gate(if 1 + streak >= REQUIRED then Stable else Pending, 1 + streak, REQUIRED)
  }

  function ReplicaGate(parse: Parser, now: Reconcile, recent: seq<Run>): Gate {
    match Move(parse, Replicas, now.current, now.settled)
    case None => Gate(Hold, 0, 0)
    case Some(direction) =>
      if direction > 0 && now.urgentTraffic then STABLE_NOW
      else if direction < 0 && (now.flooredOrBlocked || now.unhealthy) then Gate(Blocked, 0, REQUIRED)
      else Counted(Streak(parse, Replicas, recent, direction))
  }

  function DirectedGate(parse: Parser, field: Field, direction: Option<int>, recent: seq<Run>): Gate {
    match direction
    case None => Gate(Hold, 0, 0)
    case Some(d) => if d > 0 then STABLE_NOW else Counted(Streak(parse, field, recent, d))
  }

  function ResourceGate(parse: Parser, field: Field, now: Reconcile, recent: seq<Run>): Gate {
    DirectedGate(parse, field, Move(parse, field, now.current, now.settled), recent)
  }

  /** With a memory anomaly the memory gate is blocked, for an increase too. */
  function Evaluated(parse: Parser, now: Reconcile, recent: seq<Run>): Gates {
    var memory := ResourceGate(parse, Memory, now, recent);
    Gates(
      ReplicaGate(parse, now, recent),
      ResourceGate(parse, CPU, now, recent),
      if memory.status != Hold && now.memoryAnomaly then memory.(status := Blocked) else memory)
  }

  ghost predicate SomeBlocks(recent: seq<Run>, mode: string) {
    exists i :: 0 <= i < |recent| && Blocks(recent[i].outcome, mode)
  }

  /** In an availability recovery every increase goes ahead. */
  function Recovered(parse: Parser, gates: Gates, now: Reconcile): Gates {
    if !now.recovery then gates
    else
      Gates(
        if Increases(parse, now, Replicas) then STABLE_NOW else gates.replicas,
        if Increases(parse, now, CPU) then STABLE_NOW else gates.cpu,
        if Increases(parse, now, Memory) then STABLE_NOW else gates.memory)
  }

  predicate Increases(parse: Parser, now: Reconcile, field: Field) {
    Move(parse, field, now.current, now.settled) == Some(1)
  }

  /** The newest `n` runs, newest first. */
  function Newest(history: seq<Run>, n: nat): (recent: seq<Run>)
    ensures |recent| == if |history| < n then |history| else n
    ensures forall i :: 0 <= i < |recent| ==> recent[i] == history[|history| - 1 - i]
  {
    if n == 0 || history == [] then []
    else [history[|history| - 1]] + Newest(history[..|history| - 1], n - 1)
  }

  function Detected(parse: Parser, history: seq<Run>, now: Reconcile): Outcome {
    if history == [] then NoOutcome else OutcomeOf(parse, history[|history| - 1], now)
  }

  /** The gates of a reconcile: blocked by the outcome it detects or by one of the three newest recorded ones. */
  ghost function Decided(parse: Parser, history: seq<Run>, now: Reconcile): Gates {
    var recent := Newest(history, COOLDOWN_RUNS);
    Recovered(parse, if Locked(parse, history, now) then ALL_BLOCKED else Evaluated(parse, now, recent), now)
  }

  ghost predicate Locked(parse: Parser, history: seq<Run>, now: Reconcile) {
    Blocks(Detected(parse, history, now), now.mode) || SomeBlocks(Newest(history, COOLDOWN_RUNS), now.mode)
  }

  /** The stability report of a recommendation, which the gates overwrite in turn. */
  class Stability {
    var gates: Gates
    var actionable: bool

    ghost predicate Valid()
      reads this
    {
      actionable == gates.Actionable()
    }

    constructor (replicas: Gate, cpu: Gate, memory: Gate)
      ensures Valid() && gates == Gates(replicas, cpu, memory)
    {
      gates := Gates(replicas, cpu, memory);
      actionable := Passes(replicas) && Passes(cpu) && Passes(memory);
    }

    method BlockMemory()
      requires Valid()
      modifies this
      ensures Valid() && gates == old(gates).(memory := old(gates).memory.(status := Blocked))
    {
      gates, actionable := gates.(memory := gates.memory.(status := Blocked)), false;
    }

    method ApplyOutcomeSafetyGate(outcome: Outcome, mode: string)
      requires Valid()
      modifies this
      ensures Valid() && gates == if Blocks(outcome, mode) then ALL_BLOCKED else old(gates)
    {
      if outcome == DryRunNotApplied && mode != "dry-run" {
        return;
      }
      if Concerning(outcome) {
        gates, actionable := ALL_BLOCKED, false;
      }
    }

    method ApplyRecentOutcomeCooldownGate(recent: seq<Run>, mode: string)
      requires Valid()
      modifies this
      ensures Valid() && gates == if SomeBlocks(recent, mode) then ALL_BLOCKED else old(gates)
    {
      for i := 0 to |recent|
        invariant Valid() && gates == old(gates)
        invariant forall j :: 0 <= j < i ==> !Blocks(recent[j].outcome, mode)
      {
        var outcome := recent[i].outcome;
        if outcome == NoOutcome || (outcome == DryRunNotApplied && mode != "dry-run") || !Concerning(outcome) {
          continue;
        }
        gates, actionable := ALL_BLOCKED, false;
        return;
      }
    }

    method ApplyAvailabilityRecoveryGate(parse: Parser, now: Reconcile)
      requires Valid()
      modifies this
      ensures Valid() && gates == Recovered(parse, old(gates), now)
    {
      if !now.recovery {
        return;
      }
      if now.settled.replicas > now.current.replicas {
        gates := gates.(replicas := STABLE_NOW);
      }
      var direction := Direction(parse, now.current.cpu, now.settled.cpu);
      if direction.Some? && direction.value > 0 {
        gates := gates.(cpu := STABLE_NOW);
      }
      direction := Direction(parse, now.current.memory, now.settled.memory);
      if direction.Some? && direction.value > 0 {
        gates := gates.(memory := STABLE_NOW);
      }
      actionable := gates.Actionable();
    }
  }

  method EvaluateReplicaGate(parse: Parser, now: Reconcile, recent: seq<Run>) returns (gate: Gate)
    ensures gate == ReplicaGate(parse, now, recent)
  {
    var current, recommended := now.current.replicas, now.settled.replicas;
    if recommended == current {
      return Gate(Hold, 0, 0);
    }
    var direction := -1;
    if recommended > current {
      if now.urgentTraffic {
        return STABLE_NOW;
      }
      direction := 1;
    } else if now.flooredOrBlocked || now.unhealthy {
      return Gate(Blocked, 0, REQUIRED);
    }
    var count := CountStreak(parse, Replicas, recent, direction);
    var observed := 1 + count;
    if observed >= REQUIRED {
      return Gate(Stable, observed, REQUIRED);
    }
    return Gate(Pending, observed, REQUIRED);
  }

  method EvaluateResourceGate(parse: Parser, field: Field, current: string, recommended: string, recent: seq<Run>)
    returns (gate: Gate)
    requires field != Replicas
    ensures gate == DirectedGate(parse, field, Direction(parse, current, recommended), recent)
  {
    var direction := Direction(parse, current, recommended);
    if direction.None? {
      return Gate(Hold, 0, 0);
    }
    if direction.value > 0 {
      return STABLE_NOW;
    }
    var count := CountStreak(parse, field, recent, direction.value);
    var observed := 1 + count;
    if observed >= REQUIRED {
      return Gate(Stable, observed, REQUIRED);
    }
    return Gate(Pending, observed, REQUIRED);
  }

  /** The gates before any outcome is looked at. */
  method EvaluateStability(parse: Parser, now: Reconcile, recent: seq<Run>) returns (stability: Stability)
    ensures fresh(stability) && stability.Valid() && stability.gates == Evaluated(parse, now, recent)
  {
    var replicas := EvaluateReplicaGate(parse, now, recent);
    var cpu := EvaluateResourceGate(parse, CPU, now.current.cpu, now.settled.cpu, recent);
    var memory := EvaluateResourceGate(parse, Memory, now.current.memory, now.settled.memory, recent);
    stability := new Stability(replicas, cpu, memory);
    if (memory.status == Pending || memory.status == Stable) && now.memoryAnomaly {
      stability.BlockMemory();
    }
  }

  /** The gates one after the other decide as specified. */
  method Attach(parse: Parser, history: seq<Run>, now: Reconcile) returns (stability: Stability, outcome: Outcome)
    ensures fresh(stability) && stability.Valid()
    ensures outcome == Detected(parse, history, now) && stability.gates == Decided(parse, history, now)
  {
    outcome := NoOutcome;
    if history != [] {
      outcome := ClassifyOutcome(parse, history[|history| - 1], now);
    }
    var recent := Newest(history, COOLDOWN_RUNS);
    stability := EvaluateStability(parse, now, recent);
    stability.ApplyOutcomeSafetyGate(outcome, now.mode);
    stability.ApplyRecentOutcomeCooldownGate(recent, now.mode);
    stability.ApplyAvailabilityRecoveryGate(parse, now);
  }

  // ----- recording -----

  predicate Delivered(mode: string, delivery: Delivery) {
    mode == "" || mode == "dry-run" || delivery.pushed
  }

  /** The field is counted as offered: delivered, not blocked, really changed and through its gate. */
  predicate Offers(gates: Gates, now: Reconcile, delivery: Delivery, field: Field) {
    && Delivered(now.mode, delivery) && !delivery.blocked
    && Get(now.current, field) != Get(now.settled, field)
    && (field == CPU ==> now.current.cpu != "" && now.settled.cpu != "")
    && (field == Memory ==> now.current.memory != "" && now.settled.memory != "")
    && Passes(gates.Of(field))
  }

  const FIELDS := {Replicas, CPU, Memory}

  function RowOf(gates: Gates, outcome: Outcome, now: Reconcile, delivery: Delivery): Run {
    Run(now.current, now.settled, now.mode, gates.Actionable() && Delivered(now.mode, delivery), outcome,
        set f | f in FIELDS && Offers(gates, now, delivery, f))
  }

  ghost function Recorded(parse: Parser, history: seq<Run>, now: Reconcile, delivery: Delivery): Run {
    RowOf(Decided(parse, history, now), Detected(parse, history, now), now, delivery)
  }

  /** A whole run of reconciles of one workload, starting from an empty table. */
  ghost function History(parse: Parser, steps: seq<(Reconcile, Delivery)>): (history: seq<Run>)
    ensures |history| == |steps|
  {
    if steps == [] then []
    else
      var front := History(parse, steps[..|steps| - 1]);
      front + [Recorded(parse, front, steps[|steps| - 1].0, steps[|steps| - 1].1)]
  }

  /** What every row of such a run satisfies. */
  ghost predicate IsHistory(parse: Parser, steps: seq<(Reconcile, Delivery)>, history: seq<Run>) {
    |history| == |steps| && forall t :: 0 <= t < |steps| ==> IsRow(parse, steps, history, t)
  }

  ghost predicate IsRow(parse: Parser, steps: seq<(Reconcile, Delivery)>, history: seq<Run>, t: nat)
    requires t < |steps| == |history|
  {
    history[t] == Recorded(parse, history[..t], steps[t].0, steps[t].1)
  }

  lemma {:induction false} HistoryIsHistory(parse: Parser, steps: seq<(Reconcile, Delivery)>)
    ensures IsHistory(parse, steps, History(parse, steps))
  {
    if steps != [] {
      var front, history := steps[..|steps| - 1], History(parse, steps);
      HistoryIsHistory(parse, front);
      forall t | 0 <= t < |steps| ensures IsRow(parse, steps, history, t) {
        assert history[..t] == History(parse, front)[..t];
        assert t < |front| ==> IsRow(parse, front, History(parse, front), t);
      }
    }
  }

  // ----- the stability gates over history -----

  /** The two newest recorded runs moved the field this way. */
  predicate TwoBefore(parse: Parser, field: Field, history: seq<Run>, direction: int) {
    && |history| >= 2
    && Moved(parse, field, history[|history| - 1], direction)
    && Moved(parse, field, history[|history| - 2], direction)
  }

  lemma StreakOfNewest(parse: Parser, field: Field, history: seq<Run>, direction: int, limit: nat)
    requires limit >= 2
    ensures Streak(parse, field, Newest(history, limit), direction) >= 2
      <==> TwoBefore(parse, field, history, direction)
  {
    var recent := Newest(history, limit);
    StreakReaches(parse, field, recent, direction, 2);
    if |history| >= 2 {
      assert recent[0] == history[|history| - 1] && recent[1] == history[|history| - 2];
    }
  }

  function Statuses(gates: Gates): (Status, Status, Status) {
    (gates.replicas.status, gates.cpu.status, gates.memory.status)
  }

  /** The streaks reach two in the one list of runs exactly if they do in the other. */
  ghost predicate SameStreaks(parse: Parser, some: seq<Run>, more: seq<Run>) {
    forall f: Field, d: int :: Streak(parse, f, some, d) >= 2 <==> Streak(parse, f, more, d) >= 2
  }

  lemma SameStreaksDecideAlike(parse: Parser, now: Reconcile, some: seq<Run>, more: seq<Run>)
    requires SameStreaks(parse, some, more)
    ensures Statuses(Evaluated(parse, now, some)) == Statuses(Evaluated(parse, now, more))
  {
    forall f: Field ensures Streak(parse, f, some, -1) >= 2 <==> Streak(parse, f, more, -1) >= 2 {
    }
  }

  /** Three rows of history decide like all of it. */
  lemma ThreeRowsSuffice(parse: Parser, now: Reconcile, history: seq<Run>)
    ensures Statuses(Evaluated(parse, now, Newest(history, COOLDOWN_RUNS)))
         == Statuses(Evaluated(parse, now, Newest(history, |history|)))
  {
    var some, more := Newest(history, COOLDOWN_RUNS), Newest(history, |history|);
    if |history| < COOLDOWN_RUNS {
      assert some == more;
    }
    forall f: Field, d: int ensures Streak(parse, f, some, d) >= 2 <==> Streak(parse, f, more, d) >= 2 {
      StreakOfNewest(parse, f, history, d, COOLDOWN_RUNS);
      if |history| >= COOLDOWN_RUNS {
        StreakOfNewest(parse, f, history, d, |history|);
      }
    }
    SameStreaksDecideAlike(parse, now, some, more);
  }

  /** A decrease is stable only as the third in a row. */
  lemma DecreaseIsThirdInARow(parse: Parser, now: Reconcile, history: seq<Run>, field: Field)
    requires Move(parse, field, now.current, now.settled) == Some(-1)
    ensures Passes(Evaluated(parse, now, Newest(history, COOLDOWN_RUNS)).Of(field))
       <==> && TwoBefore(parse, field, history, -1)
            && (field == Replicas ==> !now.flooredOrBlocked && !now.unhealthy)
            && (field == Memory ==> !now.memoryAnomaly)
  {
    StreakOfNewest(parse, field, history, -1, COOLDOWN_RUNS);
  }

  /**
   * When the replica gate is open: nothing to do, an urgent increase, a third increase in a row, or a third decrease in
   * a row of a healthy workload that nothing holds up.
   */
  lemma ReplicaGateMeans(parse: Parser, now: Reconcile, history: seq<Run>)
    ensures var gate := Evaluated(parse, now, Newest(history, COOLDOWN_RUNS)).replicas;
      (gate.status == Stable || gate.status == Hold)
      <==> || now.settled.replicas == now.current.replicas
           || (now.settled.replicas > now.current.replicas
               && (now.urgentTraffic || TwoBefore(parse, Replicas, history, 1)))
           || (now.settled.replicas < now.current.replicas
               && !now.flooredOrBlocked && !now.unhealthy && TwoBefore(parse, Replicas, history, -1))
  {
    StreakOfNewest(parse, Replicas, history, 1, COOLDOWN_RUNS);
    StreakOfNewest(parse, Replicas, history, -1, COOLDOWN_RUNS);
  }

  /** When the gate of a request is open: nothing to do, an increase, or the third reconcile in a row with this one. */
  lemma RequestGateMeans(parse: Parser, now: Reconcile, history: seq<Run>, memory: bool)
    ensures var gates := Evaluated(parse, now, Newest(history, COOLDOWN_RUNS));
      var gate, field := if memory then gates.memory else gates.cpu, if memory then Memory else CPU;
      var current, wanted := if memory then now.current.memory else now.current.cpu,
                             if memory then now.settled.memory else now.settled.cpu;
      (gate.status == Stable || gate.status == Hold)
      <==> || !Amounts(parse, current, wanted)
           || ((memory ==> !now.memoryAnomaly)
               && (|| parse(wanted).value > parse(current).value
                   || (parse(wanted).value == parse(current).value && TwoBefore(parse, field, history, 0))
                   || (parse(wanted).value < parse(current).value && TwoBefore(parse, field, history, -1))))
  {
    var field := if memory then Memory else CPU;
    StreakOfNewest(parse, field, history, 0, COOLDOWN_RUNS);
    StreakOfNewest(parse, field, history, -1, COOLDOWN_RUNS);
  }

  /** A pending gate says how many of three reconciles in a row have asked for this move, with the present one. */
  lemma PendingMeans(parse: Parser, now: Reconcile, recent: seq<Run>, field: Field)
    ensures var gate, move := Evaluated(parse, now, recent).Of(field), Move(parse, field, now.current, now.settled);
      gate.status == Pending ==>
        && move.Some? && gate.required == 3
        && (|| (gate.observed == 1 && (recent == [] || !Moved(parse, field, recent[0], move.value)))
            || (gate.observed == 2 && recent != [] && Moved(parse, field, recent[0], move.value)))
  {
    var move := Move(parse, field, now.current, now.settled);
    if move.Some? {
      StreakReaches(parse, field, recent, move.value, 1);
      StreakReaches(parse, field, recent, move.value, 2);
    }
  }

  /** The way a recorded run moved a field. */
  lemma MovedMeans(parse: Parser, run: Run)
    ensures Moved(parse, Replicas, run, 1) <==> run.recommended.replicas > run.current.replicas
    ensures Moved(parse, Replicas, run, -1) <==> run.recommended.replicas < run.current.replicas
    ensures Moved(parse, CPU, run, -1) <==>
      Amounts(parse, run.current.cpu, run.recommended.cpu)
      && parse(run.recommended.cpu).value < parse(run.current.cpu).value
    ensures Moved(parse, CPU, run, 0) <==>
      Amounts(parse, run.current.cpu, run.recommended.cpu)
      && parse(run.recommended.cpu).value == parse(run.current.cpu).value
    ensures Moved(parse, Memory, run, -1) <==>
      Amounts(parse, run.current.memory, run.recommended.memory)
      && parse(run.recommended.memory).value < parse(run.current.memory).value
    ensures Moved(parse, Memory, run, 0) <==>
      Amounts(parse, run.current.memory, run.recommended.memory)
      && parse(run.recommended.memory).value == parse(run.current.memory).value
  {
  }

  /** Before outcomes are looked at, memory is blocked exactly for a change, up or down, with a memory anomaly. */
  lemma MemoryAnomalyBlocks(parse: Parser, now: Reconcile, recent: seq<Run>)
    ensures Evaluated(parse, now, recent).memory.status == Blocked
       <==> Move(parse, Memory, now.current, now.settled).Some? && now.memoryAnomaly
  {
  }

  /**
   * A dry run with a blank mode that was not applied is recorded as such, and this outcome locks only reconciles with
   * the mode written out.
   */
  lemma BlankDryRunBlocksNothing(parse: Parser, previous: Run, now: Reconcile)
    requires Blank(previous.mode) && Expected(previous) != {} && Applied(previous, now) == {}
    ensures OutcomeOf(parse, previous, now) == DryRunNotApplied
    ensures Blocks(OutcomeOf(parse, previous, now), now.mode) <==> now.mode == "dry-run"
    ensures Blank(now.mode) ==> !Blocks(OutcomeOf(parse, previous, now), now.mode)
  {
    if now.mode == "dry-run" {
      assert now.mode[0] == 'd' && now.mode[0] in now.mode;
    }
  }

  /** Whatever the outcomes are, nothing lets a decrease through earlier. */
  lemma DecreaseNeedsTwoBefore(parse: Parser, now: Reconcile, history: seq<Run>, field: Field)
    requires Move(parse, field, now.current, now.settled) == Some(-1)
    requires Passes(Decided(parse, history, now).Of(field))
    ensures TwoBefore(parse, field, history, -1)
  {
    DecreaseIsThirdInARow(parse, now, history, field);
  }

  // ----- what is recorded -----

  /** The row of a reconcile: its sizes and mode, and the fields that were delivered through open gates. */
  lemma RowMeans(parse: Parser, steps: seq<(Reconcile, Delivery)>, history: seq<Run>, t: nat)
    requires t < |steps| && IsHistory(parse, steps, history)
    ensures var row, now, delivery := history[t], steps[t].0, steps[t].1;
      var gates := Decided(parse, history[..t], now);
      && row.current == now.current && row.recommended == now.settled && row.mode == now.mode
      && (row.actionable <==>
            && (now.mode in {"", "dry-run"} || delivery.pushed)
            && gates.replicas.status in {Stable, Hold} && gates.cpu.status in {Stable, Hold}
            && gates.memory.status in {Stable, Hold})
      && (Replicas in row.offered <==>
            && (now.mode in {"", "dry-run"} || delivery.pushed) && !delivery.blocked
            && now.settled.replicas != now.current.replicas && gates.replicas.status in {Stable, Hold})
      && (CPU in row.offered <==>
            && (now.mode in {"", "dry-run"} || delivery.pushed) && !delivery.blocked
            && now.current.cpu != "" && now.settled.cpu != "" && now.settled.cpu != now.current.cpu
            && gates.cpu.status in {Stable, Hold})
      && (Memory in row.offered <==>
            && (now.mode in {"", "dry-run"} || delivery.pushed) && !delivery.blocked
            && now.current.memory != "" && now.settled.memory != "" && now.settled.memory != now.current.memory
            && gates.memory.status in {Stable, Hold})
  {
    assert IsRow(parse, steps, history, t);
  }

  /** In every run, when a reconcile is concerned about the one before it. */
  lemma ConcernInRuns(parse: Parser, steps: seq<(Reconcile, Delivery)>, history: seq<Run>, t: nat)
    requires t < |steps| && IsHistory(parse, steps, history)
    ensures t == 0 ==> history[t].outcome == NoOutcome
    ensures t > 0 ==> (Concerning(history[t].outcome) <==> Troubled(parse, history[t - 1], steps[t].0))
  {
    assert IsRow(parse, steps, history, t);
    if t > 0 {
      assert history[..t][t - 1] == history[t - 1];
      ConcerningExactly(parse, history[t - 1], steps[t].0);
    }
  }

  // ----- the lockout -----

  /** A row of the window ending at `t` has an outcome that blocks in the mode of `t`. */
  ghost predicate LockedAt(steps: seq<(Reconcile, Delivery)>, history: seq<Run>, t: nat)
    requires t < |steps| == |history|
  {
    exists k :: 0 <= k <= t && t - COOLDOWN_RUNS <= k && Blocks(history[k].outcome, steps[t].0.mode)
  }

  lemma NewestIsWindow(steps: seq<(Reconcile, Delivery)>, history: seq<Run>, t: nat)
    requires t < |steps| == |history|
    ensures Blocks(history[t].outcome, steps[t].0.mode)
         || SomeBlocks(Newest(history[..t], COOLDOWN_RUNS), steps[t].0.mode)
       <==> LockedAt(steps, history, t)
  {
    var mode, recent := steps[t].0.mode, Newest(history[..t], COOLDOWN_RUNS);
    assert forall i :: 0 <= i < |recent| ==> recent[i] == history[t - 1 - i];
    if LockedAt(steps, history, t) {
      var k :| 0 <= k <= t && t - COOLDOWN_RUNS <= k && Blocks(history[k].outcome, mode);
      assert k < t ==> recent[t - 1 - k] == history[k];
    }
    if SomeBlocks(recent, mode) {
      var i :| 0 <= i < |recent| && Blocks(recent[i].outcome, mode);
      assert Blocks(history[t - 1 - i].outcome, mode);
    }
  }

  /** In every run the gates are exactly: locked by one of the last four outcomes, or evaluated afresh. */
  lemma GatesAreExact(parse: Parser, steps: seq<(Reconcile, Delivery)>, history: seq<Run>, t: nat)
    requires t < |steps| && IsHistory(parse, steps, history)
    ensures Decided(parse, history[..t], steps[t].0) == Recovered(parse,
              if LockedAt(steps, history, t) then ALL_BLOCKED
              else Evaluated(parse, steps[t].0, Newest(history[..t], COOLDOWN_RUNS)),
              steps[t].0)
  {
    NewestIsWindow(steps, history, t);
    assert IsRow(parse, steps, history, t);
    assert history[t].outcome == Detected(parse, history[..t], steps[t].0);
    assert Locked(parse, history[..t], steps[t].0) <==> LockedAt(steps, history, t);
  }

  /** While locked, a field is through its gate exactly if an availability recovery increases it. */
  lemma LockedFields(parse: Parser, steps: seq<(Reconcile, Delivery)>, history: seq<Run>, t: nat, field: Field)
    requires t < |steps| && IsHistory(parse, steps, history) && LockedAt(steps, history, t)
    ensures Passes(Decided(parse, history[..t], steps[t].0).Of(field))
       <==> steps[t].0.recovery && Increases(parse, steps[t].0, field)
  {
    GatesAreExact(parse, steps, history, t);
  }

  /** An outcome is concerning only after a run that offered something. */
  lemma ConcerningFollowsAnOffer(parse: Parser, steps: seq<(Reconcile, Delivery)>, history: seq<Run>, t: nat)
    requires 0 < t < |steps| && IsHistory(parse, steps, history)
    ensures Concerning(history[t].outcome) ==> history[t - 1].offered != {}
  {
    assert IsRow(parse, steps, history, t) && history[..t][t - 1] == history[t - 1];
    if history[t - 1].offered == {} {
      assert Expected(history[t - 1]) == {};
    }
  }

  lemma LockedOffersNothing(parse: Parser, steps: seq<(Reconcile, Delivery)>, history: seq<Run>, t: nat)
    requires t < |steps| && IsHistory(parse, steps, history) && LockedAt(steps, history, t) && !steps[t].0.recovery
    ensures history[t].offered == {}
  {
    assert IsRow(parse, steps, history, t);
    forall f | f in history[t].offered ensures false {
      LockedFields(parse, steps, history, t, f);
    }
  }

  /** The outcome of row `t` blocks in the modes of `t` and the next three reconciles, none of which recovers. */
  ghost predicate Locks(steps: seq<(Reconcile, Delivery)>, history: seq<Run>, t: nat)
    requires t < |steps| == |history|
  {
    forall k :: t <= k <= t + COOLDOWN_RUNS && k < |steps| ==>
      Blocks(history[t].outcome, steps[k].0.mode) && !steps[k].0.recovery
  }

  /**
   * The lockout is exact: the reconcile that detects the outcome and the next three are blocked altogether, the
   * four after it detect nothing concerning, and the fourth is free of every outcome.
   */
  lemma LockoutIsExact(parse: Parser, steps: seq<(Reconcile, Delivery)>, history: seq<Run>, t: nat, k: nat)
    requires t + k < |steps| && IsHistory(parse, steps, history) && Locks(steps, history, t)
    ensures k <= COOLDOWN_RUNS ==> Decided(parse, history[..t + k], steps[t + k].0) == ALL_BLOCKED
    ensures 1 <= k <= COOLDOWN_RUNS + 1 ==> !Concerning(history[t + k].outcome)
    ensures k == COOLDOWN_RUNS + 1 ==> !LockedAt(steps, history, t + k)
  {
    if k <= COOLDOWN_RUNS {
      assert Blocks(history[t].outcome, steps[t + k].0.mode);
      GatesAreExact(parse, steps, history, t + k);
    }
    if 1 <= k <= COOLDOWN_RUNS + 1 {
      NothingConcerningAfter(parse, steps, history, t, k);
    }
    if k == COOLDOWN_RUNS + 1 {
      NothingConcerningAfter(parse, steps, history, t, 1);
      NothingConcerningAfter(parse, steps, history, t, 2);
      NothingConcerningAfter(parse, steps, history, t, 3);
      FreeOfOutcomes(steps, history, t + k);
    }
  }

  /** So the reconcile and the next three decide to block everything, and the one after them decides afresh. */
  lemma LockoutDecides(parse: Parser, steps: seq<(Reconcile, Delivery)>, history: seq<Run>, t: nat, k: nat)
    requires t + k < |steps| && IsHistory(parse, steps, history) && Locks(steps, history, t)
    requires k <= COOLDOWN_RUNS + 1
    ensures Decided(parse, history[..t + k], steps[t + k].0)
         == if k <= COOLDOWN_RUNS then ALL_BLOCKED
            else Recovered(parse, Evaluated(parse, steps[t + k].0, Newest(history[..t + k], COOLDOWN_RUNS)),
                           steps[t + k].0)
  {
    LockoutIsExact(parse, steps, history, t, k);
    GatesAreExact(parse, steps, history, t + k);
  }

  /** What the previous run offered is there, the workload is well, and nothing is to go on. */
  ghost predicate Clean(parse: Parser, previous: Run, now: Reconcile) {
    && (forall f :: Changed(previous, f) ==> AtGoal(previous, now, f))
    && !now.unhealthy
    && forall f :: !Continued(parse, previous, now, f)
  }

  /** A change that was carried out in full, did no harm and is not to go on locks no reconcile at all. */
  lemma CleanSuccessLocksNothing(
      parse: Parser, steps: seq<(Reconcile, Delivery)>, history: seq<Run>, t: nat, u: nat)
    requires 0 < t <= u < |steps| && IsHistory(parse, steps, history)
    requires Clean(parse, history[t - 1], steps[t].0)
    ensures !Blocks(history[t].outcome, steps[u].0.mode)
    ensures LockedAt(steps, history, u) <==>
      exists k :: 0 <= k <= u && u - 3 <= k && k != t && Blocks(history[k].outcome, steps[u].0.mode)
  {
    ConcernInRuns(parse, steps, history, t);
    assert !Blocks(history[t].outcome, steps[u].0.mode);
    if LockedAt(steps, history, u) {
      var k :| 0 <= k <= u && u - COOLDOWN_RUNS <= k && Blocks(history[k].outcome, steps[u].0.mode);
      assert k != t;
    }
  }

  /** What blocks in which mode. */
  lemma BlocksExactly(outcome: Outcome, mode: string)
    ensures Blocks(outcome, mode)
       <==> || outcome in {NotApplied, PartiallyApplied, TooAggressive, TooConservative}
            || (outcome == DryRunNotApplied && mode == "dry-run")
  {
  }

  lemma FreeOfOutcomes(steps: seq<(Reconcile, Delivery)>, history: seq<Run>, t: nat)
    requires COOLDOWN_RUNS <= t < |steps| == |history|
    requires !Concerning(history[t].outcome) && !Concerning(history[t - 1].outcome)
    requires !Concerning(history[t - 2].outcome) && !Concerning(history[t - 3].outcome)
    ensures !LockedAt(steps, history, t)
  {
  }

  lemma NothingConcerningAfter(parse: Parser, steps: seq<(Reconcile, Delivery)>, history: seq<Run>, t: nat, k: nat)
    requires t + k < |steps| && IsHistory(parse, steps, history) && Locks(steps, history, t)
    requires 1 <= k <= COOLDOWN_RUNS + 1
    ensures !Concerning(history[t + k].outcome)
  {
    assert Blocks(history[t].outcome, steps[t + k - 1].0.mode);
    LockedOffersNothing(parse, steps, history, t + k - 1);
    ConcerningFollowsAnOffer(parse, steps, history, t + k);
  }

  /** In one mode and without recoveries, blocking outcomes are at least five reconciles apart. */
  lemma BlockingOutcomesAreFiveApart(
      parse: Parser, steps: seq<(Reconcile, Delivery)>, history: seq<Run>, mode: string, t: nat, u: nat)
    requires IsHistory(parse, steps, history)
    requires forall k :: 0 <= k < |steps| ==> steps[k].0.mode == mode && !steps[k].0.recovery
    requires t < u < |steps| && Blocks(history[t].outcome, mode) && Blocks(history[u].outcome, mode)
    ensures u >= t + COOLDOWN_RUNS + 2
  {
    if u <= t + COOLDOWN_RUNS + 1 {
      NothingConcerningAfter(parse, steps, history, t, u - t);
    }
  }
}
