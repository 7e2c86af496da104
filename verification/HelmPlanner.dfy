/**
 * Planning the changes of a Helm values file (internal/analyzer/patch_plan.go): from a profile, the reports of its
 * workloads and the documents as they are to patch plans, and on to the proposal for a file
 * (internal/analyzer/proposal.go). Workloads with Kubernetes manifests get no plan here.
 */
module HelmPlanner {
  import opened Options
  import opened PatchFields
  import opened HelmTree
  import opened HelmMerge
  import opened HelmOwnership

  type Doc = nodes: Nodes | Tree(nodes) ghost witness [Node(Scalar, "!!str", "", 0, "", [], None)]

  /** The values files of the worktree that hold one document each. */
  type Files = map<string, Doc>

  /** How texts are read as replica counts and as quantities, and how a count is written. */
  datatype Texts = Texts(count: string -> Option<int>, quantity: string -> Option<real>, format: int -> string)

  /** Which of the three gates are stable. */
  datatype Stability = Stability(replicas: bool, cpu: bool, memory: bool)

  datatype Container = Container(name: string, cpu: string, memory: string)

  /** What a report says of a workload. `recovery` allows changes whatever the gates say. */
  datatype Facts = Facts(
    name: string, blocked: bool, stability: Option<Stability>, unsettled: bool, recovery: bool,
    containers: seq<Container>, currentReplicas: int, recommendedReplicas: int,
    currentCpu: string, recommendedCpu: string, currentMemory: string, recommendedMemory: string)

  datatype Problem =
    | NoSource | Unreadable | NoMapping | NoContainer
    | NotConfigured(field: string) | NotSelectable(field: string) | ValueMissing(field: string)
    | BaselineDiffers(field: string)

  datatype Plan = Plan(
    sourceFile: string, blocked: bool, needed: bool, errors: seq<Problem>, held: seq<string>, changes: seq<Change>)

  predicate Applyable(plan: Plan) {
    plan.needed && !plan.blocked && plan.errors == [] && plan.changes != []
  }

  // ----- what is planned for one field -----

  /** What is known of a field before the document is looked at; the text in the document must be acceptable. */
  datatype Wish = Wish(
    field: string, path: seq<string>, recommended: string, asked: bool, allowed: bool, differs: bool,
    accepts: string -> bool, same: string -> bool)

  datatype Answer = Idle | Held | Wrong(problem: Problem) | Planned(change: Change)

  ghost function Answered(nodes: Doc, w: Wish): Answer {
    var found := ScalarAt(nodes, w.path);
    if w.path == [] then Wrong(NotConfigured(w.field))
    else if found.Refused? then Wrong(NotSelectable(w.field))
    else if found.Missing? then Wrong(ValueMissing(w.field))
    else
      var current := nodes[found.node].value;
      if !w.accepts(current) then Wrong(BaselineDiffers(w.field))
      else if !w.asked then Idle
      else if !w.allowed then if w.differs then Held else Idle
      else if current == w.recommended || w.same(current) then Idle
      else Planned(Change(w.field, w.path, "replace", current, w.recommended))
  }

  predicate CountAccepted(texts: Texts, current: string, live: int) {
    texts.count(current).Some? && texts.count(current).value >= 0 && texts.count(current).value == live
  }

  predicate SameCount(texts: Texts, left: string, right: string) {
    texts.count(left).Some? && texts.count(right).Some? && texts.count(left) == texts.count(right)
  }

  predicate Blank(s: string) {
    forall i :: 0 <= i < |s| ==> s[i] in " \t\n\U{0B}\U{0C}\r"
  }

  predicate QuantityAccepted(texts: Texts, current: string, live: string) {
    && texts.quantity(current).Some? && !Blank(live)
    && texts.quantity(live).Some? && texts.quantity(current) == texts.quantity(live)
  }

  predicate SameQuantity(texts: Texts, left: string, right: string) {
    texts.quantity(left).Some? && texts.quantity(right).Some? && texts.quantity(left) == texts.quantity(right)
  }

  function RequestField(container: string, memory: bool): string {
    "spec.template.spec.containers[name=" + container + "]" + if memory then MEMORY_SUFFIX else CPU_SUFFIX
  }

  ghost function ReplicaWish(texts: Texts, helm: HelmPaths, facts: Facts): Wish
    requires facts.stability.Some?
  {
    var recommended := texts.format(facts.recommendedReplicas);
    Wish(REPLICAS, helm.replicas, recommended, true, facts.recovery || facts.stability.value.replicas,
         facts.recommendedReplicas != facts.currentReplicas,
         current => CountAccepted(texts, current, facts.currentReplicas),
         current => SameCount(texts, current, recommended))
  }

  function LiveRequest(container: Container, facts: Facts, memory: bool): string {
    if memory then if container.memory == "" then facts.currentMemory else container.memory
    else if container.cpu == "" then facts.currentCpu else container.cpu
  }

  function RecommendedRequest(facts: Facts, memory: bool): string {
    if memory then facts.recommendedMemory else facts.recommendedCpu
  }

  ghost function RequestWish(texts: Texts, helm: HelmPaths, facts: Facts, container: Container, memory: bool): Wish
    requires facts.stability.Some?
  {
    var recommended, live := RecommendedRequest(facts, memory), LiveRequest(container, facts, memory);
    Wish(RequestField(container.name, memory), if memory then helm.memoryRequest else helm.cpuRequest, recommended,
         recommended != "",
         facts.recovery || (if memory then facts.stability.value.memory else facts.stability.value.cpu),
         recommended != live,
         current => QuantityAccepted(texts, current, live),
         current => SameQuantity(texts, current, recommended))
  }

  // ----- what is planned for a workload -----

  /** The container with the selected name, or the only one if none is selected. */
  function Selected(selector: string, containers: seq<Container>): Option<Container> {
    if selector == "" then if |containers| == 1 then Some(containers[0]) else None
    else Named(selector, containers)
  }

  function Named(name: string, containers: seq<Container>): Option<Container> {
    if containers == [] then None
    else if containers[0].name == name then Some(containers[0])
    else Named(name, containers[1..])
  }

  method SelectedContainer(selector: string, containers: seq<Container>) returns (selected: Option<Container>)
    ensures selected == Selected(selector, containers)
  {
    if selector != "" {
      for i := 0 to |containers|
        invariant Named(selector, containers) == Named(selector, containers[i..])
      {
        if containers[i].name == selector {
          return Some(containers[i]);
        }
      }
      return None;
    }
    return if |containers| == 1 then Some(containers[0]) else None;
  }

  /** The fields are replicas, CPU and memory, in this order: is there something to plan for one of them? */
  ghost predicate Wished(spec: Spec, facts: Facts, slot: nat) {
    match slot
    case 0 => spec.scaling.replicas
    case 1 => spec.scaling.cpu && Selected(spec.container, facts.containers).Some?
    case 2 => spec.scaling.memory && Selected(spec.container, facts.containers).Some?
    case _ => false
  }

  ghost function WishAt(texts: Texts, spec: Spec, facts: Facts, slot: nat): Wish
    requires spec.helm.Some? && facts.stability.Some? && Wished(spec, facts, slot)
  {
    if slot == 0 then ReplicaWish(texts, spec.helm.value, facts)
    else RequestWish(texts, spec.helm.value, facts, Selected(spec.container, facts.containers).value, slot == 2)
  }

  datatype Progress = Progress(errors: seq<Problem>, held: seq<string>, changes: seq<Change>)

  function Add(so: Progress, field: string, answer: Answer): Progress {
    match answer
    case Idle => so
    case Held => so.(held := so.held + [field])
    case Wrong(problem) => so.(errors := so.errors + [problem])
    case Planned(change) => so.(changes := so.changes + [change])
  }

  /** The plan after the first `n` fields. */
  ghost function After(texts: Texts, nodes: Doc, spec: Spec, facts: Facts, n: nat): Progress
    requires spec.helm.Some? && facts.stability.Some? && n <= 3
  {
    if n == 0 then Progress([], [], [])
    else
      var so := After(texts, nodes, spec, facts, n - 1);
      if !Wished(spec, facts, n - 1) then so
      else
        var w := WishAt(texts, spec, facts, n - 1);
        Add(so, w.field, Answered(nodes, w))
  }

  predicate LacksContainer(spec: Spec, facts: Facts) {
    Selected(spec.container, facts.containers).None? && (spec.scaling.cpu || spec.scaling.memory)
  }

  ghost function Finished(file: string, so: Progress, lacking: bool): Plan {
    Plan(file, so.changes == [] && so.held != [], so.changes != [], so.errors + if lacking then [NoContainer] else [],
         so.held, so.changes)
  }

  ghost function PlanOf(texts: Texts, files: Files, spec: Spec, facts: Facts): Plan
    requires spec.helm.Some?
  {
    var file := spec.sourceFile;
    if file == "" then Plan("", facts.blocked, false, [NoSource], [], [])
    else if facts.blocked then Plan(file, true, false, [], [], [])
    else if file !in files then Plan(file, false, false, [Unreadable], [], [])
    else if files[file][ROOT].kind != Mapping then Plan(file, false, false, [NoMapping], [], [])
    else if facts.stability.None? || (facts.unsettled && !facts.recovery) then Plan(file, true, false, [], [], [])
    else Finished(file, After(texts, files[file], spec, facts, 3), LacksContainer(spec, facts))
  }

  // ----- the dry run beside the plan -----

  ghost predicate Selectable(nodes: Doc, changes: seq<Change>) {
    forall c :: c in changes ==> ScalarAt(nodes, c.path).Found?
  }

  /** The document with all changes made in turn. */
  ghost function SetAll(nodes: Doc, changes: seq<Change>): (after: Doc)
    requires Selectable(nodes, changes)
    ensures SameLookups(nodes, after)
  {
    if changes == [] then nodes
    else
      var now, c := SetAll(nodes, changes[..|changes| - 1]), changes[|changes| - 1];
      assert c in changes && ScalarAt(now, c.path) == ScalarAt(nodes, c.path);
      ChangedLookups(nodes, now, c);
      Set(now, c.path, c.recommended, AsString(c))
  }

  /** `now` has the changes made. */
  ghost predicate Follows(nodes: Doc, changes: seq<Change>, now: Nodes) {
    Selectable(nodes, changes) && now == SetAll(nodes, changes)
  }

  lemma FollowsSelects(nodes: Doc, changes: seq<Change>, now: Nodes, path: seq<string>)
    requires Follows(nodes, changes, now)
    ensures Tree(now) && ScalarAt(now, path) == ScalarAt(nodes, path)
  {
  }

  lemma FollowsOneMore(nodes: Doc, changes: seq<Change>, now: Nodes, c: Change)
    requires Follows(nodes, changes, now) && ScalarAt(nodes, c.path).Found?
    requires Tree(now) && ScalarAt(now, c.path) == ScalarAt(nodes, c.path)
    ensures var t := ScalarAt(now, c.path).node;
      Follows(nodes, changes + [c], now[t := Replaced(now[t], c.recommended, AsString(c))])
  {
    assert (changes + [c])[..|changes|] == changes;
  }

  // ----- planning -----

  class PatchPlan {
    var errors: seq<Problem>
    var held: seq<string>
    var changes: seq<Change>

    constructor ()
      ensures errors == [] && held == [] && changes == []
    {
      errors, held, changes := [], [], [];
    }

    ghost function View(): Progress
      reads this
    {
      Progress(errors, held, changes)
    }
  }

  /** The modified document is the original one with the planned changes made. */
  ghost predicate InStep(plan: PatchPlan, document: Document, modified: Document)
    reads plan, document, modified
  {
    document != modified && Tree(document.nodes) && Follows(document.nodes, plan.changes, modified.nodes)
  }

  /** What a plan can take in: a change of a value that is there. */
  ghost predicate Sound(nodes: Doc, answer: Answer) {
    answer.Planned? ==>
      && ScalarAt(nodes, answer.change.path).Found?
      && nodes[ScalarAt(nodes, answer.change.path).node].value == answer.change.current != answer.change.recommended
      && Valid(answer.change)
  }

  method HelmScalar(document: Document, field: string, path: seq<string>)
    returns (current: string, problem: Option<Problem>)
    requires Tree(document.nodes)
    ensures var found := ScalarAt(document.nodes, path);
      && (found.Found? ==> problem == None && current == document.nodes[found.node].value)
      && (path != [] && found.Refused? ==> problem == Some(NotSelectable(field)))
      && (path != [] && found.Missing? ==> problem == Some(ValueMissing(field)))
      && (path == [] ==> problem == Some(NotConfigured(field)))
  {
    if path == [] {
      return "", Some(NotConfigured(field));
    }
    var found := document.ScalarNodeAt(path);
    match found
    case Refused => return "", Some(NotSelectable(field));
    case Missing => return "", Some(ValueMissing(field));
    case Found(node) => return document.nodes[node].value, None;
  }

  method AnswerReplicas(texts: Texts, document: Document, helm: HelmPaths, facts: Facts) returns (answer: Answer)
    requires facts.stability.Some? && Tree(document.nodes)
    ensures answer == Answered(document.nodes, ReplicaWish(texts, helm, facts))
    ensures Sound(document.nodes, answer)
  {
    var current, problem := HelmScalar(document, REPLICAS, helm.replicas);
    if problem.Some? {
      return Wrong(problem.value);
    }
    if !CountAccepted(texts, current, facts.currentReplicas) {
      return Wrong(BaselineDiffers(REPLICAS));
    }
    if !(facts.recovery || facts.stability.value.replicas) {
      return if facts.recommendedReplicas != facts.currentReplicas then Held else Idle;
    }
    var recommended := texts.format(facts.recommendedReplicas);
    if current == recommended || SameCount(texts, current, recommended) {
      return Idle;
    }
    return Planned(Change(REPLICAS, helm.replicas, "replace", current, recommended));
  }

  lemma RequestIsString(container: string, memory: bool)
    ensures StringField(RequestField(container, memory)) == Some(true)
  {
    var start := "spec.template.spec.containers[name=" + container + "]";
    var suffix := if memory then MEMORY_SUFFIX else CPU_SUFFIX;
    assert RequestField(container, memory) == start + suffix;
    assert HasSuffix(start + suffix, suffix);
    SizedIsNotReplicas(RequestField(container, memory));
  }

  method AnswerRequest(
      texts: Texts, document: Document, helm: HelmPaths, facts: Facts, container: Container, memory: bool)
    returns (answer: Answer)
    requires facts.stability.Some? && Tree(document.nodes)
    ensures answer == Answered(document.nodes, RequestWish(texts, helm, facts, container, memory))
    ensures Sound(document.nodes, answer)
  {
    var field, recommended := RequestField(container.name, memory), RecommendedRequest(facts, memory);
    var live := LiveRequest(container, facts, memory);
    var path := if memory then helm.memoryRequest else helm.cpuRequest;
    var current, problem := HelmScalar(document, field, path);
    if problem.Some? {
      return Wrong(problem.value);
    }
    if !QuantityAccepted(texts, current, live) {
      return Wrong(BaselineDiffers(field));
    }
    if recommended == "" {
      return Idle;
    }
    if !(facts.recovery || if memory then facts.stability.value.memory else facts.stability.value.cpu) {
      return if recommended != live then Held else Idle;
    }
    if current == recommended || SameQuantity(texts, current, recommended) {
      return Idle;
    }
    RequestIsString(container.name, memory);
    return Planned(Change(field, path, "replace", current, recommended));
  }

  /** Enters an answer into the plan. A planned change is made in the modified document, without fail. */
  method Enter(plan: PatchPlan, document: Document, modified: Document, field: string, answer: Answer)
    requires InStep(plan, document, modified) && Sound(document.nodes, answer)
    modifies plan, modified
    ensures InStep(plan, document, modified)
    ensures plan.View() == Add(old(plan.View()), field, answer)
  {
    match answer
    case Idle =>
    case Held => plan.held := plan.held + [field];
    case Wrong(problem) => plan.errors := plan.errors + [problem];
    case Planned(c) =>
      FollowsSelects(document.nodes, plan.changes, modified.nodes, c.path);
      FollowsOneMore(document.nodes, plan.changes, modified.nodes, c);
      plan.changes := plan.changes + [c];
      var ok := modified.SetScalarAt(c.path, c.recommended, AsString(c));
      assert ok;
  }

  method BuildPatchPlan(texts: Texts, files: Files, spec: Spec, facts: Facts)
    returns (plan: Plan, dryRun: Option<Nodes>)
    requires spec.helm.Some?
    ensures plan == PlanOf(texts, files, spec, facts)
    ensures dryRun.Some? <==> plan.needed
    ensures plan.needed ==>
      plan.sourceFile in files && Follows(files[plan.sourceFile], plan.changes, dryRun.value)
  {
    var file := spec.sourceFile;
    if file == "" {
      return Plan("", facts.blocked, false, [NoSource], [], []), None;
    }
    if facts.blocked {
      return Plan(file, true, false, [], [], []), None;
    }
    if file !in files {
      return Plan(file, false, false, [Unreadable], [], []), None;
    }
    if files[file][ROOT].kind != Mapping {
      return Plan(file, false, false, [NoMapping], [], []), None;
    }
    if facts.stability.None? || (facts.unsettled && !facts.recovery) {
      return Plan(file, true, false, [], [], []), None;
    }
    plan, dryRun := PlanDocument(texts, file, files[file], spec, facts);
  }

  method PlanDocument(texts: Texts, file: string, nodes: Doc, spec: Spec, facts: Facts)
    returns (plan: Plan, dryRun: Option<Nodes>)
    requires spec.helm.Some? && facts.stability.Some?
    ensures plan == Finished(file, After(texts, nodes, spec, facts, 3), LacksContainer(spec, facts))
    ensures dryRun.Some? <==> plan.needed
    ensures plan.needed ==> Follows(nodes, plan.changes, dryRun.value)
  {
    var document := new Document(nodes);
    var modified := new Document(nodes);
    var so := new PatchPlan();
    PlanFields(texts, so, document, modified, spec, facts);
    var needed := so.changes != [];
    plan := Plan(file, !needed && so.held != [], needed, so.errors, so.held, so.changes);
    dryRun := if needed then Some(modified.nodes) else None;
  }

  method PlanRequest(
      texts: Texts, so: PatchPlan, document: Document, modified: Document, helm: HelmPaths, facts: Facts,
      container: Container, memory: bool)
    requires facts.stability.Some? && InStep(so, document, modified)
    modifies so, modified
    ensures InStep(so, document, modified)
    ensures var w := RequestWish(texts, helm, facts, container, memory);
      so.View() == Add(old(so.View()), w.field, Answered(document.nodes, w))
  {
    var answer := AnswerRequest(texts, document, helm, facts, container, memory);
    Enter(so, document, modified, RequestField(container.name, memory), answer);
  }

  method PlanFields(
      texts: Texts, so: PatchPlan, document: Document, modified: Document, spec: Spec, facts: Facts)
    requires spec.helm.Some? && facts.stability.Some? && InStep(so, document, modified)
    requires so.View() == Progress([], [], [])
    modifies so, modified
    ensures InStep(so, document, modified)
    ensures var all := After(texts, old(document.nodes), spec, facts, 3);
      so.View() == all.(errors := all.errors + if LacksContainer(spec, facts) then [NoContainer] else [])
  {
    if spec.scaling.replicas {
      var answer := AnswerReplicas(texts, document, spec.helm.value, facts);
      Enter(so, document, modified, REPLICAS, answer);
    }
    assert so.View() == After(texts, document.nodes, spec, facts, 1);
    var container := SelectedContainer(spec.container, facts.containers);
    if container.Some? {
      if spec.scaling.cpu {
        PlanRequest(texts, so, document, modified, spec.helm.value, facts, container.value, false);
      }
      assert so.View() == After(texts, document.nodes, spec, facts, 2);
      if spec.scaling.memory {
        PlanRequest(texts, so, document, modified, spec.helm.value, facts, container.value, true);
      }
    } else if spec.scaling.cpu || spec.scaling.memory {
      so.errors := so.errors + [NoContainer];
    }
  }

  // ----- the reports of a profile -----

  datatype Report = Report(facts: Facts, plan: Option<Plan>)

  /** The last workload with this name. */
  function LastNamed(specs: seq<Spec>, name: string): (last: Option<nat>)
    ensures last.Some? ==> last.value < |specs| && specs[last.value].name == name
    ensures last.None? <==> forall i :: 0 <= i < |specs| ==> specs[i].name != name
  {
    if specs == [] then None
    else if specs[|specs| - 1].name == name then Some(|specs| - 1)
    else LastNamed(specs[..|specs| - 1], name)
  }

  /** The report with its plan; a workload that is not in the profile or has no Helm paths gets none here. */
  ghost function Attached(texts: Texts, files: Files, specs: seq<Spec>, report: Report): Report {
    var last := LastNamed(specs, report.facts.name);
    if last.None? || specs[last.value].helm.None? then report
    else report.(plan := Some(PlanOf(texts, files, specs[last.value], report.facts)))
  }

  /** The map from names to workloads: of workloads with one name the last one wins. */
  ghost predicate NamesLast(workloads: map<string, Spec>, specs: seq<Spec>) {
    forall name ::
      && (name in workloads <==> LastNamed(specs, name).Some?)
      && (name in workloads ==> workloads[name] == specs[LastNamed(specs, name).value])
  }

  method ByName(specs: seq<Spec>) returns (workloads: map<string, Spec>)
    ensures NamesLast(workloads, specs)
  {
    workloads := map[];
    for i := 0 to |specs|
      invariant NamesLast(workloads, specs[..i])
    {
      assert specs[..i + 1][..i] == specs[..i];
      workloads := workloads[specs[i].name := specs[i]];
    }
    assert specs[..|specs|] == specs;
  }

  /** The first `n` reports have their plans. */
  ghost predicate Planning(
      texts: Texts, files: Files, specs: seq<Spec>, before: seq<Report>, now: seq<Report>, n: nat)
  {
    && |before| == |now| && n <= |now| && now[n..] == before[n..]
    && forall k :: 0 <= k < n ==> now[k] == Attached(texts, files, specs, before[k])
  }

  lemma OneMorePlanned(
      texts: Texts, files: Files, specs: seq<Spec>, before: seq<Report>, now: seq<Report>, n: nat, report: Report)
    requires Planning(texts, files, specs, before, now, n) && n < |now|
    requires report == Attached(texts, files, specs, before[n])
    ensures Planning(texts, files, specs, before, now[n := report], n + 1)
  {
    var more := now[n := report];
    assert more[n + 1..] == now[n..][1..] && before[n + 1..] == before[n..][1..];
    forall k | 0 <= k < n ensures more[k] == Attached(texts, files, specs, before[k]) {
      assert more[k] == now[k];
    }
  }

  method AttachPatchPlans(texts: Texts, files: Files, specs: seq<Spec>, reports: array<Report>)
    modifies reports
    ensures Planning(texts, files, specs, old(reports[..]), reports[..], reports.Length)
  {
    var workloads := ByName(specs);
    for i := 0 to reports.Length
      invariant Planning(texts, files, specs, old(reports[..]), reports[..], i)
    {
      ghost var now := reports[..];
      assert now[i..][0] == old(reports[..])[i..][0];
      var report := AttachPatchPlan(texts, files, specs, workloads, reports[i]);
      OneMorePlanned(texts, files, specs, old(reports[..]), now, i, report);
      reports[i] := report;
      assert reports[..] == now[i := report];
    }
  }

  method AttachPatchPlan(
      texts: Texts, files: Files, ghost specs: seq<Spec>, workloads: map<string, Spec>, report: Report)
    returns (attached: Report)
    requires NamesLast(workloads, specs)
    ensures attached == Attached(texts, files, specs, report)
  {
    if report.facts.name !in workloads || workloads[report.facts.name].helm.None? {
      return report;
    }
    var plan, _ := BuildPatchPlan(texts, files, workloads[report.facts.name], report.facts);
    return report.(plan := Some(plan));
  }

  predicate Contributes(report: Report, file: string) {
    report.plan.Some? && Applyable(report.plan.value) && report.plan.value.sourceFile == file
  }

  /** The changes of every applyable plan for the file. */
  function PlansFor(reports: seq<Report>, file: string): seq<seq<Change>> {
    if reports == [] then []
    else
      var last := reports[|reports| - 1];
      PlansFor(reports[..|reports| - 1], file) + if Contributes(last, file) then [last.plan.value.changes] else []
  }

  // ----- what a plan contains, in terms of the profile, the report and the document -----

  /** The document can be planned for at all. */
  ghost predicate Open(files: Files, spec: Spec, facts: Facts) {
    && spec.sourceFile != "" && !facts.blocked && spec.sourceFile in files
    && files[spec.sourceFile][ROOT].kind == Mapping
    && facts.stability.Some? && (facts.unsettled ==> facts.recovery)
  }

  /** The document has this text at the path. */
  ghost predicate TextAt(nodes: Nodes, path: seq<string>, text: string)
    requires Tree(nodes)
  {
    var found := ScalarAt(nodes, path);
    path != [] && found.Found? && nodes[found.node].value == text
  }

  /** The text is the number of replicas that are there. */
  ghost predicate ShowsReplicas(texts: Texts, facts: Facts, text: string) {
    texts.count(text) == Some(facts.currentReplicas) && facts.currentReplicas >= 0
  }

  /** The text is the quantity that the container has. */
  ghost predicate ShowsQuantity(texts: Texts, live: string, text: string) {
    && texts.quantity(text).Some? && texts.quantity(live) == texts.quantity(text)
    && exists c :: c in live && c !in " \t\n\U{0B}\U{0C}\r"
  }

  /** The container that the profile selects, or the only one. */
  ghost predicate Chosen(spec: Spec, facts: Facts, container: Container) {
    if spec.container == "" then facts.containers == [container]
    else
      exists i :: 0 <= i < |facts.containers| && facts.containers[i] == container && container.name == spec.container
                  && forall j :: 0 <= j < i ==> facts.containers[j].name != spec.container
  }

  function CpuOf(container: Container, facts: Facts): string {
    if container.cpu == "" then facts.currentCpu else container.cpu
  }

  function MemoryOf(container: Container, facts: Facts): string {
    if container.memory == "" then facts.currentMemory else container.memory
  }

  /** The replicas are to be changed: from what is there to another count, as the gate or a recovery allows. */
  ghost predicate DueReplicas(texts: Texts, nodes: Doc, spec: Spec, facts: Facts, c: Change)
    requires spec.helm.Some? && facts.stability.Some?
  {
    && spec.scaling.replicas
    && c == Change("spec.replicas", spec.helm.value.replicas, "replace", c.current,
                   texts.format(facts.recommendedReplicas))
    && TextAt(nodes, spec.helm.value.replicas, c.current) && ShowsReplicas(texts, facts, c.current)
    && (facts.recovery || facts.stability.value.replicas)
    && c.current != c.recommended && texts.count(c.recommended) != texts.count(c.current)
  }

  ghost predicate DueCpu(texts: Texts, nodes: Doc, spec: Spec, facts: Facts, container: Container, c: Change)
    requires spec.helm.Some? && facts.stability.Some?
  {
    && spec.scaling.cpu && Chosen(spec, facts, container)
    && c == Change("spec.template.spec.containers[name=" + container.name + "].resources.requests.cpu",
                   spec.helm.value.cpuRequest, "replace", c.current, facts.recommendedCpu)
    && TextAt(nodes, spec.helm.value.cpuRequest, c.current)
    && ShowsQuantity(texts, CpuOf(container, facts), c.current)
    && (facts.recovery || facts.stability.value.cpu)
    && facts.recommendedCpu != "" && texts.quantity(facts.recommendedCpu) != texts.quantity(c.current)
  }

  ghost predicate DueMemory(texts: Texts, nodes: Doc, spec: Spec, facts: Facts, container: Container, c: Change)
    requires spec.helm.Some? && facts.stability.Some?
  {
    && spec.scaling.memory && Chosen(spec, facts, container)
    && c == Change("spec.template.spec.containers[name=" + container.name + "].resources.requests.memory",
                   spec.helm.value.memoryRequest, "replace", c.current, facts.recommendedMemory)
    && TextAt(nodes, spec.helm.value.memoryRequest, c.current)
    && ShowsQuantity(texts, MemoryOf(container, facts), c.current)
    && (facts.recovery || facts.stability.value.memory)
    && facts.recommendedMemory != "" && texts.quantity(facts.recommendedMemory) != texts.quantity(c.current)
  }

  ghost predicate Due(texts: Texts, nodes: Doc, spec: Spec, facts: Facts, c: Change)
    requires spec.helm.Some? && facts.stability.Some?
  {
    || DueReplicas(texts, nodes, spec, facts, c)
    || (exists container :: DueCpu(texts, nodes, spec, facts, container, c))
    || exists container :: DueMemory(texts, nodes, spec, facts, container, c)
  }

  lemma {:induction false} NamedIsFirst(name: string, containers: seq<Container>, container: Container)
    ensures Named(name, containers) == Some(container)
       <==> exists i :: 0 <= i < |containers| && containers[i] == container && container.name == name
                        && forall j :: 0 <= j < i ==> containers[j].name != name
  {
    if containers != [] && containers[0].name != name {
      NamedIsFirst(name, containers[1..], container);
      if i :| && 0 <= i < |containers| && containers[i] == container && container.name == name
              && forall j :: 0 <= j < i ==> containers[j].name != name
      {
        assert containers[1..][i - 1] == container;
        assert forall j :: 0 <= j < i - 1 ==> containers[1..][j] == containers[j + 1];
      }
      if i :| && 0 <= i < |containers| - 1 && containers[1..][i] == container && container.name == name
              && forall j :: 0 <= j < i ==> containers[1..][j].name != name
      {
        assert containers[i + 1] == container;
        forall j | 0 <= j < i + 1 ensures containers[j].name != name {
          assert j > 0 ==> containers[1..][j - 1] == containers[j];
        }
      }
    }
  }

  lemma SelectedIsChosen(spec: Spec, facts: Facts, container: Container)
    ensures Selected(spec.container, facts.containers) == Some(container) <==> Chosen(spec, facts, container)
  {
    NamedIsFirst(spec.container, facts.containers, container);
  }

  lemma ReplicasWhenDue(texts: Texts, nodes: Doc, spec: Spec, facts: Facts, c: Change)
    requires spec.helm.Some? && facts.stability.Some?
    ensures Wished(spec, facts, 0) && Answered(nodes, WishAt(texts, spec, facts, 0)) == Planned(c)
       <==> DueReplicas(texts, nodes, spec, facts, c)
  {
  }

  lemma NotBlank(s: string)
    ensures !Blank(s) <==> exists c :: c in s && c !in " \t\n\U{0B}\U{0C}\r"
  {
    assert forall i :: 0 <= i < |s| ==> s[i] in s;
  }

  lemma FieldNames(container: string)
    ensures RequestField(container, false)
         == "spec.template.spec.containers[name=" + container + "].resources.requests.cpu"
    ensures RequestField(container, true)
         == "spec.template.spec.containers[name=" + container + "].resources.requests.memory"
  {
    var start := "spec.template.spec.containers[name=" + container;
    assert "]" + CPU_SUFFIX == "].resources.requests.cpu" && "]" + MEMORY_SUFFIX == "].resources.requests.memory";
    assert start + "]" + CPU_SUFFIX == start + ("]" + CPU_SUFFIX);
    assert start + "]" + MEMORY_SUFFIX == start + ("]" + MEMORY_SUFFIX);
  }

  lemma CpuAnswer(texts: Texts, nodes: Doc, spec: Spec, facts: Facts, container: Container, c: Change)
    requires spec.helm.Some? && facts.stability.Some? && spec.scaling.cpu && Chosen(spec, facts, container)
    ensures Answered(nodes, RequestWish(texts, spec.helm.value, facts, container, false)) == Planned(c)
       <==> DueCpu(texts, nodes, spec, facts, container, c)
  {
    FieldNames(container.name);
    NotBlank(CpuOf(container, facts));
  }

  lemma MemoryAnswer(texts: Texts, nodes: Doc, spec: Spec, facts: Facts, container: Container, c: Change)
    requires spec.helm.Some? && facts.stability.Some? && spec.scaling.memory && Chosen(spec, facts, container)
    ensures Answered(nodes, RequestWish(texts, spec.helm.value, facts, container, true)) == Planned(c)
       <==> DueMemory(texts, nodes, spec, facts, container, c)
  {
    FieldNames(container.name);
    NotBlank(MemoryOf(container, facts));
  }

  lemma CpuWhenDue(texts: Texts, nodes: Doc, spec: Spec, facts: Facts, c: Change)
    requires spec.helm.Some? && facts.stability.Some?
    ensures Wished(spec, facts, 1) && Answered(nodes, WishAt(texts, spec, facts, 1)) == Planned(c)
       <==> exists container :: DueCpu(texts, nodes, spec, facts, container, c)
  {
    if Wished(spec, facts, 1) {
      SelectedIsChosen(spec, facts, Selected(spec.container, facts.containers).value);
      CpuAnswer(texts, nodes, spec, facts, Selected(spec.container, facts.containers).value, c);
    }
    if container :| DueCpu(texts, nodes, spec, facts, container, c) {
      SelectedIsChosen(spec, facts, container);
    }
  }

  lemma MemoryWhenDue(texts: Texts, nodes: Doc, spec: Spec, facts: Facts, c: Change)
    requires spec.helm.Some? && facts.stability.Some?
    ensures Wished(spec, facts, 2) && Answered(nodes, WishAt(texts, spec, facts, 2)) == Planned(c)
       <==> exists container :: DueMemory(texts, nodes, spec, facts, container, c)
  {
    if Wished(spec, facts, 2) {
      SelectedIsChosen(spec, facts, Selected(spec.container, facts.containers).value);
      MemoryAnswer(texts, nodes, spec, facts, Selected(spec.container, facts.containers).value, c);
    }
    if container :| DueMemory(texts, nodes, spec, facts, container, c) {
      SelectedIsChosen(spec, facts, container);
    }
  }

  lemma PlannedWhenDue(texts: Texts, nodes: Doc, spec: Spec, facts: Facts, c: Change)
    requires spec.helm.Some? && facts.stability.Some?
    ensures c in After(texts, nodes, spec, facts, 3).changes <==> Due(texts, nodes, spec, facts, c)
  {
    ReplicasWhenDue(texts, nodes, spec, facts, c);
    CpuWhenDue(texts, nodes, spec, facts, c);
    MemoryWhenDue(texts, nodes, spec, facts, c);
    if c in After(texts, nodes, spec, facts, 3).changes {
      var slot := ChangeHasSlot(texts, nodes, spec, facts, 3, c);
    }
    if Due(texts, nodes, spec, facts, c) {
      var slot: nat :| slot < 3 && Wished(spec, facts, slot)
                       && Answered(nodes, WishAt(texts, spec, facts, slot)) == Planned(c);
      SlotIsPlanned(texts, nodes, spec, facts, 3, slot);
    }
  }

  /**
   * A plan contains exactly the changes that are due: of the replicas, the CPU and the memory request, each to what the
   * report recommends for it.
   */
  lemma PlanIsWhatIsDue(texts: Texts, files: Files, spec: Spec, facts: Facts, c: Change)
    requires spec.helm.Some?
    ensures c in PlanOf(texts, files, spec, facts).changes
       <==> Open(files, spec, facts) && Due(texts, files[spec.sourceFile], spec, facts, c)
  {
    if Open(files, spec, facts) {
      PlannedWhenDue(texts, files[spec.sourceFile], spec, facts, c);
    }
  }

  /** What the document has for the replicas is what the workload has. */
  ghost predicate ReplicasAgree(texts: Texts, nodes: Doc, spec: Spec, facts: Facts)
    requires spec.helm.Some?
  {
    exists text :: TextAt(nodes, spec.helm.value.replicas, text) && ShowsReplicas(texts, facts, text)
  }

  ghost predicate CpuAgrees(texts: Texts, nodes: Doc, spec: Spec, facts: Facts, container: Container)
    requires spec.helm.Some?
  {
    exists text :: TextAt(nodes, spec.helm.value.cpuRequest, text)
                   && ShowsQuantity(texts, CpuOf(container, facts), text)
  }

  ghost predicate MemoryAgrees(texts: Texts, nodes: Doc, spec: Spec, facts: Facts, container: Container)
    requires spec.helm.Some?
  {
    exists text :: TextAt(nodes, spec.helm.value.memoryRequest, text)
                   && ShowsQuantity(texts, MemoryOf(container, facts), text)
  }

  /** Everything that is scaled is in the document as it is in the cluster. */
  ghost predicate Faultless(texts: Texts, nodes: Doc, spec: Spec, facts: Facts)
    requires spec.helm.Some?
  {
    && (spec.scaling.replicas ==> ReplicasAgree(texts, nodes, spec, facts))
    && (spec.scaling.cpu ==>
          exists container :: Chosen(spec, facts, container) && CpuAgrees(texts, nodes, spec, facts, container))
    && (spec.scaling.memory ==>
          exists container :: Chosen(spec, facts, container) && MemoryAgrees(texts, nodes, spec, facts, container))
  }

  lemma WrongWithoutBaseline(nodes: Doc, w: Wish)
    ensures !Answered(nodes, w).Wrong? <==> exists text :: TextAt(nodes, w.path, text) && w.accepts(text)
  {
    var found := ScalarAt(nodes, w.path);
    if w.path != [] && found.Found? {
      assert TextAt(nodes, w.path, nodes[found.node].value);
    }
  }

  lemma ReplicasWhenWrong(texts: Texts, nodes: Doc, spec: Spec, facts: Facts)
    requires spec.helm.Some? && facts.stability.Some?
    ensures Answered(nodes, ReplicaWish(texts, spec.helm.value, facts)).Wrong?
       <==> !ReplicasAgree(texts, nodes, spec, facts)
  {
    var w := ReplicaWish(texts, spec.helm.value, facts);
    WrongWithoutBaseline(nodes, w);
    assert forall text :: w.accepts(text) <==> ShowsReplicas(texts, facts, text);
  }

  lemma RequestWhenWrong(texts: Texts, nodes: Doc, spec: Spec, facts: Facts, container: Container, memory: bool)
    requires spec.helm.Some? && facts.stability.Some?
    ensures Answered(nodes, RequestWish(texts, spec.helm.value, facts, container, memory)).Wrong?
       <==> if memory then !MemoryAgrees(texts, nodes, spec, facts, container)
            else !CpuAgrees(texts, nodes, spec, facts, container)
  {
    var w := RequestWish(texts, spec.helm.value, facts, container, memory);
    var live := if memory then MemoryOf(container, facts) else CpuOf(container, facts);
    WrongWithoutBaseline(nodes, w);
    NotBlank(live);
    assert forall text :: w.accepts(text) <==> ShowsQuantity(texts, live, text);
  }

  /** There is nothing wrong with the field. */
  ghost predicate Right(texts: Texts, nodes: Doc, spec: Spec, facts: Facts, slot: nat)
    requires spec.helm.Some? && facts.stability.Some?
  {
    Wished(spec, facts, slot) ==> !Answered(nodes, WishAt(texts, spec, facts, slot)).Wrong?
  }

  lemma NoErrors(texts: Texts, nodes: Doc, spec: Spec, facts: Facts)
    requires spec.helm.Some? && facts.stability.Some?
    ensures After(texts, nodes, spec, facts, 3).errors == []
       <==> && Right(texts, nodes, spec, facts, 0) && Right(texts, nodes, spec, facts, 1)
            && Right(texts, nodes, spec, facts, 2)
  {
    OneMoreError(texts, nodes, spec, facts, 0);
    OneMoreError(texts, nodes, spec, facts, 1);
    OneMoreError(texts, nodes, spec, facts, 2);
  }

  lemma OneMoreError(texts: Texts, nodes: Doc, spec: Spec, facts: Facts, n: nat)
    requires spec.helm.Some? && facts.stability.Some? && n < 3
    ensures After(texts, nodes, spec, facts, n + 1).errors == []
       <==> After(texts, nodes, spec, facts, n).errors == [] && Right(texts, nodes, spec, facts, n)
  {
    if Wished(spec, facts, n) {
      var w := WishAt(texts, spec, facts, n);
      AddsOne(After(texts, nodes, spec, facts, n), w.field, Answered(nodes, w));
    }
  }

  lemma CpuIsRight(texts: Texts, nodes: Doc, spec: Spec, facts: Facts)
    requires spec.helm.Some? && facts.stability.Some? && spec.scaling.cpu
    ensures (exists container :: Chosen(spec, facts, container) && CpuAgrees(texts, nodes, spec, facts, container))
       <==> Selected(spec.container, facts.containers).Some? && Right(texts, nodes, spec, facts, 1)
  {
    var selected := Selected(spec.container, facts.containers);
    if selected.Some? {
      SelectedIsChosen(spec, facts, selected.value);
      RequestWhenWrong(texts, nodes, spec, facts, selected.value, false);
    }
    if container :| Chosen(spec, facts, container) && CpuAgrees(texts, nodes, spec, facts, container) {
      SelectedIsChosen(spec, facts, container);
    }
  }

  lemma MemoryIsRight(texts: Texts, nodes: Doc, spec: Spec, facts: Facts)
    requires spec.helm.Some? && facts.stability.Some? && spec.scaling.memory
    ensures (exists container :: Chosen(spec, facts, container) && MemoryAgrees(texts, nodes, spec, facts, container))
       <==> Selected(spec.container, facts.containers).Some? && Right(texts, nodes, spec, facts, 2)
  {
    var selected := Selected(spec.container, facts.containers);
    if selected.Some? {
      SelectedIsChosen(spec, facts, selected.value);
      RequestWhenWrong(texts, nodes, spec, facts, selected.value, true);
    }
    if container :| Chosen(spec, facts, container) && MemoryAgrees(texts, nodes, spec, facts, container) {
      SelectedIsChosen(spec, facts, container);
    }
  }

  lemma FaultlessWithoutErrors(texts: Texts, nodes: Doc, spec: Spec, facts: Facts)
    requires spec.helm.Some? && facts.stability.Some?
    ensures Faultless(texts, nodes, spec, facts)
       <==> After(texts, nodes, spec, facts, 3).errors == [] && !LacksContainer(spec, facts)
  {
    NoErrors(texts, nodes, spec, facts);
    ReplicasWhenWrong(texts, nodes, spec, facts);
    assert Right(texts, nodes, spec, facts, 0) <==>
      (spec.scaling.replicas ==> ReplicasAgree(texts, nodes, spec, facts));
    if spec.scaling.cpu {
      CpuIsRight(texts, nodes, spec, facts);
    }
    if spec.scaling.memory {
      MemoryIsRight(texts, nodes, spec, facts);
    }
  }

  /** When a plan goes into a proposal: the document is as the cluster is, and something is due. */
  lemma AppliesExactly(texts: Texts, files: Files, spec: Spec, facts: Facts)
    requires spec.helm.Some?
    ensures Applyable(PlanOf(texts, files, spec, facts))
       <==> && Open(files, spec, facts) && Faultless(texts, files[spec.sourceFile], spec, facts)
            && exists c :: Due(texts, files[spec.sourceFile], spec, facts, c)
  {
    if Open(files, spec, facts) {
      var nodes := files[spec.sourceFile];
      var so := After(texts, nodes, spec, facts, 3);
      FaultlessWithoutErrors(texts, nodes, spec, facts);
      assert PlanOf(texts, files, spec, facts) == Finished(spec.sourceFile, so, LacksContainer(spec, facts));
      forall c ensures c in so.changes <==> Due(texts, nodes, spec, facts, c) {
        PlannedWhenDue(texts, nodes, spec, facts, c);
      }
      assert so.changes != [] <==> exists c :: c in so.changes by {
        if so.changes != [] {
          assert so.changes[0] in so.changes;
        }
      }
    }
  }

  /** A gate keeps a field back that is to be changed. */
  ghost predicate Waiting(texts: Texts, nodes: Doc, spec: Spec, facts: Facts)
    requires spec.helm.Some? && facts.stability.Some?
  {
    && !facts.recovery
    && (|| (&& spec.scaling.replicas && !facts.stability.value.replicas
            && facts.recommendedReplicas != facts.currentReplicas && ReplicasAgree(texts, nodes, spec, facts))
        || (&& spec.scaling.cpu && !facts.stability.value.cpu && facts.recommendedCpu != ""
            && exists c :: && Chosen(spec, facts, c) && CpuAgrees(texts, nodes, spec, facts, c)
                           && facts.recommendedCpu != CpuOf(c, facts))
        || (&& spec.scaling.memory && !facts.stability.value.memory && facts.recommendedMemory != ""
            && exists c :: && Chosen(spec, facts, c) && MemoryAgrees(texts, nodes, spec, facts, c)
                           && facts.recommendedMemory != MemoryOf(c, facts)))
  }

  ghost predicate HeldAt(texts: Texts, nodes: Doc, spec: Spec, facts: Facts, slot: nat)
    requires spec.helm.Some? && facts.stability.Some?
  {
    Wished(spec, facts, slot) && Answered(nodes, WishAt(texts, spec, facts, slot)).Held?
  }

  lemma OneMoreHeld(texts: Texts, nodes: Doc, spec: Spec, facts: Facts, n: nat)
    requires spec.helm.Some? && facts.stability.Some? && n < 3
    ensures After(texts, nodes, spec, facts, n + 1).held != []
       <==> After(texts, nodes, spec, facts, n).held != [] || HeldAt(texts, nodes, spec, facts, n)
  {
    if Wished(spec, facts, n) {
      var w := WishAt(texts, spec, facts, n);
      AddsOne(After(texts, nodes, spec, facts, n), w.field, Answered(nodes, w));
    }
  }

  lemma HeldByGate(nodes: Doc, w: Wish)
    ensures Answered(nodes, w).Held? <==> !Answered(nodes, w).Wrong? && w.asked && !w.allowed && w.differs
  {
  }

  lemma ReplicasWait(texts: Texts, nodes: Doc, spec: Spec, facts: Facts)
    requires spec.helm.Some? && facts.stability.Some?
    ensures HeldAt(texts, nodes, spec, facts, 0)
       <==> && !facts.recovery && spec.scaling.replicas && !facts.stability.value.replicas
            && facts.recommendedReplicas != facts.currentReplicas && ReplicasAgree(texts, nodes, spec, facts)
  {
    HeldByGate(nodes, ReplicaWish(texts, spec.helm.value, facts));
    ReplicasWhenWrong(texts, nodes, spec, facts);
  }

  lemma CpuWaits(texts: Texts, nodes: Doc, spec: Spec, facts: Facts)
    requires spec.helm.Some? && facts.stability.Some?
    ensures HeldAt(texts, nodes, spec, facts, 1)
       <==> && !facts.recovery && spec.scaling.cpu && !facts.stability.value.cpu && facts.recommendedCpu != ""
            && exists c :: && Chosen(spec, facts, c) && CpuAgrees(texts, nodes, spec, facts, c)
                           && facts.recommendedCpu != CpuOf(c, facts)
  {
    var selected := Selected(spec.container, facts.containers);
    if selected.Some? {
      SelectedIsChosen(spec, facts, selected.value);
      HeldByGate(nodes, RequestWish(texts, spec.helm.value, facts, selected.value, false));
      RequestWhenWrong(texts, nodes, spec, facts, selected.value, false);
    }
    if c :| Chosen(spec, facts, c) && CpuAgrees(texts, nodes, spec, facts, c) {
      SelectedIsChosen(spec, facts, c);
    }
  }

  lemma MemoryWaits(texts: Texts, nodes: Doc, spec: Spec, facts: Facts)
    requires spec.helm.Some? && facts.stability.Some?
    ensures HeldAt(texts, nodes, spec, facts, 2)
       <==> && !facts.recovery && spec.scaling.memory && !facts.stability.value.memory && facts.recommendedMemory != ""
            && exists c :: && Chosen(spec, facts, c) && MemoryAgrees(texts, nodes, spec, facts, c)
                           && facts.recommendedMemory != MemoryOf(c, facts)
  {
    var selected := Selected(spec.container, facts.containers);
    if selected.Some? {
      SelectedIsChosen(spec, facts, selected.value);
      HeldByGate(nodes, RequestWish(texts, spec.helm.value, facts, selected.value, true));
      RequestWhenWrong(texts, nodes, spec, facts, selected.value, true);
    }
    if c :| Chosen(spec, facts, c) && MemoryAgrees(texts, nodes, spec, facts, c) {
      SelectedIsChosen(spec, facts, c);
    }
  }

  lemma WaitingWhenHeld(texts: Texts, nodes: Doc, spec: Spec, facts: Facts)
    requires spec.helm.Some? && facts.stability.Some?
    ensures After(texts, nodes, spec, facts, 3).held != [] <==> Waiting(texts, nodes, spec, facts)
  {
    OneMoreHeld(texts, nodes, spec, facts, 0);
    OneMoreHeld(texts, nodes, spec, facts, 1);
    OneMoreHeld(texts, nodes, spec, facts, 2);
    ReplicasWait(texts, nodes, spec, facts);
    CpuWaits(texts, nodes, spec, facts);
    MemoryWaits(texts, nodes, spec, facts);
  }

  /**
   * A plan is blocked if the report is, if nothing is known of the gates or the rollout is under way, and if nothing is
   * due because a gate keeps it back.
   */
  lemma BlockedExactly(texts: Texts, files: Files, spec: Spec, facts: Facts)
    requires spec.helm.Some?
    ensures PlanOf(texts, files, spec, facts).blocked
       <==> || facts.blocked
            || (&& spec.sourceFile != "" && spec.sourceFile in files && files[spec.sourceFile][ROOT].kind == Mapping
                && (facts.stability.None? || (facts.unsettled && !facts.recovery)))
            || (&& Open(files, spec, facts) && Waiting(texts, files[spec.sourceFile], spec, facts)
                && forall c :: !Due(texts, files[spec.sourceFile], spec, facts, c))
  {
    if Open(files, spec, facts) {
      var nodes := files[spec.sourceFile];
      var so := After(texts, nodes, spec, facts, 3);
      WaitingWhenHeld(texts, nodes, spec, facts);
      forall c ensures c in so.changes <==> Due(texts, nodes, spec, facts, c) {
        PlannedWhenDue(texts, nodes, spec, facts, c);
      }
      if so.changes != [] {
        assert so.changes[0] in so.changes;
      }
    }
  }

  // ----- where a planned change comes from -----

  lemma {:induction false} ChangeHasSlot(texts: Texts, nodes: Doc, spec: Spec, facts: Facts, n: nat, c: Change)
    returns (slot: nat)
    requires spec.helm.Some? && facts.stability.Some? && n <= 3
    requires c in After(texts, nodes, spec, facts, n).changes
    ensures slot < n && Wished(spec, facts, slot)
    ensures Answered(nodes, WishAt(texts, spec, facts, slot)) == Planned(c)
  {
    if c in After(texts, nodes, spec, facts, n - 1).changes {
      slot := ChangeHasSlot(texts, nodes, spec, facts, n - 1, c);
    } else {
      slot := n - 1;
    }
  }

  /** The reports as they are after planning. */
  ghost predicate ArePlanned(texts: Texts, files: Files, specs: seq<Spec>, reports: seq<Report>) {
    forall i :: 0 <= i < |reports| ==> reports[i] == Attached(texts, files, specs, Report(reports[i].facts, None))
  }

  /** The change is what report `r` has for workload `k` and field `slot`. */
  ghost predicate From(
      texts: Texts, files: Files, specs: seq<Spec>, reports: seq<Report>, file: string, c: Change,
      r: nat, k: nat, slot: nat)
  {
    && Plans(reports, file, r, c) && k < |specs| && slot < 3
    && specs[k].name == reports[r].facts.name
    && LastNamed(specs, specs[k].name) == Some(k)
    && specs[k].helm.Some? && specs[k].sourceFile == file != "" && file in files && files[file][ROOT].kind == Mapping
    && reports[r].facts.stability.Some? && Wished(specs[k], reports[r].facts, slot)
    && Answered(files[file], WishAt(texts, specs[k], reports[r].facts, slot)) == Planned(c)
  }

  lemma PlansOfLast(reports: seq<Report>, file: string)
    ensures reports == [] ==> Flatten(PlansFor(reports, file)) == []
    ensures reports != [] ==>
      var front, last := reports[..|reports| - 1], reports[|reports| - 1];
      Flatten(PlansFor(reports, file))
      == Flatten(PlansFor(front, file)) + if Contributes(last, file) then last.plan.value.changes else []
  {
    if reports != [] {
      var front := PlansFor(reports[..|reports| - 1], file);
      var all := PlansFor(reports, file);
      if Contributes(reports[|reports| - 1], file) {
        assert all[..|all| - 1] == front;
      } else {
        assert all == front;
      }
    }
  }

  lemma {:induction false} InSomePlan(reports: seq<Report>, file: string, c: Change) returns (r: nat)
    requires c in Flatten(PlansFor(reports, file))
    ensures Plans(reports, file, r, c)
  {
    var front, last := reports[..|reports| - 1], reports[|reports| - 1];
    PlansOfLast(reports, file);
    if Contributes(last, file) && c in last.plan.value.changes {
      r := |reports| - 1;
    } else {
      r := InSomePlan(front, file, c);
    }
  }

  lemma {:induction false} PlansAreCollected(reports: seq<Report>, file: string, r: nat, c: Change)
    requires Plans(reports, file, r, c)
    ensures c in Flatten(PlansFor(reports, file))
  {
    var front := reports[..|reports| - 1];
    PlansOfLast(reports, file);
    if r < |front| {
      PlansAreCollected(front, file, r, c);
    }
  }

  lemma ChangeHasOrigin(texts: Texts, files: Files, specs: seq<Spec>, reports: seq<Report>, file: string, c: Change)
    returns (r: nat, k: nat, slot: nat)
    requires ArePlanned(texts, files, specs, reports) && c in Flatten(PlansFor(reports, file))
    ensures From(texts, files, specs, reports, file, c, r, k, slot)
  {
    r := InSomePlan(reports, file, c);
    k, slot := PlanHasOrigin(texts, files, specs, reports, file, r, c);
  }

  lemma PlanHasOrigin(
      texts: Texts, files: Files, specs: seq<Spec>, reports: seq<Report>, file: string, r: nat, c: Change)
    returns (k: nat, slot: nat)
    requires ArePlanned(texts, files, specs, reports) && Plans(reports, file, r, c)
    ensures From(texts, files, specs, reports, file, c, r, k, slot)
  {
    var facts := reports[r].facts;
    assert reports[r] == Attached(texts, files, specs, Report(facts, None));
    k := LastNamed(specs, facts.name).value;
    slot := ChangeHasSlot(texts, files[file], specs[k], facts, 3, c);
  }

  // ----- planned changes never overlap -----

  /** Where the path of a field stands among the claims of a profile. */
  function Position(specs: seq<Spec>, k: nat, slot: nat): nat
    requires k < |specs| && specs[k].helm.Some? && slot <= 3
  {
    |Claims(specs[..k])| + |FieldClaims(specs[k].sourceFile, Fields(specs[k].helm.value), slot)|
  }

  ghost predicate Claimed(specs: seq<Spec>, k: nat, slot: nat) {
    && k < |specs| && slot < 3 && specs[k].helm.Some? && specs[k].sourceFile != ""
    && Fields(specs[k].helm.value)[slot] != []
  }

  lemma ClaimAt(specs: seq<Spec>, k: nat, slot: nat)
    requires Claimed(specs, k, slot)
    ensures Position(specs, k, slot) < Position(specs, k, slot + 1) <= |Claims(specs[..k + 1])| <= |Claims(specs)|
    ensures Claims(specs)[Position(specs, k, slot)]
         == Claim(specs[k].sourceFile, Fields(specs[k].helm.value)[slot])
  {
    var source, fields := specs[k].sourceFile, Fields(specs[k].helm.value);
    AppendClaims(specs, k);
    FieldClaimsGrow(source, fields, slot + 1, 3);
    ClaimsGrow(specs, k + 1);
    assert FieldClaims(source, fields, slot + 1)[|FieldClaims(source, fields, slot)|] == Claim(source, fields[slot]);
  }

  lemma ClaimsAscend(specs: seq<Spec>, k: nat, slot: nat, l: nat, other: nat)
    requires Claimed(specs, k, slot) && Claimed(specs, l, other)
    requires k < l || (k == l && slot < other)
    ensures Position(specs, k, slot) < Position(specs, l, other) < |Claims(specs)|
  {
    ClaimAt(specs, k, slot);
    ClaimAt(specs, l, other);
    if k < l {
      ClaimsGrow(specs[..l], k + 1);
      assert specs[..l][..k + 1] == specs[..k + 1];
    } else {
      FieldClaimsGrow(specs[k].sourceFile, Fields(specs[k].helm.value), slot + 1, other);
    }
  }

  /** In a valid profile, different fields of one file have disjoint values. */
  lemma FieldsAreDisjoint(specs: seq<Spec>, k: nat, slot: nat, l: nat, other: nat)
    requires Owned(specs) && Claimed(specs, k, slot) && Claimed(specs, l, other)
    requires specs[k].sourceFile == specs[l].sourceFile
    requires Overlap(Fields(specs[k].helm.value)[slot], Fields(specs[l].helm.value)[other])
    ensures k == l && slot == other
  {
    ClaimAt(specs, k, slot);
    ClaimAt(specs, l, other);
    if k < l || (k == l && slot < other) {
      ClaimsAscend(specs, k, slot, l, other);
    } else if l < k || other < slot {
      ClaimsAscend(specs, l, other, k, slot);
    }
  }

  lemma {:induction false} FieldOfClaim(source: string, fields: seq<seq<string>>, n: nat, x: nat) returns (slot: nat)
    requires n <= |fields| && x < |FieldClaims(source, fields, n)|
    ensures slot < n && fields[slot] != [] && |FieldClaims(source, fields, slot)| == x
  {
    if x < |FieldClaims(source, fields, n - 1)| {
      slot := FieldOfClaim(source, fields, n - 1, x);
    } else {
      slot := n - 1;
    }
  }

  lemma {:induction false} ClaimHasOrigin(specs: seq<Spec>, x: nat) returns (k: nat, slot: nat)
    requires x < |Claims(specs)|
    ensures Claimed(specs, k, slot) && Position(specs, k, slot) == x
  {
    var front, last := specs[..|specs| - 1], specs[|specs| - 1];
    if x < |Claims(front)| {
      k, slot := ClaimHasOrigin(front, x);
      assert front[..k] == specs[..k];
    } else {
      k := |specs| - 1;
      slot := FieldOfClaim(last.sourceFile, Fields(last.helm.value), 3, x - |Claims(front)|);
    }
  }

  /** Two paths of one file that are claimed lead apart, unless they are the same claim. */
  ghost predicate ApartUnlessSame(specs: seq<Spec>, k: nat, slot: nat, l: nat, other: nat)
    requires Claimed(specs, k, slot) && Claimed(specs, l, other)
  {
    var path := Fields(specs[k].helm.value)[slot];
    specs[k].sourceFile == specs[l].sourceFile && (k != l || slot != other) ==>
      forall rest :: Fields(specs[l].helm.value)[other] != path + rest
  }

  /**
   * A profile is accepted if and only if each of its files has one format, and no configured path goes on where another
   * one of the same file ends.
   */
  lemma OwnedExactly(specs: seq<Spec>)
    ensures Owned(specs)
       <==> FormatsAgree(specs)
            && forall k: nat, slot: nat, l: nat, other: nat ::
                 Claimed(specs, k, slot) && Claimed(specs, l, other) ==> ApartUnlessSame(specs, k, slot, l, other)
  {
    if Owned(specs) {
      forall k: nat, slot: nat, l: nat, other: nat | Claimed(specs, k, slot) && Claimed(specs, l, other)
        ensures ApartUnlessSame(specs, k, slot, l, other)
      {
        OwnedApart(specs, k, slot, l, other);
      }
    } else if FormatsAgree(specs) {
      var i, j :| 0 <= i < j < |Claims(specs)| && Claims(specs)[i].source == Claims(specs)[j].source
                  && Overlap(Claims(specs)[i].path, Claims(specs)[j].path);
      var k, slot := ClaimHasOrigin(specs, i);
      var l, other := ClaimHasOrigin(specs, j);
      ClaimAt(specs, k, slot);
      ClaimAt(specs, l, other);
      OverlapMeans(Claims(specs)[i].path, Claims(specs)[j].path);
      assert !ApartUnlessSame(specs, k, slot, l, other) || !ApartUnlessSame(specs, l, other, k, slot);
    }
  }

  lemma OwnedApart(specs: seq<Spec>, k: nat, slot: nat, l: nat, other: nat)
    requires Owned(specs) && Claimed(specs, k, slot) && Claimed(specs, l, other)
    ensures ApartUnlessSame(specs, k, slot, l, other)
  {
    var path, longer := Fields(specs[k].helm.value)[slot], Fields(specs[l].helm.value)[other];
    if specs[k].sourceFile == specs[l].sourceFile && (k != l || slot != other) {
      forall rest ensures longer != path + rest {
        if longer == path + rest {
          OverlapMeans(path, longer);
          FieldsAreDisjoint(specs, k, slot, l, other);
        }
      }
    }
  }

  /** The applyable plan of report `r` makes this change of the file. */
  predicate Plans(reports: seq<Report>, file: string, r: int, c: Change) {
    0 <= r < |reports| && Contributes(reports[r], file) && c in reports[r].plan.value.changes
  }

  /** Plans of reports with one name have no two different changes of one value. */
  ghost predicate NamesakesAgree(reports: seq<Report>, file: string) {
    forall r, s, c, d ::
      (&& Plans(reports, file, r, c) && Plans(reports, file, s, d)
       && reports[r].facts.name == reports[s].facts.name && c.path == d.path)
      ==> c == d
  }

  ghost predicate DistinctNames(reports: seq<Report>) {
    forall r, s :: 0 <= r < s < |reports| ==> reports[r].facts.name != reports[s].facts.name
  }

  lemma OriginIsClaimed(
      texts: Texts, files: Files, specs: seq<Spec>, reports: seq<Report>, file: string, c: Change,
      r: nat, k: nat, slot: nat)
    requires From(texts, files, specs, reports, file, c, r, k, slot)
    ensures Claimed(specs, k, slot) && c.path == Fields(specs[k].helm.value)[slot]
  {
    WishHasPath(texts, specs[k], reports[r].facts, slot);
    PlannedHasPath(files[file], WishAt(texts, specs[k], reports[r].facts, slot));
  }

  lemma WishHasPath(texts: Texts, spec: Spec, facts: Facts, slot: nat)
    requires spec.helm.Some? && facts.stability.Some? && Wished(spec, facts, slot)
    ensures slot < 3 && WishAt(texts, spec, facts, slot).path == Fields(spec.helm.value)[slot]
  {
  }

  lemma PlannedHasPath(nodes: Doc, w: Wish)
    requires Answered(nodes, w).Planned?
    ensures Answered(nodes, w).change.path == w.path != []
  {
  }

  lemma OverlapMeansSameField(
      texts: Texts, files: Files, specs: seq<Spec>, reports: seq<Report>, file: string, a: Change, b: Change)
    returns (r: nat, s: nat)
    requires Owned(specs) && ArePlanned(texts, files, specs, reports)
    requires a in Flatten(PlansFor(reports, file)) && b in Flatten(PlansFor(reports, file)) && Overlap(a.path, b.path)
    ensures Plans(reports, file, r, a) && Plans(reports, file, s, b)
    ensures reports[r].facts.name == reports[s].facts.name && a.path == b.path
    ensures r == s ==> a == b
  {
    var k, slot, l, other;
    r, k, slot := ChangeHasOrigin(texts, files, specs, reports, file, a);
    s, l, other := ChangeHasOrigin(texts, files, specs, reports, file, b);
    OriginIsClaimed(texts, files, specs, reports, file, a, r, k, slot);
    OriginIsClaimed(texts, files, specs, reports, file, b, s, l, other);
    FieldsAreDisjoint(specs, k, slot, l, other);
  }

  /** The plans of a valid profile can be merged exactly if workloads with one name plan alike. */
  lemma CompatibleIffNamesakesAgree(
      texts: Texts, files: Files, specs: seq<Spec>, reports: seq<Report>, file: string)
    requires Owned(specs) && ArePlanned(texts, files, specs, reports)
    ensures Compatible(Flatten(PlansFor(reports, file))) <==> NamesakesAgree(reports, file)
  {
    var changes := Flatten(PlansFor(reports, file));
    if NamesakesAgree(reports, file) {
      forall a, b | a in changes && b in changes && Overlap(a.path, b.path) ensures a == b {
        var r, s := OverlapMeansSameField(texts, files, specs, reports, file, a, b);
      }
    }
    if Compatible(changes) {
      forall r, s, c, d | Plans(reports, file, r, c) && Plans(reports, file, s, d)
        && reports[r].facts.name == reports[s].facts.name && c.path == d.path
        ensures c == d
      {
        PlansAreCollected(reports, file, r, c);
        PlansAreCollected(reports, file, s, d);
      }
    }
  }

  /** The workload with the name of the report has an applyable plan for the file that changes this field. */
  ghost predicate Makes(
      texts: Texts, files: Files, specs: seq<Spec>, facts: Facts, file: string, k: nat, slot: nat)
  {
    && k < |specs| && slot < 3 && LastNamed(specs, facts.name) == Some(k)
    && specs[k].helm.Some? && specs[k].sourceFile == file && file in files
    && Applyable(PlanOf(texts, files, specs[k], facts))
    && facts.stability.Some? && Wished(specs[k], facts, slot)
    && Answered(files[file], WishAt(texts, specs[k], facts, slot)).Planned?
  }

  /** Reports of one name that both change a field want the same text there, for a field of the same name. */
  ghost predicate NamesakesWantAlike(
      texts: Texts, files: Files, specs: seq<Spec>, reports: seq<Report>, file: string)
  {
    forall r, s, k: nat, slot: nat ::
      (&& 0 <= r < |reports| && 0 <= s < |reports|
       && Makes(texts, files, specs, reports[r].facts, file, k, slot)
       && Makes(texts, files, specs, reports[s].facts, file, k, slot))
      ==> WantAlike(WishAt(texts, specs[k], reports[r].facts, slot), WishAt(texts, specs[k], reports[s].facts, slot))
  }

  ghost predicate WantAlike(some: Wish, other: Wish) {
    some.field == other.field && some.recommended == other.recommended
  }

  lemma {:induction false} SlotIsPlanned(texts: Texts, nodes: Doc, spec: Spec, facts: Facts, n: nat, slot: nat)
    requires spec.helm.Some? && facts.stability.Some? && slot < n <= 3 && Wished(spec, facts, slot)
    requires Answered(nodes, WishAt(texts, spec, facts, slot)).Planned?
    ensures Answered(nodes, WishAt(texts, spec, facts, slot)).change in After(texts, nodes, spec, facts, n).changes
  {
    AfterField(texts, nodes, spec, facts, n - 1);
    if slot < n - 1 {
      SlotIsPlanned(texts, nodes, spec, facts, n - 1, slot);
    } else {
      assert PlannedAt(texts, nodes, spec, facts, slot) == [Answered(nodes, WishAt(texts, spec, facts, slot)).change];
    }
  }

  lemma MadeIsPlanned(
      texts: Texts, files: Files, specs: seq<Spec>, reports: seq<Report>, file: string, r: nat, k: nat, slot: nat)
    requires ArePlanned(texts, files, specs, reports) && r < |reports|
    requires Makes(texts, files, specs, reports[r].facts, file, k, slot)
    ensures Plans(reports, file, r, Answered(files[file], WishAt(texts, specs[k], reports[r].facts, slot)).change)
  {
    var facts := reports[r].facts;
    SlotIsPlanned(texts, files[file], specs[k], facts, 3, slot);
    assert reports[r] == Attached(texts, files, specs, Report(facts, None));
    ApplyableIsFinished(texts, files, specs[k], facts);
  }

  lemma ApplyableIsFinished(texts: Texts, files: Files, spec: Spec, facts: Facts)
    requires spec.helm.Some? && Applyable(PlanOf(texts, files, spec, facts))
    ensures spec.sourceFile in files && facts.stability.Some?
    ensures PlanOf(texts, files, spec, facts).sourceFile == spec.sourceFile
    ensures PlanOf(texts, files, spec, facts).changes == After(texts, files[spec.sourceFile], spec, facts, 3).changes
  {
  }

  lemma OriginIsMade(
      texts: Texts, files: Files, specs: seq<Spec>, reports: seq<Report>, file: string, c: Change,
      r: nat, k: nat, slot: nat)
    requires ArePlanned(texts, files, specs, reports) && From(texts, files, specs, reports, file, c, r, k, slot)
    ensures Makes(texts, files, specs, reports[r].facts, file, k, slot)
  {
    assert reports[r] == Attached(texts, files, specs, Report(reports[r].facts, None));
  }

  /** Two changes of one field are the same exactly if the same is wanted. */
  lemma SameChange(nodes: Doc, some: Wish, other: Wish)
    requires Answered(nodes, some).Planned? && Answered(nodes, other).Planned? && some.path == other.path
    ensures Answered(nodes, some) == Answered(nodes, other) <==> WantAlike(some, other)
  {
  }

  lemma AgreeIfWantAlike(
      texts: Texts, files: Files, specs: seq<Spec>, reports: seq<Report>, file: string, r: nat, s: nat,
      c: Change, d: Change)
    requires Owned(specs) && ArePlanned(texts, files, specs, reports)
    requires NamesakesWantAlike(texts, files, specs, reports, file)
    requires Plans(reports, file, r, c) && Plans(reports, file, s, d) && c.path == d.path
    ensures c == d
  {
    var k, slot := PlanHasOrigin(texts, files, specs, reports, file, r, c);
    var l, other := PlanHasOrigin(texts, files, specs, reports, file, s, d);
    OriginIsClaimed(texts, files, specs, reports, file, c, r, k, slot);
    OriginIsClaimed(texts, files, specs, reports, file, d, s, l, other);
    FieldsAreDisjoint(specs, k, slot, l, other);
    OriginIsMade(texts, files, specs, reports, file, c, r, k, slot);
    OriginIsMade(texts, files, specs, reports, file, d, s, k, slot);
    WishHasPath(texts, specs[k], reports[r].facts, slot);
    WishHasPath(texts, specs[k], reports[s].facts, slot);
    SameChange(files[file], WishAt(texts, specs[k], reports[r].facts, slot),
               WishAt(texts, specs[k], reports[s].facts, slot));
  }

  lemma WantAlikeIfAgree(
      texts: Texts, files: Files, specs: seq<Spec>, reports: seq<Report>, file: string, r: nat, s: nat, k: nat,
      slot: nat)
    requires ArePlanned(texts, files, specs, reports) && NamesakesAgree(reports, file)
    requires r < |reports| && Makes(texts, files, specs, reports[r].facts, file, k, slot)
    requires s < |reports| && Makes(texts, files, specs, reports[s].facts, file, k, slot)
    ensures WantAlike(WishAt(texts, specs[k], reports[r].facts, slot), WishAt(texts, specs[k], reports[s].facts, slot))
  {
    var some, other := WishAt(texts, specs[k], reports[r].facts, slot), WishAt(texts, specs[k], reports[s].facts, slot);
    MadeIsPlanned(texts, files, specs, reports, file, r, k, slot);
    MadeIsPlanned(texts, files, specs, reports, file, s, k, slot);
    WishHasPath(texts, specs[k], reports[r].facts, slot);
    WishHasPath(texts, specs[k], reports[s].facts, slot);
    PlannedHasPath(files[file], some);
    PlannedHasPath(files[file], other);
    SameChange(files[file], some, other);
  }

  /**
   * So whether the plans of a valid profile can be merged shows in what its reports want: two of one name that both
   * change a field must want the same there.
   */
  lemma CompatibleIffNamesakesWantAlike(
      texts: Texts, files: Files, specs: seq<Spec>, reports: seq<Report>, file: string)
    requires Owned(specs) && ArePlanned(texts, files, specs, reports)
    ensures Compatible(Flatten(PlansFor(reports, file))) <==> NamesakesWantAlike(texts, files, specs, reports, file)
  {
    CompatibleIffNamesakesAgree(texts, files, specs, reports, file);
    if NamesakesWantAlike(texts, files, specs, reports, file) {
      forall r, s, c, d | Plans(reports, file, r, c) && Plans(reports, file, s, d)
        && reports[r].facts.name == reports[s].facts.name && c.path == d.path
        ensures c == d
      {
        AgreeIfWantAlike(texts, files, specs, reports, file, r, s, c, d);
      }
    }
    if NamesakesAgree(reports, file) {
      forall r, s, k: nat, slot: nat | 0 <= r < |reports| && 0 <= s < |reports|
        && Makes(texts, files, specs, reports[r].facts, file, k, slot)
        && Makes(texts, files, specs, reports[s].facts, file, k, slot)
        ensures WantAlike(WishAt(texts, specs[k], reports[r].facts, slot),
                          WishAt(texts, specs[k], reports[s].facts, slot))
      {
        WantAlikeIfAgree(texts, files, specs, reports, file, r, s, k, slot);
      }
    }
  }

  /** With distinct names they always can. */
  lemma PlannedChangesAreCompatible(
      texts: Texts, files: Files, specs: seq<Spec>, reports: seq<Report>, file: string)
    requires Owned(specs) && ArePlanned(texts, files, specs, reports) && DistinctNames(reports)
    ensures Compatible(Flatten(PlansFor(reports, file)))
  {
    var changes := Flatten(PlansFor(reports, file));
    forall a, b | a in changes && b in changes && Overlap(a.path, b.path) ensures a == b {
      var r, s := OverlapMeansSameField(texts, files, specs, reports, file, a, b);
    }
  }

  /** Every planned change is valid, is for a value that is in the file, and changes it. */
  lemma PlannedChangesFit(
      texts: Texts, files: Files, specs: seq<Spec>, reports: seq<Report>, file: string, c: Change)
    requires ArePlanned(texts, files, specs, reports) && c in Flatten(PlansFor(reports, file))
    ensures file in files && files[file][ROOT].kind == Mapping
    ensures Valid(c) && Checked(files[file], c) && c.current != c.recommended
  {
    var r, k, slot := ChangeHasOrigin(texts, files, specs, reports, file, c);
    WishIsValid(texts, specs[k], reports[r].facts, slot);
    AnsweredIsSound(files[file], WishAt(texts, specs[k], reports[r].facts, slot));
  }

  lemma WishIsValid(texts: Texts, spec: Spec, facts: Facts, slot: nat)
    requires spec.helm.Some? && facts.stability.Some? && Wished(spec, facts, slot)
    ensures StringField(WishAt(texts, spec, facts, slot).field).Some?
  {
    if slot > 0 {
      RequestIsString(Selected(spec.container, facts.containers).value.name, slot == 2);
    }
  }

  lemma AnsweredIsSound(nodes: Doc, w: Wish)
    requires StringField(w.field).Some?
    ensures Sound(nodes, Answered(nodes, w))
  {
  }

  // ----- what a proposal leaves in the file -----

  /** The workload that a report is about: the last one of its name. */
  ghost predicate Meant(specs: seq<Spec>, facts: Facts, k: nat) {
    k < |specs| && specs[k].name == facts.name && forall i :: k < i < |specs| ==> specs[i].name != facts.name
  }

  /** A report has the change made: its workload is in the file, everything agrees with it, and the change is due. */
  ghost predicate Proposes(
      texts: Texts, files: Files, specs: seq<Spec>, facts: Facts, file: string, k: nat, c: Change)
  {
    && Meant(specs, facts, k) && specs[k].helm.Some? && specs[k].sourceFile == file && Open(files, specs[k], facts)
    && Faultless(texts, files[file], specs[k], facts) && Due(texts, files[file], specs[k], facts, c)
  }

  lemma {:induction false} LastIsMeant(specs: seq<Spec>, facts: Facts, k: nat)
    ensures LastNamed(specs, facts.name) == Some(k) <==> Meant(specs, facts, k)
  {
    if specs != [] && specs[|specs| - 1].name != facts.name {
      LastIsMeant(specs[..|specs| - 1], facts, k);
    }
  }

  lemma DueIsPlanned(
      texts: Texts, files: Files, specs: seq<Spec>, reports: seq<Report>, file: string, r: nat, k: nat, c: Change)
    requires ArePlanned(texts, files, specs, reports) && r < |reports|
    requires Proposes(texts, files, specs, reports[r].facts, file, k, c)
    ensures Plans(reports, file, r, c)
  {
    var facts := reports[r].facts;
    LastIsMeant(specs, facts, k);
    HasPlan(texts, files, specs, reports, r, k);
    AppliesExactly(texts, files, specs[k], facts);
    PlanIsWhatIsDue(texts, files, specs[k], facts, c);
    ApplyableIsFinished(texts, files, specs[k], facts);
  }

  lemma HasPlan(texts: Texts, files: Files, specs: seq<Spec>, reports: seq<Report>, r: nat, k: nat)
    requires ArePlanned(texts, files, specs, reports) && r < |reports|
    requires LastNamed(specs, reports[r].facts.name) == Some(k) && specs[k].helm.Some?
    ensures reports[r].plan == Some(PlanOf(texts, files, specs[k], reports[r].facts))
  {
    assert reports[r] == Attached(texts, files, specs, Report(reports[r].facts, None));
  }

  lemma PlannedIsDue(
      texts: Texts, files: Files, specs: seq<Spec>, reports: seq<Report>, file: string, r: nat, c: Change)
    returns (k: nat)
    requires ArePlanned(texts, files, specs, reports) && Plans(reports, file, r, c)
    ensures Proposes(texts, files, specs, reports[r].facts, file, k, c)
  {
    var slot;
    var facts := reports[r].facts;
    k, slot := PlanHasOrigin(texts, files, specs, reports, file, r, c);
    HasPlan(texts, files, specs, reports, r, k);
    LastIsMeant(specs, facts, k);
    AppliesExactly(texts, files, specs[k], facts);
    PlanIsWhatIsDue(texts, files, specs[k], facts, c);
  }

  /**
   * How a change is written: the recommended text in place of the old one, as a string if it was one before, if it is a
   * request, or if it is no number of 64 bits, and otherwise as a plain number.
   */
  ghost predicate Written(before: Node, after: Node, c: Change) {
    && after.kind == Scalar && after.value == c.recommended && after.anchor == before.anchor && after.content == []
    && (if before.tag == "!!str" || c.field != "spec.replicas" || !Int64(c.recommended) then
          after.tag == "!!str" && after.style == before.style
        else
          after.tag == "!!int" && after.style == 0)
  }

  lemma DueHasField(texts: Texts, nodes: Doc, spec: Spec, facts: Facts, c: Change)
    requires spec.helm.Some? && facts.stability.Some? && Due(texts, nodes, spec, facts, c)
    ensures StringField(c.field) == Some(c.field != "spec.replicas")
  {
    StringFieldMeans(c.field);
    if container :| DueCpu(texts, nodes, spec, facts, container, c) {
      FieldNames(container.name);
      RequestIsString(container.name, false);
    } else if container :| DueMemory(texts, nodes, spec, facts, container, c) {
      FieldNames(container.name);
      RequestIsString(container.name, true);
    }
  }

  /** At the path of every change that some report proposes the file has what is recommended. */
  ghost predicate AllProposed(
      texts: Texts, files: Files, specs: seq<Spec>, reports: seq<Report>, file: string, proposed: Nodes)
    requires Tree(proposed) && file in files && |proposed| == |files[file]|
  {
    forall r, k, c :: 0 <= r < |reports| && Proposes(texts, files, specs, reports[r].facts, file, k, c) ==>
      && TextAt(proposed, c.path, c.recommended)
      && ScalarAt(files[file], c.path) == ScalarAt(proposed, c.path)
      && Written(files[file][ScalarAt(proposed, c.path).node], proposed[ScalarAt(proposed, c.path).node], c)
  }

  /** And a value that is different now is at the path of such a change. */
  ghost predicate NothingElse(
      texts: Texts, files: Files, specs: seq<Spec>, reports: seq<Report>, file: string, proposed: Nodes)
    requires file in files
  {
    && |proposed| == |files[file]|
    && forall n: nat :: n < |proposed| && proposed[n] != files[file][n] ==>
         exists r, k, c :: 0 <= r < |reports| && Proposes(texts, files, specs, reports[r].facts, file, k, c)
                           && ScalarAt(files[file], c.path) == Found(n)
  }

  /** The proposal makes the planned changes of the file at once. */
  ghost predicate MakesAll(file: string, files: Files, reports: seq<Report>, proposed: Nodes) {
    && file in files && Tree(proposed) && SameLookups(files[file], proposed)
    && Simultaneous(files[file], proposed, Flatten(PlansFor(reports, file)))
  }

  lemma ChangeIsMade(
      texts: Texts, files: Files, specs: seq<Spec>, reports: seq<Report>, file: string, proposed: Nodes, r: nat,
      k: nat, c: Change)
    requires ArePlanned(texts, files, specs, reports) && MakesAll(file, files, reports, proposed) && r < |reports|
    requires Proposes(texts, files, specs, reports[r].facts, file, k, c)
    ensures TextAt(proposed, c.path, c.recommended) && ScalarAt(files[file], c.path) == ScalarAt(proposed, c.path)
    ensures Written(files[file][ScalarAt(proposed, c.path).node], proposed[ScalarAt(proposed, c.path).node], c)
  {
    DueHasField(texts, files[file], specs[k], reports[r].facts, c);
    DueIsPlanned(texts, files, specs, reports, file, r, k, c);
    PlansAreCollected(reports, file, r, c);
    PlannedChangesFit(texts, files, specs, reports, file, c);
    WrittenAtOnce(files[file], proposed, Flatten(PlansFor(reports, file)), c);
  }

  lemma WrittenAtOnce(nodes: Doc, proposed: Nodes, changes: seq<Change>, c: Change)
    requires Tree(proposed) && SameLookups(nodes, proposed) && Simultaneous(nodes, proposed, changes) && c in changes
    requires Checked(nodes, c) && c.current != c.recommended && c.path != []
    requires StringField(c.field) == Some(c.field != "spec.replicas")
    ensures TextAt(proposed, c.path, c.recommended) && ScalarAt(nodes, c.path) == ScalarAt(proposed, c.path)
    ensures Written(nodes[ScalarAt(proposed, c.path).node], proposed[ScalarAt(proposed, c.path).node], c)
  {
    assert ScalarAt(proposed, c.path) == ScalarAt(nodes, c.path);
    assert Targets(nodes, c, ScalarAt(nodes, c.path).node);
  }

  lemma ProposedTexts(
      texts: Texts, files: Files, specs: seq<Spec>, reports: seq<Report>, file: string, proposed: Nodes)
    requires ArePlanned(texts, files, specs, reports) && MakesAll(file, files, reports, proposed)
    ensures |proposed| == |files[file]|
    ensures AllProposed(texts, files, specs, reports, file, proposed)
  {
    forall r, k, c | 0 <= r < |reports| && Proposes(texts, files, specs, reports[r].facts, file, k, c)
      ensures TextAt(proposed, c.path, c.recommended) && ScalarAt(files[file], c.path) == ScalarAt(proposed, c.path)
      ensures Written(files[file][ScalarAt(proposed, c.path).node], proposed[ScalarAt(proposed, c.path).node], c)
    {
      ChangeIsMade(texts, files, specs, reports, file, proposed, r, k, c);
    }
  }

  lemma NothingElseProposed(
      texts: Texts, files: Files, specs: seq<Spec>, reports: seq<Report>, file: string, proposed: Nodes)
    requires ArePlanned(texts, files, specs, reports) && MakesAll(file, files, reports, proposed)
    ensures NothingElse(texts, files, specs, reports, file, proposed)
  {
    var nodes := files[file];
    forall n: nat | n < |proposed| && proposed[n] != nodes[n]
      ensures exists r, k, c :: 0 <= r < |reports| && Proposes(texts, files, specs, reports[r].facts, file, k, c)
                                && ScalarAt(nodes, c.path) == Found(n)
    {
      var c :| c in Flatten(PlansFor(reports, file)) && Targets(nodes, c, n);
      var r := InSomePlan(reports, file, c);
      var k := PlannedIsDue(texts, files, specs, reports, file, r, c);
    }
  }

  // ----- from profile to proposal -----

  method CollectPlans(reports: seq<Report>, file: string) returns (plans: seq<seq<Change>>)
    ensures plans == PlansFor(reports, file)
  {
    plans := [];
    for i := 0 to |reports|
      invariant plans == PlansFor(reports[..i], file)
    {
      assert reports[..i + 1][..i] == reports[..i];
      if Contributes(reports[i], file) {
        plans := plans + [reports[i].plan.value.changes];
      }
    }
    assert reports[..|reports|] == reports;
  }

  lemma {:induction false} AllEffective(changes: seq<Change>)
    requires forall c :: c in changes ==> c.current != c.recommended
    ensures Effective(changes) == changes
  {
    if changes != [] {
      var front, last := changes[..|changes| - 1], changes[|changes| - 1];
      assert changes == front + [last] && last in changes && forall c :: c in front ==> c in changes;
      AllEffective(front);
    }
  }

  /** What `BuildProposal` needs, of all planned changes. */
  lemma PlannedChangesPass(texts: Texts, files: Files, specs: seq<Spec>, reports: seq<Report>, file: string)
    requires Owned(specs) && ArePlanned(texts, files, specs, reports) && DistinctNames(reports)
    ensures var changes := Flatten(PlansFor(reports, file));
      Compatible(changes)
      && forall c :: c in changes ==> Valid(c) && file in files && Checked(files[file], c) && c.current != c.recommended
  {
    PlannedChangesAreCompatible(texts, files, specs, reports, file);
    forall c | c in Flatten(PlansFor(reports, file))
      ensures Valid(c) && file in files && Checked(files[file], c) && c.current != c.recommended
    {
      PlannedChangesFit(texts, files, specs, reports, file, c);
    }
  }

  lemma PlanningIsDone(texts: Texts, files: Files, specs: seq<Spec>, before: seq<Report>, now: seq<Report>)
    requires Planning(texts, files, specs, before, now, |now|)
    requires DistinctNames(before) && forall i :: 0 <= i < |before| ==> before[i].plan.None?
    ensures ArePlanned(texts, files, specs, now) && DistinctNames(now)
  {
    forall i | 0 <= i < |now|
      ensures now[i].facts == before[i].facts && now[i] == Attached(texts, files, specs, Report(now[i].facts, None))
    {
      assert before[i] == Report(before[i].facts, None);
    }
  }

  /**
   * Planning and then building the proposal of one file. As long as the file does not change in between, the
   * proposal of a valid profile with distinct names is built without fail, and it makes all planned changes.
   */
  method ProposeFile(texts: Texts, files: Files, specs: seq<Spec>, reports: array<Report>, file: string)
    returns (applied: Option<seq<Change>>, proposed: Nodes)
    requires Owned(specs) && DistinctNames(reports[..]) && file in files
    requires files[file][ROOT].kind == Mapping && forall i :: 0 <= i < reports.Length ==> reports[..][i].plan.None?
    modifies reports
    ensures ArePlanned(texts, files, specs, reports[..])
    ensures var changes := Flatten(PlansFor(reports[..], file));
      applied.Some? && SameChanges(applied.value, changes) && Simultaneous(files[file], proposed, changes)
    ensures Tree(proposed) && SameLookups(files[file], proposed) && |proposed| == |files[file]|
    ensures AllProposed(texts, files, specs, reports[..], file, proposed)
    ensures NothingElse(texts, files, specs, reports[..], file, proposed)
  {
    AttachPatchPlans(texts, files, specs, reports);
    PlanningIsDone(texts, files, specs, old(reports[..]), reports[..]);
    var plans := CollectPlans(reports[..], file);
    PlannedChangesPass(texts, files, specs, reports[..], file);
    var document := new Document(files[file]);
    applied := BuildProposal(document, plans);
    proposed := document.nodes;
    ghost var merged :| IsMerge(Flatten(plans), Some(merged)) && applied.value == Effective(merged);
    AllEffective(merged);
    ProposedTexts(texts, files, specs, reports[..], file, proposed);
    NothingElseProposed(texts, files, specs, reports[..], file, proposed);
  }

  // ----- the dry run shows the proposal -----

  ghost predicate DifferentPaths(changes: seq<Change>) {
    forall i, j :: 0 <= i < j < |changes| ==> changes[i].path != changes[j].path
  }

  /** Each change is for the value that is there, and changes it. */
  ghost predicate Effectual(nodes: Doc, changes: seq<Change>) {
    forall c :: c in changes ==> Checked(nodes, c) && c.current != c.recommended
  }

  lemma NothingMade(nodes: Doc)
    ensures Reached(nodes, nodes, [])
  {
  }

  lemma EffectualIsSelectable(nodes: Doc, changes: seq<Change>)
    requires Effectual(nodes, changes)
    ensures Selectable(nodes, changes)
  {
  }

  /** Changes made in turn at different paths are made as if at once. */
  lemma {:induction false} InTurnIsAtOnce(nodes: Doc, changes: seq<Change>)
    requires DifferentPaths(changes) && Effectual(nodes, changes)
    ensures Selectable(nodes, changes) && Reached(nodes, SetAll(nodes, changes), changes)
  {
    EffectualIsSelectable(nodes, changes);
    if changes == [] {
      NothingMade(nodes);
    } else {
      var front, c := changes[..|changes| - 1], changes[|changes| - 1];
      LastDiffers(changes);
      LastOfEffectual(nodes, changes);
      InTurnIsAtOnce(nodes, front);
      SetLast(nodes, changes);
      OneMoreInTurn(nodes, SetAll(nodes, front), front, c);
    }
  }

  lemma LastOfEffectual(nodes: Doc, changes: seq<Change>)
    requires Effectual(nodes, changes) && changes != []
    ensures Effectual(nodes, changes[..|changes| - 1]) && Effectual(nodes, [changes[|changes| - 1]])
  {
  }

  lemma SetLast(nodes: Doc, changes: seq<Change>)
    requires Selectable(nodes, changes) && changes != []
    ensures var front, c := changes[..|changes| - 1], changes[|changes| - 1];
      && Selectable(nodes, front) && ScalarAt(SetAll(nodes, front), c.path).Found?
      && SetAll(nodes, changes) == Set(SetAll(nodes, front), c.path, c.recommended, AsString(c))
  {
    assert changes[|changes| - 1] in changes;
  }

  lemma LastDiffers(changes: seq<Change>)
    requires DifferentPaths(changes) && changes != []
    ensures var front, c := changes[..|changes| - 1], changes[|changes| - 1];
      changes == front + [c] && DifferentPaths(front) && forall e :: e in front ==> e.path != c.path
  {
  }

  lemma OneMoreInTurn(nodes: Doc, before: Doc, made: seq<Change>, c: Change)
    requires Reached(nodes, before, made) && Effectual(nodes, [c])
    requires forall e :: e in made ==> e.path != c.path
    ensures ScalarAt(before, c.path).Found?
    ensures Reached(nodes, Set(before, c.path, c.recommended, AsString(c)), made + [c])
  {
    assert c in [c];
    StillThere(nodes, before, made, c);
    ChangedLookups(nodes, before, c);
    assert ScalarAt(before, c.path) == ScalarAt(nodes, c.path);
    OneMoreMade(nodes, before, Set(before, c.path, c.recommended, AsString(c)), made, c);
    OneMoreKept(nodes, before, Set(before, c.path, c.recommended, AsString(c)), made, c);
  }

  lemma AtOnceIsUnique(nodes: Doc, some: Nodes, other: Nodes, changes: seq<Change>)
    requires Simultaneous(nodes, some, changes) && Simultaneous(nodes, other, changes)
    ensures some == other
  {
    forall n: nat | n < |nodes| ensures some[n] == other[n] {
      if c :| c in changes && Targets(nodes, c, n) {
        assert some[n] == Replaced(nodes[n], c.recommended, AsString(c));
      } else {
        assert some[n] == nodes[n] == other[n];
      }
    }
  }

  lemma {:induction false} FieldsDiffer(texts: Texts, nodes: Doc, specs: seq<Spec>, k: nat, facts: Facts, n: nat)
    requires Owned(specs) && k < |specs| && specs[k].helm.Some? && specs[k].sourceFile != ""
    requires facts.stability.Some? && n <= 3
    ensures DifferentPaths(After(texts, nodes, specs[k], facts, n).changes)
    decreases n
  {
    if n > 0 {
      FieldsDiffer(texts, nodes, specs, k, facts, n - 1);
      OneMoreDiffers(texts, nodes, specs, k, facts, n - 1);
    }
  }

  lemma OneMoreDiffers(texts: Texts, nodes: Doc, specs: seq<Spec>, k: nat, facts: Facts, n: nat)
    requires Owned(specs) && k < |specs| && specs[k].helm.Some? && specs[k].sourceFile != ""
    requires facts.stability.Some? && n < 3 && DifferentPaths(After(texts, nodes, specs[k], facts, n).changes)
    ensures DifferentPaths(After(texts, nodes, specs[k], facts, n + 1).changes)
  {
    NextDiffers(texts, nodes, specs, k, facts, n);
    AfterField(texts, nodes, specs[k], facts, n);
    AppendDifferent(After(texts, nodes, specs[k], facts, n).changes, PlannedAt(texts, nodes, specs[k], facts, n));
  }

  /** The change planned for one field, if any. */
  ghost function PlannedAt(texts: Texts, nodes: Doc, spec: Spec, facts: Facts, slot: nat): (planned: seq<Change>)
    requires spec.helm.Some? && facts.stability.Some?
    ensures |planned| <= 1
  {
    if !Wished(spec, facts, slot) then []
    else
      var answer := Answered(nodes, WishAt(texts, spec, facts, slot));
      if answer.Planned? then [answer.change] else []
  }

  lemma AfterField(texts: Texts, nodes: Doc, spec: Spec, facts: Facts, n: nat)
    requires spec.helm.Some? && facts.stability.Some? && n < 3
    ensures After(texts, nodes, spec, facts, n + 1).changes
         == After(texts, nodes, spec, facts, n).changes + PlannedAt(texts, nodes, spec, facts, n)
  {
    if Wished(spec, facts, n) {
      var w := WishAt(texts, spec, facts, n);
      AddsOne(After(texts, nodes, spec, facts, n), w.field, Answered(nodes, w));
    }
  }

  lemma AddsOne(so: Progress, field: string, answer: Answer)
    ensures Add(so, field, answer).changes == so.changes + if answer.Planned? then [answer.change] else []
    ensures Add(so, field, answer).errors == so.errors + if answer.Wrong? then [answer.problem] else []
    ensures Add(so, field, answer).held == so.held + if answer.Held? then [field] else []
  {
  }

  lemma AppendDifferent(changes: seq<Change>, more: seq<Change>)
    requires DifferentPaths(changes) && |more| <= 1
    requires forall e, c :: e in changes && c in more ==> e.path != c.path
    ensures DifferentPaths(changes + more)
  {
  }

  lemma NextDiffers(texts: Texts, nodes: Doc, specs: seq<Spec>, k: nat, facts: Facts, n: nat)
    requires Owned(specs) && k < |specs| && specs[k].helm.Some? && specs[k].sourceFile != ""
    requires facts.stability.Some? && n < 3
    ensures forall e, c ::
      e in After(texts, nodes, specs[k], facts, n).changes && c in PlannedAt(texts, nodes, specs[k], facts, n)
      ==> e.path != c.path
  {
    forall e, c | e in After(texts, nodes, specs[k], facts, n).changes
                  && c in PlannedAt(texts, nodes, specs[k], facts, n) ensures e.path != c.path
    {
      var slot := ChangeHasSlot(texts, nodes, specs[k], facts, n, e);
      SlotsDiffer(texts, nodes, specs, k, facts, slot, n);
    }
  }

  lemma SlotsDiffer(texts: Texts, nodes: Doc, specs: seq<Spec>, k: nat, facts: Facts, slot: nat, other: nat)
    requires Owned(specs) && k < |specs| && specs[k].helm.Some? && specs[k].sourceFile != ""
    requires facts.stability.Some? && slot < other < 3
    requires Wished(specs[k], facts, slot) && Answered(nodes, WishAt(texts, specs[k], facts, slot)).Planned?
    requires Wished(specs[k], facts, other) && Answered(nodes, WishAt(texts, specs[k], facts, other)).Planned?
    ensures Answered(nodes, WishAt(texts, specs[k], facts, slot)).change.path
         != Answered(nodes, WishAt(texts, specs[k], facts, other)).change.path
  {
    WishHasPath(texts, specs[k], facts, slot);
    WishHasPath(texts, specs[k], facts, other);
    PlannedHasPath(nodes, WishAt(texts, specs[k], facts, slot));
    PlannedHasPath(nodes, WishAt(texts, specs[k], facts, other));
    if Fields(specs[k].helm.value)[slot] == Fields(specs[k].helm.value)[other] {
      FieldsAreDisjoint(specs, k, slot, k, other);
    }
  }

  lemma PlanIsEffectual(texts: Texts, nodes: Doc, spec: Spec, facts: Facts)
    requires spec.helm.Some? && facts.stability.Some?
    ensures Effectual(nodes, After(texts, nodes, spec, facts, 3).changes)
  {
    forall c | c in After(texts, nodes, spec, facts, 3).changes
      ensures Checked(nodes, c) && c.current != c.recommended
    {
      var slot := ChangeHasSlot(texts, nodes, spec, facts, 3, c);
      WishIsValid(texts, spec, facts, slot);
      AnsweredIsSound(nodes, WishAt(texts, spec, facts, slot));
    }
  }

  /** What a plan shows as its dry run is what the proposal makes of the file if it is the only plan. */
  lemma DryRunIsTheProposal(
      texts: Texts, files: Files, specs: seq<Spec>, k: nat, facts: Facts, dryRun: Nodes, proposed: Nodes)
    requires Owned(specs) && k < |specs| && specs[k].helm.Some?
    requires PlanOf(texts, files, specs[k], facts).needed
    ensures specs[k].sourceFile in files
    ensures var before, changes := files[specs[k].sourceFile], PlanOf(texts, files, specs[k], facts).changes;
      Follows(before, changes, dryRun) && Simultaneous(before, proposed, changes) ==> dryRun == proposed
  {
    var before, changes := files[specs[k].sourceFile], PlanOf(texts, files, specs[k], facts).changes;
    FieldsDiffer(texts, before, specs, k, facts, 3);
    PlanIsEffectual(texts, before, specs[k], facts);
    if Follows(before, changes, dryRun) && Simultaneous(before, proposed, changes) {
      InTurnIsAtOnce(before, changes);
      AtOnceIsUnique(before, dryRun, proposed, changes);
    }
  }

  // ----- workloads with one name -----

  function Twin(key: string): Spec {
    Spec("web", "values.yaml", Some(HelmPaths([key], [], [])), Scaling(true, false, false), "")
  }

  const TWINS := [Twin("a"), Twin("b")]

  /** `{a: 2, b: 2}` */
  const VALUES: Nodes := [
    Node(Mapping, "!!map", "", 0, "", [1, 2, 3, 4], None),
    Node(Scalar, "!!str", "a", 0, "", [], None), Node(Scalar, "!!int", "2", 0, "", [], None),
    Node(Scalar, "!!str", "b", 0, "", [], None), Node(Scalar, "!!int", "2", 0, "", [], None)]

  const SMALL := Texts(s => if s == "2" then Some(2) else None, _ => None, n => if n == 3 then "3" else "5")

  function Growing(recommended: int): Facts {
    Facts("web", false, Some(Stability(true, true, true)), false, false, [], 2, recommended, "", "", "", "")
  }

  /** One mapping with scalar values. */
  ghost predicate Flat(nodes: Nodes) {
    && |nodes| == 5 && nodes[ROOT].kind == Mapping && nodes[ROOT].content == [1, 2, 3, 4] && nodes[ROOT].anchor == ""
    && forall n :: 0 < n < 5 ==> nodes[n].kind == Scalar && nodes[n].content == [] && nodes[n].anchor == ""
  }

  lemma FlatIsTree(nodes: Nodes)
    requires Flat(nodes)
    ensures Tree(nodes)
  {
    assert forall n, i {:trigger ChildAt(nodes, n, i)} :: ChildAt(nodes, n, i) ==>
      n == 0 && nodes[n].content[i] == i + 1;
  }

  lemma FlatScalar(nodes: Doc, first: string, second: string)
    requires Flat(nodes) && nodes[1].value == first && nodes[3].value == second && first != second
    requires PlainKey(nodes[1]) && PlainKey(nodes[3]) && nodes[4].tag != "!!null"
    ensures ScalarAt(nodes, [second]) == Found(4)
  {
    var content := nodes[ROOT].content;
    assert KeyAt(nodes, content, 0) == nodes[1] && KeyAt(nodes, content, 1) == nodes[3];
    assert Positions(nodes, content, 1, second) == Positions(nodes, content, 0, second);
    assert AllPositions(nodes, content, second) == [3];
    assert [second][1..] == [];
    assert Select(nodes, 4, []) == Found(4);
  }

  lemma ValuesAreFlat()
    ensures Flat(VALUES) && PlainKey(VALUES[1]) && PlainKey(VALUES[3])
  {
  }

  lemma BIsThere(nodes: Doc)
    requires nodes == VALUES
    ensures ScalarAt(nodes, ["b"]) == Found(4)
  {
    ValuesAreFlat();
    assert "a"[0] != "b"[0];
    FlatScalar(nodes, "a", "b");
  }

  lemma TwinsAreOwned()
    ensures Owned(TWINS)
  {
    assert TWINS[..1] == [Twin("a")] && TWINS[..1][..0] == [];
    assert FieldClaims("values.yaml", Fields(HelmPaths(["a"], [], [])), 3) == [Claim("values.yaml", ["a"])];
    assert FieldClaims("values.yaml", Fields(HelmPaths(["b"], [], [])), 3) == [Claim("values.yaml", ["b"])];
    assert Claims(TWINS) == [Claim("values.yaml", ["a"]), Claim("values.yaml", ["b"])];
    assert ["a"][0] != ["b"][0];
  }

  /** A workload of which only the replicas are scaled, and which may be scaled now. */
  ghost predicate Scales(texts: Texts, nodes: Doc, spec: Spec, facts: Facts, current: string) {
    && spec.helm.Some? && spec.helm.value.replicas != [] && spec.scaling == Scaling(true, false, false)
    && spec.sourceFile != "" && !facts.blocked && !facts.unsettled
    && facts.stability.Some? && facts.stability.value.replicas
    && nodes[ROOT].kind == Mapping && ScalarAt(nodes, spec.helm.value.replicas).Found?
    && nodes[ScalarAt(nodes, spec.helm.value.replicas).node].value == current
    && CountAccepted(texts, current, facts.currentReplicas)
    && current != texts.format(facts.recommendedReplicas)
    && !SameCount(texts, current, texts.format(facts.recommendedReplicas))
  }

  function Scaled(texts: Texts, path: seq<string>, facts: Facts, current: string): Change {
    Change(REPLICAS, path, "replace", current, texts.format(facts.recommendedReplicas))
  }

  lemma ScalesReplicas(texts: Texts, nodes: Doc, spec: Spec, facts: Facts, current: string)
    requires Scales(texts, nodes, spec, facts, current)
    ensures After(texts, nodes, spec, facts, 3).changes
         == [Scaled(texts, spec.helm.value.replicas, facts, current)]
    ensures After(texts, nodes, spec, facts, 3).errors == []
  {
    var so := After(texts, nodes, spec, facts, 1);
    assert After(texts, nodes, spec, facts, 0) == Progress([], [], []) && Wished(spec, facts, 0);
    assert Answered(nodes, WishAt(texts, spec, facts, 0))
        == Planned(Scaled(texts, spec.helm.value.replicas, facts, current));
    assert so.errors == [] && so.changes == [Scaled(texts, spec.helm.value.replicas, facts, current)];
    assert After(texts, nodes, spec, facts, 2) == so;
  }

  lemma ScaledIsPlanned(
      texts: Texts, files: Files, specs: seq<Spec>, k: nat, reports: seq<Report>, r: nat, facts: Facts, current: string)
    requires k < |specs| && LastNamed(specs, facts.name) == Some(k) && specs[k].sourceFile in files
    requires Scales(texts, files[specs[k].sourceFile], specs[k], facts, current)
    requires r < |reports| && reports[r] == Attached(texts, files, specs, Report(facts, None))
    ensures reports[r].facts == facts
    ensures Plans(reports, specs[k].sourceFile, r, Scaled(texts, specs[k].helm.value.replicas, facts, current))
  {
    ScalesReplicas(texts, files[specs[k].sourceFile], specs[k], facts, current);
    var plan := PlanOf(texts, files, specs[k], facts);
    assert plan.changes == After(texts, files[specs[k].sourceFile], specs[k], facts, 3).changes;
    assert plan.changes[0] in plan.changes;
  }

  ghost function Pair(texts: Texts, files: Files, specs: seq<Spec>, some: Facts, other: Facts): seq<Report> {
    [Attached(texts, files, specs, Report(some, None)), Attached(texts, files, specs, Report(other, None))]
  }

  lemma PairIsPlanned(texts: Texts, files: Files, specs: seq<Spec>, some: Facts, other: Facts)
    ensures ArePlanned(texts, files, specs, Pair(texts, files, specs, some, other))
  {
  }

  lemma TwoPlansCollide(reports: seq<Report>, file: string, r: nat, s: nat, c: Change, d: Change)
    requires Plans(reports, file, r, c) && Plans(reports, file, s, d) && c.path == d.path && c != d
    ensures !Compatible(Flatten(PlansFor(reports, file)))
  {
    PlansAreCollected(reports, file, r, c);
    PlansAreCollected(reports, file, s, d);
  }

  /**
   * Two reports of one name that want different counts: both are planned at the path of the last workload with the
   * name, and the proposal for the file fails.
   */
  lemma NamesakesCollide(
      texts: Texts, files: Files, specs: seq<Spec>, k: nat, some: Facts, other: Facts, current: string)
    requires k < |specs| && specs[k].sourceFile in files && some.name == other.name
    requires LastNamed(specs, some.name) == Some(k)
    requires Scales(texts, files[specs[k].sourceFile], specs[k], some, current)
    requires Scales(texts, files[specs[k].sourceFile], specs[k], other, current)
    requires texts.format(some.recommendedReplicas) != texts.format(other.recommendedReplicas)
    ensures var reports := Pair(texts, files, specs, some, other);
      ArePlanned(texts, files, specs, reports) && !Compatible(Flatten(PlansFor(reports, specs[k].sourceFile)))
  {
    var reports := Pair(texts, files, specs, some, other);
    PairIsPlanned(texts, files, specs, some, other);
    ScaledIsPlanned(texts, files, specs, k, reports, 0, some, current);
    ScaledIsPlanned(texts, files, specs, k, reports, 1, other, current);
    var path := specs[k].helm.value.replicas;
    TwoPlansCollide(reports, specs[k].sourceFile, 0, 1, Scaled(texts, path, some, current),
                    Scaled(texts, path, other, current));
  }

  lemma TwinsScale(nodes: Doc, recommended: int)
    requires recommended in {3, 5} && nodes == VALUES
    ensures Scales(SMALL, nodes, Twin("b"), Growing(recommended), "2")
  {
    BIsThere(nodes);
    assert "3"[0] != "2"[0] && "5"[0] != "2"[0];
  }

  /** Such a profile passes the check of its ownership. */
  lemma TwinsCollide(files: Files)
    requires "values.yaml" in files && files["values.yaml"] == VALUES
    ensures Owned(TWINS) && LastNamed(TWINS, "web") == Some(1)
    ensures var reports := Pair(SMALL, files, TWINS, Growing(3), Growing(5));
      ArePlanned(SMALL, files, TWINS, reports) && !Compatible(Flatten(PlansFor(reports, "values.yaml")))
  {
    TwinsAreOwned();
    TwinsScale(files["values.yaml"], 3);
    TwinsScale(files["values.yaml"], 5);
    assert "3"[0] != "5"[0];
    NamesakesCollide(SMALL, files, TWINS, 1, Growing(3), Growing(5), "2");
  }

  /** And such a file exists. */
  lemma ValuesAreTree()
    ensures Tree(VALUES)
  {
    ValuesAreFlat();
    FlatIsTree(VALUES);
  }
}
