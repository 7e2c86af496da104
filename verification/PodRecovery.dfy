/**
 * Recreating a failed pod (internal/recovery/recovery.go, internal/kube/client.go): a check, a reservation and a
 * conditional delete, while other writers change the cluster between any two API calls.
 */
module PodRecovery {
  import opened Options
  import opened Timestamps
  import opened Limiters
  import opened StateStore

  // ----- pods -----

  /** Times are missing where Kubernetes has a zero time. */
  datatype Termination = Termination(exitCode: int, finishedAt: Option<int>)

  datatype ContainerStatus = ContainerStatus(
    name: string, ready: bool, terminated: Option<Termination>, waiting: Option<string>, last: Option<Termination>)

  datatype OwnerRef = OwnerRef(apiVersion: string, kind: string, controller: bool)

  datatype Condition = Condition(kind: string, status: string)

  datatype Pod = Pod(
    uid: string, version: string, deleting: bool, owners: seq<OwnerRef>, conditions: seq<Condition>,
    containers: seq<ContainerStatus>)

  /** The position of the first element that satisfies `p`. */
  ghost predicate FirstAt<T>(s: seq<T>, p: T -> bool, i: int) {
    0 <= i < |s| && p(s[i]) && forall k :: 0 <= k < i ==> !p(s[k])
  }

  const IS_READY := (c: Condition) => c.kind == "Ready"
  const IS_CONTROLLER := (o: OwnerRef) => o.controller

  ghost predicate Ready(pod: Pod) {
    exists i :: FirstAt(pod.conditions, IS_READY, i) && pod.conditions[i].status == "True"
  }

  ghost predicate OfReplicaSet(pod: Pod) {
    exists i :: FirstAt(pod.owners, IS_CONTROLLER, i)
                && pod.owners[i].apiVersion == "apps/v1" && pod.owners[i].kind == "ReplicaSet"
  }

  /** How the container ended, or how it ended before it went into its crash loop. */
  function Ended(status: ContainerStatus): Option<Termination> {
    if status.terminated.None? && status.waiting == Some("CrashLoopBackOff") then status.last else status.terminated
  }

  function NotReady(container: string): ContainerStatus -> bool {
    (s: ContainerStatus) => s.name == container && !s.ready
  }

  /** The pod is not being deleted, not ready, and the container failed at this time. */
  ghost predicate Failed(pod: Pod, container: string, at: Option<int>) {
    && !pod.deleting && !Ready(pod)
    && exists i :: FirstAt(pod.containers, NotReady(container), i) && FailedWith(pod.containers[i], at)
  }

  predicate FailedWith(status: ContainerStatus, at: Option<int>) {
    Ended(status).Some? && Ended(status).value.exitCode != 0 && Ended(status).value.finishedAt == at
  }

  method PodReady(pod: Pod) returns (ready: bool)
    ensures ready <==> Ready(pod)
  {
    for i := 0 to |pod.conditions|
      invariant forall k :: 0 <= k < i ==> !IS_READY(pod.conditions[k])
    {
      if pod.conditions[i].kind == "Ready" {
        assert FirstAt(pod.conditions, IS_READY, i);
        return pod.conditions[i].status == "True";
      }
    }
    return false;
  }

  method ControlledByReplicaSet(pod: Pod) returns (controlled: bool)
    ensures controlled <==> OfReplicaSet(pod)
  {
    for i := 0 to |pod.owners|
      invariant forall k :: 0 <= k < i ==> !IS_CONTROLLER(pod.owners[k])
    {
      if pod.owners[i].controller {
        assert FirstAt(pod.owners, IS_CONTROLLER, i);
        return pod.owners[i].apiVersion == "apps/v1" && pod.owners[i].kind == "ReplicaSet";
      }
    }
    return false;
  }

  method CurrentPodFailure(pod: Pod, container: string) returns (failed: bool, at: Option<int>)
    ensures failed ==> Failed(pod, container, at) && forall t :: Failed(pod, container, t) ==> t == at
    ensures !failed ==> forall t :: !Failed(pod, container, t)
  {
    at := None;
    var ready := PodReady(pod);
    if pod.deleting || ready {
      return false, at;
    }
    for i := 0 to |pod.containers|
      invariant forall k :: 0 <= k < i ==> !NotReady(container)(pod.containers[k])
    {
      var status := pod.containers[i];
      if status.name != container || status.ready {
        continue;
      }
      assert FirstAt(pod.containers, NotReady(container), i);
      var terminated := status.terminated;
      if terminated.None? && status.waiting == Some("CrashLoopBackOff") {
        terminated := status.last;
      }
      if terminated.None? || terminated.value.exitCode == 0 {
        return false, at;
      }
      return true, terminated.value.finishedAt;
    }
    return false, at;
  }

  // ----- the API server -----

  datatype Name = Name(namespace_: string, pod: string)

  datatype Change = Put(name: Name, pod: Pod) | Remove(name: Name)

  /** What happens at one API call: first the changes of other writers, then the call, unless it fails; and its
      answer may be lost, as in a timeout. */
  datatype Turn = Turn(changes: seq<Change>, fails: bool, lost: bool)

  /**
   * A delete that the server accepted: for which workload of the report, what had been read before, what was
   * there, the reservations at that moment, and whether the engine got the answer.
   */
  datatype Deletion = Deletion(
    workload: nat, name: Name, read: Pod, found: Pod, reservations: seq<Row>, answered: bool)

  function Appended(ds: seq<Deletion>, d: Option<Deletion>): seq<Deletion> {
    if d.Some? then ds + [d.value] else ds
  }

  ghost predicate Keeps(before: map<string, Pod>, after: map<string, Pod>) {
    forall v :: v in before ==> v in after && after[v] == before[v]
  }

  class Cluster {
    var pods: map<Name, Pod>
    /** The turns to come. Everything is proved for every schedule. */
    var schedule: seq<Turn>
    /** What each resource version stands for. A version is assigned once. */
    var versions: map<string, Pod>
    ghost var deletions: seq<Deletion>

    ghost predicate Valid()
      reads this
    {
      && "" !in versions
      && forall n :: n in pods ==>
           pods[n].uid != "" && pods[n].version in versions && versions[pods[n].version] == pods[n]
    }

    /** The server assigns the identifiers: a write takes an unused version. */
    method Write(change: Change)
      requires Valid()
      modifies this`pods, this`versions
      ensures Valid() && Keeps(old(versions), versions)
    {
      match change
      case Remove(name) =>
        pods := pods - {name};
      case Put(name, pod) =>
        if pod.uid != "" && pod.version != "" && pod.version !in versions {
          pods, versions := pods[name := pod], versions[pod.version := pod];
        }
    }

    method TakeTurn() returns (fails: bool, lost: bool)
      requires Valid()
      modifies this`pods, this`versions, this`schedule
      ensures Valid() && Keeps(old(versions), versions)
      ensures old(schedule) == [] ==>
        !fails && !lost && pods == old(pods) && versions == old(versions) && schedule == []
      ensures lost ==> old(schedule) != [] && old(schedule)[0].lost
    {
      if schedule == [] {
        return false, false;
      }
      var turn := schedule[0];
      schedule, fails, lost := schedule[1..], turn.fails, turn.lost;
      for i := 0 to |turn.changes|
        invariant Valid() && Keeps(old(versions), versions)
      {
        Write(turn.changes[i]);
      }
    }

    method GetPod(name: Name) returns (fails: bool, pod: Option<Pod>)
      requires Valid()
      modifies this`pods, this`versions, this`schedule
      ensures Valid() && Keeps(old(versions), versions)
      ensures pod == if !fails && name in pods then Some(pods[name]) else None
      ensures old(schedule) == [] ==> !fails && pods == old(pods) && versions == old(versions) && schedule == []
    {
      var lost;
      fails, lost := TakeTurn();
      fails := fails || lost;
      pod := if !fails && name in pods then Some(pods[name]) else None;
    }

    /** Empty identifiers are no preconditions. A lost answer reads like a failure. */
    method DeletePod(
        name: Name, uid: string, version: string, ghost workload: nat, ghost read: Pod, ghost rows: seq<Row>)
      returns (ok: bool, ghost d: Option<Deletion>)
      requires Valid()
      modifies this
      ensures Valid() && Keeps(old(versions), versions)
      ensures deletions == Appended(old(deletions), d)
      ensures ok <==> d.Some? && d.value.answered
      ensures d.Some? && !d.value.answered ==> old(schedule) != [] && old(schedule)[0].lost
      ensures d.Some? ==>
        && d.value.workload == workload && d.value.name == name && d.value.read == read && d.value.reservations == rows
        && (uid != "" ==> d.value.found.uid == uid)
        && (version in old(versions) ==> d.value.found == old(versions)[version])
      ensures old(schedule) == [] && name in old(pods) ==>
        (old(pods)[name].uid == uid && old(pods)[name].version == version ==> ok)
      ensures old(schedule) == [] ==> schedule == [] && pods == if ok then old(pods) - {name} else old(pods)
    {
      d := None;
      var fails, lost := TakeTurn();
      if fails || name !in pods {
        return false, d;
      }
      if (uid != "" && pods[name].uid != uid) || (version != "" && pods[name].version != version) {
        return false, d;
      }
      d := Some(Deletion(workload, name, read, pods[name], rows, !lost));
      deletions := deletions + [d.value];
      pods := pods - {name};
      return !lost, d;
    }
  }

  // ----- the recovery step -----

  datatype FailedPod = FailedPod(name: string, uid: string, container: string, failedAt: Option<int>)

  datatype Reason =
    Disabled | DisabledByPolicy | WithinGrace | Gone | RecheckFailed | Replaced | NotOfReplicaSet | HasRecovered
    | NoDatabase | Refused(decision: Decision) | Rejected | Recreated

  datatype Result = Result(enabled: bool, pod: string, attempted: bool, succeeded: bool, reason: Reason)

  /** A workload of the report. */
  datatype Report = Report(
    name: string, namespace_: string, emergency: bool, failedPods: seq<FailedPod>, recovery: Option<Result>)

  /** Durations are missing where the policy has none or one that does not parse. */
  datatype Policy = Policy(enabled: bool, grace: Option<int>, cooldown: Option<int>, maxAttempts: int)

  datatype Settings = Settings(enabled: bool, application: string, now: int, policies: map<string, Policy>)

  const MINUTE := 60 * NANOS_PER_SECOND

  function Grace(p: Policy): int {
    if p.grace.Some? then p.grace.value else 2 * MINUTE
  }

  function Cooldown(p: Policy): int {
    if p.cooldown.Some? then p.cooldown.value else 5 * MINUTE
  }

  predicate Overdue(at: Option<int>, now: int, grace: int) {
    at.Some? && now - at.value >= grace
  }

  /** The first pod of the list that failed long enough ago. */
  ghost predicate IsCandidate(pods: seq<FailedPod>, i: int, now: int, grace: int) {
    && 0 <= i < |pods| && Overdue(pods[i].failedAt, now, grace)
    && forall k :: 0 <= k < i ==> !Overdue(pods[k].failedAt, now, grace)
  }

  method RecoveryCandidate(pods: seq<FailedPod>, now: int, grace: int) returns (candidate: Option<FailedPod>)
    ensures candidate.None? ==> forall p :: p in pods ==> !Overdue(p.failedAt, now, grace)
    ensures candidate.Some? ==> exists i :: IsCandidate(pods, i, now, grace) && candidate.value == pods[i]
  {
    for i := 0 to |pods|
      invariant forall k :: 0 <= k < i ==> !Overdue(pods[k].failedAt, now, grace)
    {
      if pods[i].failedAt.None? || now - pods[i].failedAt.value < grace {
        continue;
      }
      assert IsCandidate(pods, i, now, grace);
      return Some(pods[i]);
    }
    return None;
  }

  function KeyOf(report: Report, settings: Settings): Key {
    Key(settings.application, report.namespace_, report.name)
  }

  function RequestOf(report: Report, settings: Settings, p: Policy): Request {
    Request(KeyOf(report, settings), settings.now, Cooldown(p), Attempts(p.maxAttempts))
  }

  /** The workload takes part: an emergency, enabled for the engine and by its policy. */
  predicate Eligible(report: Report, settings: Settings) {
    report.emergency && settings.enabled && report.name in settings.policies && settings.policies[report.name].enabled
  }

  /** The pod is still the failed pod of a Deployment's ReplicaSet, and has been for the grace period. */
  ghost predicate StillFailing(pod: Pod, container: string, settings: Settings, p: Policy) {
    OfReplicaSet(pod) && exists at :: Failed(pod, container, at) && Overdue(at, settings.now, Grace(p))
  }

  /** The report names the pod as failed, and it is failing still. */
  ghost predicate Failing(pod: Pod, name: string, report: Report, settings: Settings, p: Policy) {
    exists f :: f in report.failedPods && f.name == name && (f.uid != "" ==> pod.uid == f.uid)
                && StillFailing(pod, f.container, settings, p)
  }

  /** The candidate of the report is there and failing still. */
  ghost predicate Recoverable(pods: map<Name, Pod>, report: Report, settings: Settings, p: Policy) {
    exists i :: IsCandidate(report.failedPods, i, settings.now, Grace(p))
                && MayRecreate(pods, report.failedPods[i], report, settings, p)
  }

  ghost predicate MayRecreate(pods: map<Name, Pod>, f: FailedPod, report: Report, settings: Settings, p: Policy) {
    var name := Name(report.namespace_, f.name);
    name in pods && (f.uid != "" ==> pods[name].uid == f.uid) && StillFailing(pods[name], f.container, settings, p)
  }

  lemma OneCandidate(pods: seq<FailedPod>, i: int, j: int, now: int, grace: int)
    requires IsCandidate(pods, i, now, grace) && IsCandidate(pods, j, now, grace)
    ensures i == j
  {
  }

  /** The pod that the report calls the first overdue one. */
  ghost function Victim(report: Report, settings: Settings, p: Policy): (name: Name)
    ensures forall i :: IsCandidate(report.failedPods, i, settings.now, Grace(p)) ==>
      name == Name(report.namespace_, report.failedPods[i].name)
  {
    if exists i :: IsCandidate(report.failedPods, i, settings.now, Grace(p)) then
      var i :| IsCandidate(report.failedPods, i, settings.now, Grace(p));
      Name(report.namespace_, report.failedPods[i].name)
    else Name(report.namespace_, "")
  }

  /** The reason why a pod may be deleted, all of it true at the moment of the deletion. */
  ghost predicate Justified(d: Deletion, report: Report, settings: Settings) {
    && Eligible(report, settings)
    && d.found == d.read
    && d.name.namespace_ == report.namespace_
    && Failing(d.found, d.name.pod, report, settings, settings.policies[report.name])
    && Reserved(d.reservations, KeyOf(report, settings), settings.now)
  }

  ghost predicate Reserved(rows: seq<Row>, key: Key, now: int) {
    exists row :: row in rows && row.key == key && row.time == now && row.status == "reserved"
  }

  /** What speaks against the candidate. */
  ghost predicate Denied(
      reason: Reason, pods: map<Name, Pod>, f: FailedPod, report: Report, settings: Settings, p: Policy)
  {
    var name := Name(report.namespace_, f.name);
    if name in pods then DeniedPod(reason, pods[name], f, settings, p) else reason == Gone
  }

  ghost predicate DeniedPod(reason: Reason, pod: Pod, f: FailedPod, settings: Settings, p: Policy) {
    match reason
    case Replaced => f.uid != "" && pod.uid != f.uid
    case NotOfReplicaSet => !OfReplicaSet(pod)
    case HasRecovered => forall at :: !Failed(pod, f.container, at)
    case WithinGrace => exists at :: Failed(pod, f.container, at) && !Overdue(at, settings.now, Grace(p))
    case _ => false
  }

  /** Whether the pod is the one that was reported, and failing still. */
  method Inspect(pod: Pod, f: FailedPod, settings: Settings, p: Policy) returns (reason: Reason)
    ensures reason == Recreated <==> (f.uid != "" ==> pod.uid == f.uid) && StillFailing(pod, f.container, settings, p)
    ensures reason != Recreated ==> DeniedPod(reason, pod, f, settings, p)
  {
    if f.uid != "" && pod.uid != f.uid {
      return Replaced;
    }
    var controlled := ControlledByReplicaSet(pod);
    if !controlled {
      return NotOfReplicaSet;
    }
    var failed, at := CurrentPodFailure(pod, f.container);
    if !failed {
      return HasRecovered;
    }
    if at.None? || settings.now - at.value < Grace(p) {
      return WithinGrace;
    }
    return Recreated;
  }

  /** Whether the first overdue pod may still be recreated, as read from the server just now. */
  method Recheck(cluster: Cluster, report: Report, settings: Settings, p: Policy)
    returns (reason: Reason, name: Name, live: Option<Pod>)
    requires cluster.Valid()
    modifies cluster`pods, cluster`versions, cluster`schedule
    ensures cluster.Valid()
    ensures reason == Recreated <==> live.Some?
    ensures reason != Rejected && !reason.Refused?
    ensures live.Some? ==>
      && live.value.version in cluster.versions && cluster.versions[live.value.version] == live.value
      && name.namespace_ == report.namespace_
      && Failing(live.value, name.pod, report, settings, p)
    ensures old(cluster.schedule) == [] ==>
      && cluster.schedule == [] && cluster.pods == old(cluster.pods)
      && (live.Some? <==> Recoverable(cluster.pods, report, settings, p))
      && (live.None? ==>
            || (reason == WithinGrace && forall i :: !IsCandidate(report.failedPods, i, settings.now, Grace(p)))
            || exists i :: IsCandidate(report.failedPods, i, settings.now, Grace(p))
                           && Denied(reason, cluster.pods, report.failedPods[i], report, settings, p))
      && (live.Some? ==>
            name in cluster.pods && cluster.pods[name] == live.value && name == Victim(report, settings, p))
  {
    name, live := Name(report.namespace_, ""), None;
    var candidate := RecoveryCandidate(report.failedPods, settings.now, Grace(p));
    if candidate.None? {
      return WithinGrace, name, live;
    }
    var c := candidate.value;
    ghost var i :| IsCandidate(report.failedPods, i, settings.now, Grace(p)) && c == report.failedPods[i];
    forall j | IsCandidate(report.failedPods, j, settings.now, Grace(p)) ensures j == i {
      OneCandidate(report.failedPods, i, j, settings.now, Grace(p));
    }
    name := name.(pod := c.name);
    var fails, pod := cluster.GetPod(name);
    if fails {
      return RecheckFailed, name, live;
    }
    if pod.None? {
      return Gone, name, live;
    }
    reason := Inspect(pod.value, c, settings, p);
    if reason != Recreated {
      return;
    }
    return Recreated, name, pod;
  }

  /** The recoveries after an attempt: reserved, then completed. */
  function Attempted(rows: seq<Row>, id: int, r: Request, succeeded: bool): seq<Row> {
    Completed(AfterReserve(RECOVERIES, rows, id, r), id, if succeeded then "succeeded" else "failed")
  }

  /** A granted attempt leaves one new row, with its outcome. */
  lemma AttemptedMeans(rows: seq<Row>, id: int, r: Request, succeeded: bool)
    requires DecideRecovery(RECOVERIES, rows, r.key, r.now, r.cooldown, r.maxPerHour).Granted?
    requires forall row :: row in rows ==> row.id != id
    ensures Attempted(rows, id, r, succeeded)
         == rows + [Row(id, r.key, r.now, if succeeded then "succeeded" else "failed", false)]
  {
    var reserved := AfterReserve(RECOVERIES, rows, id, r);
    assert reserved == rows + [Row(id, r.key, r.now, "reserved", false)];
    forall i | 0 <= i < |rows| ensures Attempted(rows, id, r, succeeded)[i] == rows[i] {
      assert reserved[i] == rows[i] && rows[i] in rows;
    }
  }

  // ----- without other writers -----

  /** The pods of the cluster and the recoveries of the store. */
  datatype World = World(pods: map<Name, Pod>, rows: seq<Row>, nextId: int)

  /** The pod of the workload is due, and the limiter grants an attempt. */
  ghost predicate Recovers(w: World, report: Report, settings: Settings) {
    && Eligible(report, settings)
    && Recoverable(w.pods, report, settings, settings.policies[report.name])
    && Grants(w.rows, report, settings, settings.policies[report.name])
  }

  predicate Grants(rows: seq<Row>, report: Report, settings: Settings, p: Policy) {
    DecisionOn(rows, report, settings, p) == Granted
  }

  function DecisionOn(rows: seq<Row>, report: Report, settings: Settings, p: Policy): Decision {
    DecideRecovery(RECOVERIES, rows, KeyOf(report, settings), settings.now, Cooldown(p), Attempts(p.maxAttempts))
  }

  /**
   * Who takes part and what the limiter grants, written out. Without a cooldown in the policy it is five minutes, and
   * without a limit there are six attempts an hour.
   */
  lemma RecoversExactly(w: World, report: Report, settings: Settings, p: Policy)
    requires report.name in settings.policies && p == settings.policies[report.name]
    ensures var key, cooldown := Key(settings.application, report.namespace_, report.name),
                                 if p.cooldown.Some? then p.cooldown.value else 300000000000;
      Recovers(w, report, settings)
      <==> && report.emergency && settings.enabled && p.enabled
           && Recoverable(w.pods, report, settings, p)
           && (cooldown > 0 ==> forall r :: r in w.rows && r.key == key ==> r.time + cooldown <= settings.now)
           && |AttemptsSince(w.rows, key, settings.now - 3600000000000)|
              < if p.maxAttempts <= 0 then 6 else p.maxAttempts
  {
    GrantedExactly(w.rows, KeyOf(report, settings), settings.now, Cooldown(p), Attempts(p.maxAttempts));
  }

  /** The container failed long enough ago, or did so before the crash loop that it is in. */
  predicate FailedLongAgo(s: ContainerStatus, now: int, grace: int) {
    var ended := if s.terminated.None? && s.waiting == Some("CrashLoopBackOff") then s.last else s.terminated;
    !s.ready && ended.Some? && ended.value.exitCode != 0
    && ended.value.finishedAt.Some? && now - ended.value.finishedAt.value >= grace
  }

  /** A pod that may be recreated belongs to a ReplicaSet, is not ready, and its container failed a grace period ago. */
  lemma RecreatedPodsQualify(pods: map<Name, Pod>, f: FailedPod, report: Report, settings: Settings, p: Policy)
    requires MayRecreate(pods, f, report, settings, p)
    ensures Name(report.namespace_, f.name) in pods
    ensures var pod := pods[Name(report.namespace_, f.name)];
      && !pod.deleting && (f.uid != "" ==> pod.uid == f.uid)
      && OwnerRef("apps/v1", "ReplicaSet", true) in pod.owners
      && (pod.conditions != [] ==> pod.conditions[0] != Condition("Ready", "True"))
      && exists s :: s in pod.containers && s.name == f.container
                     && FailedLongAgo(s, settings.now, if p.grace.Some? then p.grace.value else 120000000000)
  {
    var pod := pods[Name(report.namespace_, f.name)];
    var i :| FirstAt(pod.owners, IS_CONTROLLER, i)
             && pod.owners[i].apiVersion == "apps/v1" && pod.owners[i].kind == "ReplicaSet";
    assert pod.owners[i] == OwnerRef("apps/v1", "ReplicaSet", true);
    var at :| Failed(pod, f.container, at) && Overdue(at, settings.now, Grace(p));
    var k :| FirstAt(pod.containers, NotReady(f.container), k) && FailedWith(pod.containers[k], at);
    assert FailedLongAgo(pod.containers[k], settings.now, Grace(p));
    assert pod.conditions != [] && pod.conditions[0].kind == "Ready" ==> FirstAt(pod.conditions, IS_READY, 0);
  }

  const SCHEDULED := Condition("PodScheduled", "True")
  const NOT_READY := Condition("Ready", "False")
  const SIDECAR := ContainerStatus("proxy", true, None, None, None)

  /** A pod of a Deployment that crashes again and again, the last time then. */
  function Crashing(uid: string, version: string, at: int): Pod {
    Pod(uid, version, false, [OwnerRef("apps/v1", "ReplicaSet", true)], [SCHEDULED, NOT_READY],
        [SIDECAR, ContainerStatus("app", false, None, Some("CrashLoopBackOff"), Some(Termination(1, Some(at))))])
  }

  /** Under a policy without any numbers such a pod is recreated after two minutes, if it is the one reported. */
  lemma CrashingPodRecovers(
      w: World, report: Report, settings: Settings, first: FailedPod, f: FailedPod, uid: string, version: string,
      at: int)
    requires Name(report.namespace_, f.name) in w.pods
    requires w.pods[Name(report.namespace_, f.name)] == Crashing(uid, version, at)
    requires first.failedAt.None? && f.container == "app" && f.failedAt == Some(at)
    requires report.failedPods == [first, f]
    requires report.name in settings.policies && settings.policies[report.name] == Policy(true, None, None, 0)
    ensures Recoverable(w.pods, report, settings, settings.policies[report.name])
       <==> f.uid in {"", uid} && settings.now >= at + 120000000000
    ensures Victim(report, settings, settings.policies[report.name])
         == Name(report.namespace_, if settings.now >= at + 120000000000 then f.name else "")
  {
    var p, pod := settings.policies[report.name], Crashing(uid, version, at);
    assert FirstAt(pod.owners, IS_CONTROLLER, 0);
    assert FirstAt(pod.conditions, IS_READY, 1);
    assert FirstAt(pod.containers, NotReady("app"), 1);
    assert Failed(pod, "app", Some(at));
    assert StillFailing(pod, "app", settings, p) <==> Overdue(Some(at), settings.now, Grace(p));
    if Overdue(f.failedAt, settings.now, Grace(p)) {
      assert IsCandidate(report.failedPods, 1, settings.now, Grace(p));
    }
  }

  /** The pod is deleted, and the attempt is on record as a success. */
  ghost function Recovered(w: World, report: Report, settings: Settings): World
    requires report.name in settings.policies
  {
    var p := settings.policies[report.name];
    World(w.pods - {Victim(report, settings, p)},
          Attempted(w.rows, w.nextId, RequestOf(report, settings, p), true), w.nextId + 1)
  }

  /** What the workloads before the `n`-th leave behind. */
  ghost function Before(w: World, reports: seq<Report>, settings: Settings, n: nat): World
    requires n <= |reports|
  {
    if n == 0 then w else Next(Before(w, reports, settings, n - 1), reports[n - 1], settings)
  }

  ghost function Next(w: World, report: Report, settings: Settings): World {
    if Recovers(w, report, settings) then Recovered(w, report, settings) else w
  }

  /** One workload. `watched` and `limit` are any workload and any limit that all policies respect. */
  method RecoverWorkload(
      cluster: Cluster, store: Store?, report: Report, settings: Settings, ghost index: nat, ghost watched: Key,
      ghost limit: int)
    returns (result: Result, ghost d: Option<Deletion>)
    requires cluster.Valid() && report.emergency && report.name in settings.policies
    requires KeyOf(report, settings) == watched ==> Attempts(settings.policies[report.name].maxAttempts) <= limit
    modifies cluster, store
    ensures cluster.Valid()
    ensures cluster.deletions == Appended(old(cluster.deletions), d)
    ensures result.succeeded <==> d.Some? && d.value.answered
    ensures d.Some? ==> result.attempted && d.value.workload == index && Justified(d.value, report, settings)
    ensures d.Some? ==> result.pod == d.value.name.pod
    ensures result.enabled <==> settings.enabled && settings.policies[report.name].enabled
    ensures result.reason == Recreated <==> result.succeeded
    ensures result.reason == Rejected <==> result.attempted && !result.succeeded
    ensures result.reason.Refused? ==>
      && store != null
      && result.reason.decision
         == DecisionOn(old(store.recoveries), report, settings, settings.policies[report.name])
    ensures old(cluster.schedule) == [] ==> cluster.schedule == []
    ensures old(cluster.schedule) == [] && store == null ==> cluster.pods == old(cluster.pods)
    ensures old(cluster.schedule) == [] && store != null ==>
      && WorldOf(cluster, store) == Next(old(WorldOf(cluster, store)), report, settings)
      && (result.succeeded <==> Recovers(old(WorldOf(cluster, store)), report, settings))
      && (d.Some? ==> d.value.answered && d.value.name == Victim(report, settings, settings.policies[report.name]))
    ensures result.attempted ==>
      && Eligible(report, settings) && store != null
      && Grants(old(store.recoveries), report, settings, settings.policies[report.name])
    ensures store != null ==>
      store.recoveries == if result.attempted then Attempted(old(store.recoveries), old(store.nextRecovery),
                                                            RequestOf(report, settings,
                                                                      settings.policies[report.name]),
                                                            result.succeeded)
                          else old(store.recoveries)
    ensures store != null && AllAdmitted(RECOVERIES, old(store.recoveries), watched, HOUR, limit) ==>
      AllAdmitted(RECOVERIES, store.recoveries, watched, HOUR, limit)
  {
    var p := settings.policies[report.name];
    result, d := Result(settings.enabled && p.enabled, "", false, false, Disabled), None;
    if !settings.enabled {
      return;
    }
    if !p.enabled {
      return result.(reason := DisabledByPolicy), d;
    }
    var reason, name, live := Recheck(cluster, report, settings, p);
    result := result.(pod := name.pod, reason := reason);
    if live.None? {
      return;
    }
    if store == null {
      return result.(reason := NoDatabase), d;
    }
    ghost var before, nextId := store.recoveries, store.nextRecovery;
    var decision, ok;
    decision, ok, d := Recreate(cluster, store, RequestOf(report, settings, p), name, live.value, index);
    if decision.Granted? {
      result := result.(attempted := true, succeeded := ok, reason := if ok then Recreated else Rejected);
      AttemptedAdmitted(before, nextId, RequestOf(report, settings, p), ok, watched, limit);
    } else {
      result := result.(reason := Refused(decision));
    }
  }

  /** The attempt is reserved, the pod is deleted if it is still the one that was read, and the outcome recorded. */
  method Recreate(cluster: Cluster, store: Store, request: Request, name: Name, live: Pod, ghost index: nat)
    returns (decision: Decision, ok: bool, ghost d: Option<Deletion>)
    requires cluster.Valid() && live.version in cluster.versions && cluster.versions[live.version] == live
    modifies cluster, store
    ensures cluster.Valid() && cluster.deletions == Appended(old(cluster.deletions), d)
    ensures decision == DecideRecovery(RECOVERIES, old(store.recoveries), request.key, request.now, request.cooldown,
                                       request.maxPerHour)
    ensures !decision.Granted? ==>
      !ok && d.None? && cluster.pods == old(cluster.pods) && cluster.schedule == old(cluster.schedule)
      && store.recoveries == old(store.recoveries) && store.nextRecovery == old(store.nextRecovery)
    ensures decision.Granted? ==>
      && store.recoveries == Attempted(old(store.recoveries), old(store.nextRecovery), request, ok)
      && store.nextRecovery == old(store.nextRecovery) + 1
    ensures ok <==> d.Some? && d.value.answered
    ensures d.Some? ==>
      && d.value.workload == index && d.value.name == name && d.value.read == live && d.value.found == live
      && Reserved(d.value.reservations, request.key, request.now)
    ensures old(cluster.schedule) == [] ==> cluster.schedule == [] && (d.Some? ==> d.value.answered)
    ensures old(cluster.schedule) == [] && decision.Granted? ==>
      (name in old(cluster.pods) && old(cluster.pods)[name] == live ==>
         ok && cluster.pods == old(cluster.pods) - {name})
  {
    d, ok := None, false;
    ghost var before, nextId := store.recoveries, store.nextRecovery;
    var id;
    decision, id := store.Reserve(request);
    if decision.Granted? {
      ReservedRow(before, nextId, request);
      ok, d := cluster.DeletePod(name, live.uid, live.version, index, live, store.recoveries);
      store.Complete(id, if ok then "succeeded" else "failed");
    }
  }

  lemma AttemptedAdmitted(rows: seq<Row>, id: int, r: Request, succeeded: bool, watched: Key, limit: int)
    requires r.key == watched ==> Attempts(r.maxPerHour) <= limit
    ensures AllAdmitted(RECOVERIES, rows, watched, HOUR, limit) ==>
      AllAdmitted(RECOVERIES, Attempted(rows, id, r, succeeded), watched, HOUR, limit)
  {
    if AllAdmitted(RECOVERIES, rows, watched, HOUR, limit) {
      ReserveAdmitted(RECOVERIES, rows, id, r, watched, limit);
      CompletedAdmitted(RECOVERIES, AfterReserve(RECOVERIES, rows, id, r), id,
                        if succeeded then "succeeded" else "failed", watched, limit);
    }
  }

  lemma ReservedRow(rows: seq<Row>, id: int, r: Request)
    requires DecideRecovery(RECOVERIES, rows, r.key, r.now, r.cooldown, r.maxPerHour).Granted?
    ensures Reserved(AfterReserve(RECOVERIES, rows, id, r), r.key, r.now)
  {
    var row := Row(id, r.key, r.now, "reserved", false);
    assert AfterReserve(RECOVERIES, rows, id, r) == rows + [row];
    assert (rows + [row])[|rows|] == row;
  }

  // ----- the whole report -----

  /** Deletions were made for ever later workloads: at most one for each. */
  ghost predicate Increasing(ds: seq<Deletion>) {
    forall i, j :: 0 <= i < j < |ds| ==> ds[i].workload < ds[j].workload
  }

  predicate SaysAttempted(report: Report) {
    report.recovery.Some? && report.recovery.value.attempted
  }

  predicate SaysSucceeded(report: Report) {
    report.recovery.Some? && report.recovery.value.succeeded
  }

  /** For the workloads before `n`, the report says that exactly the answered deletions of one call succeeded. */
  ghost predicate Accounted(ds: seq<Deletion>, reports: seq<Report>, n: nat)
    requires n <= |reports|
  {
    && Increasing(ds)
    && (forall i :: 0 <= i < |ds| ==> ds[i].workload < n)
    && (forall w :: 0 <= w < n ==> (SaysSucceeded(reports[w]) <==> Answered(ds, w)))
  }

  /** A deletion was made for the workload, and the engine knows. */
  ghost predicate Answered(ds: seq<Deletion>, w: nat) {
    exists i :: 0 <= i < |ds| && ds[i].workload == w && ds[i].answered
  }

  ghost predicate AllJustified(ds: seq<Deletion>, reports: seq<Report>, settings: Settings) {
    forall i :: 0 <= i < |ds| ==>
      && ds[i].workload < |reports| && SaysAttempted(reports[ds[i].workload])
      && Justified(ds[i], reports[ds[i].workload], settings)
  }

  ghost predicate Respects(reports: seq<Report>, settings: Settings, watched: Key, limit: int) {
    forall r :: r in reports && KeyOf(r, settings) == watched && r.name in settings.policies ==>
      Attempts(settings.policies[r.name].maxAttempts) <= limit
  }

  /** A workload gets a report of its recovery exactly if it is in an emergency and has a policy. */
  ghost predicate Reported(before: Report, after: Report, settings: Settings) {
    && after == before.(recovery := after.recovery)
    && (after.recovery.Some? <==> before.emergency && before.name in settings.policies)
  }

  /** In the world left by the workloads before it, it recovers exactly if the report says so. */
  ghost predicate SaysWhetherRecovered(w: World, before: Report, after: Report, settings: Settings) {
    SaysSucceeded(after) <==> Recovers(w, before, settings)
  }

  /** For the first `n` workloads. The deletions are theirs, each of the pod that was due. */
  ghost predicate Undisturbed(
      w: World, before: seq<Report>, after: seq<Report>, ds: seq<Deletion>, settings: Settings, n: nat)
  {
    && n <= |before| == |after|
    && (forall i :: 0 <= i < n ==> SaysWhetherRecovered(Before(w, before, settings, i), before[i], after[i], settings))
    && (forall i :: 0 <= i < |ds| ==> OfVictim(ds[i], before, settings))
  }

  ghost predicate OfVictim(d: Deletion, reports: seq<Report>, settings: Settings) {
    && d.workload < |reports| && reports[d.workload].name in settings.policies && d.answered
    && d.name == Victim(reports[d.workload], settings, settings.policies[reports[d.workload].name])
  }

  lemma UndisturbedStep(
      w: World, reports: seq<Report>, before: seq<Report>, after: seq<Report>, ds: seq<Deletion>, d: Option<Deletion>,
      settings: Settings, n: nat)
    requires Undisturbed(w, reports, before, ds, settings, n) && n < |before| == |after|
    requires forall k :: 0 <= k < |before| && k != n ==> after[k] == before[k]
    requires SaysWhetherRecovered(Before(w, reports, settings, n), reports[n], after[n], settings)
    requires d.Some? ==> OfVictim(d.value, reports, settings)
    ensures Undisturbed(w, reports, after, Appended(ds, d), settings, n + 1)
  {
  }

  ghost function WorldOf(cluster: Cluster, store: Store?): World
    reads cluster, store
  {
    if store == null then World(cluster.pods, [], 0)
    else World(cluster.pods, store.recoveries, store.nextRecovery)
  }

  /** There are no other writers, and the first `n` workloads are done. */
  ghost predicate OnTrack(
      cluster: Cluster, store: Store?, start: World, given: seq<Report>, reports: seq<Report>, ds: seq<Deletion>,
      settings: Settings, n: nat)
    reads cluster, store
  {
    && cluster.schedule == [] && n <= |given|
    && (store == null ==> cluster.pods == start.pods)
    && (store != null ==>
          && WorldOf(cluster, store) == Before(start, given, settings, n)
          && Undisturbed(start, given, reports, ds, settings, n))
  }

  /** No workload has a report of a recovery yet. */
  ghost predicate Unreported(reports: seq<Report>) {
    forall i :: 0 <= i < |reports| ==> reports[i].recovery.None?
  }

  /** One workload of the report, and the deletion made for it, if any. */
  method RecoverAt(
      cluster: Cluster, store: Store?, reports: array<Report>, i: nat, settings: Settings, ghost watched: Key,
      ghost limit: int)
    returns (ghost d: Option<Deletion>)
    requires cluster.Valid() && i < reports.Length && reports[i].recovery.None?
    requires Respects([reports[i]], settings, watched, limit)
    modifies cluster, store, reports
    ensures cluster.Valid() && cluster.deletions == Appended(old(cluster.deletions), d)
    ensures forall k :: 0 <= k < reports.Length && k != i ==> reports[k] == old(reports[k])
    ensures Reported(old(reports[i]), reports[i], settings)
    ensures old(cluster.schedule) == [] ==> cluster.schedule == []
    ensures old(cluster.schedule) == [] && store == null ==> cluster.pods == old(cluster.pods)
    ensures old(cluster.schedule) == [] && store != null ==>
      && WorldOf(cluster, store) == Next(old(WorldOf(cluster, store)), old(reports[i]), settings)
      && SaysWhetherRecovered(old(WorldOf(cluster, store)), old(reports[i]), reports[i], settings)
      && (d.Some? ==> OfVictim(d.value, old(reports[..]), settings))
    ensures d.Some? && d.value.answered <==> SaysSucceeded(reports[i])
    ensures d.Some? ==>
      && store != null && d.value.workload == i
      && SaysAttempted(reports[i]) && Justified(d.value, reports[i], settings)
    ensures store != null ==>
      |old(store.recoveries)| + (if d.Some? then 1 else 0) <= |store.recoveries| <= |old(store.recoveries)| + 1
    ensures store != null && AllAdmitted(RECOVERIES, old(store.recoveries), watched, HOUR, limit) ==>
      AllAdmitted(RECOVERIES, store.recoveries, watched, HOUR, limit)
  {
    var report := reports[i];
    assert report in [reports[i]];
    d := None;
    if report.emergency && report.name in settings.policies {
      var result;
      result, d := RecoverWorkload(cluster, store, report, settings, i, watched, limit);
      reports[i] := report.(recovery := Some(result));
    }
  }

  /** The first `n` workloads are done, with these deletions. */
  ghost predicate Done(ds: seq<Deletion>, reports: seq<Report>, n: nat, settings: Settings)
    requires n <= |reports|
  {
    Accounted(ds, reports, n) && AllJustified(ds, reports, settings)
  }

  /** The first `n` reports say whether there was a recovery, and the others are as given. */
  ghost predicate Reporting(given: seq<Report>, reports: seq<Report>, n: nat, settings: Settings) {
    && n <= |given| == |reports|
    && (forall i :: 0 <= i < n ==> Reported(given[i], reports[i], settings))
    && (forall i :: n <= i < |given| ==> reports[i] == given[i])
  }

  /** One more workload. */
  method RecoverNext(
      cluster: Cluster, store: Store?, reports: array<Report>, i: nat, settings: Settings, ghost watched: Key,
      ghost limit: int, ghost ds: seq<Deletion>, ghost start: World, ghost given: seq<Report>)
    returns (ghost more: seq<Deletion>)
    requires cluster.Valid() && i < reports.Length && Done(ds, reports[..], i, settings)
    requires Reporting(given, reports[..], i, settings) && Unreported(given)
    requires Respects(given, settings, watched, limit)
    modifies cluster, store, reports
    ensures cluster.Valid() && Done(more, reports[..], i + 1, settings)
    ensures old(OnTrack(cluster, store, start, given, reports[..], ds, settings, i)) ==>
      OnTrack(cluster, store, start, given, reports[..], more, settings, i + 1)
    ensures forall front :: old(cluster.deletions) == front + ds ==> cluster.deletions == front + more
    ensures Reporting(given, reports[..], i + 1, settings)
    ensures store == null ==> more == ds
    ensures store != null ==>
      |old(store.recoveries)| + |more| - |ds| <= |store.recoveries| <= |old(store.recoveries)| + 1
    ensures store != null && AllAdmitted(RECOVERIES, old(store.recoveries), watched, HOUR, limit) ==>
      AllAdmitted(RECOVERIES, store.recoveries, watched, HOUR, limit)
  {
    ghost var before := reports[..];
    assert reports[i] == given[i] && given[i] in given;
    ghost var d := RecoverAt(cluster, store, reports, i, settings, watched, limit);
    more := Appended(ds, d);
    AccountedStep(ds, before, i, d, reports[..]);
    JustifiedStep(ds, before, i, d, reports[..], settings);
    if store != null && old(OnTrack(cluster, store, start, given, reports[..], ds, settings, i)) {
      UndisturbedStep(start, given, before, reports[..], ds, d, settings, i);
    }
    forall front ensures Appended(front + ds, d) == front + more {
      AppendedAssociates(front, ds, d);
    }
  }

  /** For every schedule of other writers and every recovery limit that is respected. */
  method Apply(
      cluster: Cluster, store: Store?, reports: array<Report>, settings: Settings, ghost watched: Key, ghost limit: int)
    returns (ghost ds: seq<Deletion>)
    requires cluster.Valid() && Respects(reports[..], settings, watched, limit)
    requires Unreported(reports[..])
    modifies cluster, store, reports
    ensures cluster.Valid() && cluster.deletions == old(cluster.deletions) + ds
    ensures Done(ds, reports[..], reports.Length, settings)
    ensures Reporting(old(reports[..]), reports[..], reports.Length, settings)
    ensures old(cluster.schedule) == [] && store == null ==> cluster.pods == old(cluster.pods)
    ensures old(cluster.schedule) == [] && store != null ==>
      && WorldOf(cluster, store) == Before(old(WorldOf(cluster, store)), old(reports[..]), settings, reports.Length)
      && Undisturbed(old(WorldOf(cluster, store)), old(reports[..]), reports[..], ds, settings, reports.Length)
    ensures store == null ==> ds == []
    ensures store != null ==> |ds| <= |store.recoveries| - |old(store.recoveries)| <= reports.Length
    ensures store != null && AllAdmitted(RECOVERIES, old(store.recoveries), watched, HOUR, limit) ==>
      AllAdmitted(RECOVERIES, store.recoveries, watched, HOUR, limit)
  {
    ds := [];
    ghost var rows := reports[..];
    ghost var start := WorldOf(cluster, store);
    for i := 0 to reports.Length
      invariant cluster.Valid() && cluster.deletions == old(cluster.deletions) + ds
      invariant Reporting(rows, reports[..], i, settings)
      invariant old(cluster.schedule) == [] ==>
        OnTrack(cluster, store, start, rows, reports[..], ds, settings, i)
      invariant Done(ds, reports[..], i, settings)
      invariant store == null ==> ds == []
      invariant store != null ==> |ds| <= |store.recoveries| - |old(store.recoveries)| <= i
      invariant store != null && AllAdmitted(RECOVERIES, old(store.recoveries), watched, HOUR, limit) ==>
        AllAdmitted(RECOVERIES, store.recoveries, watched, HOUR, limit)
    {
      ds := RecoverNext(cluster, store, reports, i, settings, watched, limit, ds, start, rows);
    }
  }

  lemma AppendedAssociates(front: seq<Deletion>, ds: seq<Deletion>, d: Option<Deletion>)
    ensures Appended(front + ds, d) == front + Appended(ds, d)
  {
  }

  lemma AccountedStep(ds: seq<Deletion>, before: seq<Report>, n: nat, d: Option<Deletion>, after: seq<Report>)
    requires n < |before| == |after| && Accounted(ds, before, n)
    requires forall k :: 0 <= k < |before| && k != n ==> after[k] == before[k]
    requires d.Some? ==> d.value.workload == n
    requires d.Some? && d.value.answered <==> SaysSucceeded(after[n])
    ensures Accounted(Appended(ds, d), after, n + 1)
  {
    var more := Appended(ds, d);
    forall w | 0 <= w < n + 1 ensures SaysSucceeded(after[w]) <==> Answered(more, w) {
      if w < n && Answered(ds, w) {
        var i :| 0 <= i < |ds| && ds[i].workload == w && ds[i].answered;
        assert more[i].workload == w;
      } else if w == n && d.Some? {
        assert more[|ds|].workload == n;
      }
    }
  }

  lemma JustifiedStep(
      ds: seq<Deletion>, before: seq<Report>, n: nat, d: Option<Deletion>, after: seq<Report>, settings: Settings)
    requires n < |before| == |after| && AllJustified(ds, before, settings)
    requires forall i :: 0 <= i < |ds| ==> ds[i].workload < n
    requires forall k :: 0 <= k < |before| && k != n ==> after[k] == before[k]
    requires d.Some? ==>
      d.value.workload == n && SaysAttempted(after[n]) && Justified(d.value, after[n], settings)
    ensures AllJustified(Appended(ds, d), after, settings)
  {
  }
}
