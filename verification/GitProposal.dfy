/**
 * Committing and pushing a proposal (internal/analyzer/proposal.go), with push enabled, the target branch
 * checked out and present on the remote, and other writers pushing to it between any two remote operations.
 */
module GitProposal {
  import opened Options

  /** The files of a commit. */
  type Tree = map<string, string>

  /** A commit; the engine's know the files that they were built from. */
  datatype Commit = Foreign(id: nat, tree: Tree) | Proposed(id: nat, tree: Tree, base: Tree)

  type History = seq<Commit>

  /** What the plans of a report make of a checkout. */
  datatype Build = Refused | NotNeeded | Files(changed: Tree)

  /** What happens at one remote operation: first others push their commits, then it is done, or fails, or its
      answer is lost. */
  datatype Turn = Turn(pushed: seq<Tree>, fails: bool, lost: bool)

  /** The length of what two histories have in common. */
  function Common(a: History, b: History): (c: nat)
    ensures c <= |a| && c <= |b| && a[..c] == b[..c]
    ensures c < |a| && c < |b| ==> a[c] != b[c]
  {
    if a == [] || b == [] || a[0] != b[0] then 0
    else
      var c := 1 + Common(a[1..], b[1..]);
      assert a[..c] == [a[0]] + a[1..][..c - 1] && b[..c] == [b[0]] + b[1..][..c - 1];
      c
  }

  lemma CommonOfPrefix(a: History, b: History)
    ensures Common(a, b) == |a| <==> a <= b
    ensures Common(a, b) == |b| <==> b <= a
  {
    var c := Common(a, b);
    assert c == |a| ==> a == b[..c];
    assert c == |b| ==> b == a[..c];
    if a <= b {
      assert forall i :: 0 <= i < |a| ==> a[i] == b[i];
    }
    if b <= a {
      assert forall i :: 0 <= i < |b| ==> a[i] == b[i];
    }
  }

  /** Every commit of the engine directly follows the files that it was built from. */
  ghost predicate WellPlaced(history: History) {
    forall k :: 0 <= k < |history| && history[k].Proposed? ==> k > 0 && history[k].base == history[k - 1].tree
  }

  function Head(history: History): Commit
    requires history != []
  {
    history[|history| - 1]
  }

  class Repository {
    /** The branch on the remote, what was fetched of it, and the local branch. */
    var remote: History
    var tracking: History
    var local: History
    var worktree: Tree
    var nextId: nat
    /** The turns to come. Everything is proved for every schedule. */
    var schedule: seq<Turn>

    ghost predicate Valid()
      reads this
    {
      && remote != [] && tracking != [] && local != []
      && tracking <= remote
      && (local <= remote || HasUnpushed())
      && WellPlaced(remote) && WellPlaced(local)
    }

    /** One commit of the engine is not on the remote; it follows a head that was fetched. */
    ghost predicate HasUnpushed()
      reads this
    {
      local != [] && local[..|local| - 1] <= tracking && Head(local).Proposed?
    }

    predicate Clean()
      requires local != []
      reads this
    {
      worktree == Head(local).tree
    }

    /** Others only add commits. */
    method Others(trees: seq<Tree>)
      requires Valid()
      modifies this`remote, this`nextId
      ensures Valid() && old(remote) <= remote
      ensures trees == [] ==> remote == old(remote)
    {
      for i := 0 to |trees|
        invariant Valid() && old(remote) <= remote
        invariant i == 0 ==> remote == old(remote)
      {
        ghost var before := remote;
        remote, nextId := remote + [Foreign(nextId, trees[i])], nextId + 1;
        assert before <= remote;
      }
    }

    method TakeTurn() returns (fails: bool, lost: bool)
      requires Valid()
      modifies this`remote, this`nextId, this`schedule
      ensures Valid() && old(remote) <= remote
      ensures old(schedule) == [] ==>
        !fails && !lost && remote == old(remote) && schedule == [] && nextId == old(nextId)
    {
      if schedule == [] {
        return false, false;
      }
      var turn := schedule[0];
      schedule := schedule[1..];
      Others(turn.pushed);
      return turn.fails, turn.lost;
    }

    method Fetch() returns (ok: bool)
      requires Valid()
      modifies this`remote, this`nextId, this`schedule, this`tracking
      ensures Valid() && old(remote) <= remote && tracking == (if ok then remote else old(tracking))
      ensures old(schedule) == [] ==> ok && remote == old(remote) && schedule == [] && nextId == old(nextId)
    {
      var fails, lost := TakeTurn();
      ok := !fails && !lost;
      if ok {
        ghost var base := tracking;
        tracking := remote;
        assert base <= tracking;
      }
    }

    /** Fetches again, and replays what is only local on top. */
    method PullRebase() returns (ok: bool)
      requires Valid() && local <= tracking && Clean()
      modifies this`remote, this`nextId, this`schedule, this`tracking, this`local, this`worktree
      ensures Valid() && old(remote) <= remote && Clean()
      ensures ok ==> tracking == local == remote
      ensures !ok ==> local == old(local) && tracking == old(tracking)
      ensures old(schedule) == [] ==> ok && remote == old(remote) && schedule == [] && nextId == old(nextId)
    {
      ok := Fetch();
      if ok {
        local, worktree := remote, Head(remote).tree;
      }
    }

    /** A push is accepted if it only adds commits. */
    method Push() returns (ok: bool)
      requires Valid()
      modifies this`remote, this`nextId, this`schedule, this`tracking
      ensures Valid() && old(remote) <= remote
      ensures ok ==> tracking == remote == local
      ensures !ok ==> tracking == old(tracking)
      ensures old(schedule) == [] ==>
        && schedule == [] && nextId == old(nextId)
        && ok == (old(remote) <= local) && remote == if ok then local else old(remote)
    {
      var fails, lost := TakeTurn();
      if fails || !(remote <= local) {
        return false;
      }
      remote := local;
      if lost {
        return false;
      }
      tracking := local;
      return true;
    }

    method AheadBehind() returns (ahead: nat, behind: nat)
      ensures ahead == |local| - Common(local, tracking) && behind == |tracking| - Common(local, tracking)
    {
      var c := Common(local, tracking);
      return |local| - c, |tracking| - c;
    }

    /** Refuses to go on unless the local branch is the fetched one, with unpushed commits if they are allowed. */
    method EnsureRemoteFresh(allowAhead: bool) returns (ok: bool)
      requires Valid() && Clean()
      modifies this`remote, this`nextId, this`schedule, this`tracking, this`local, this`worktree
      ensures Valid() && old(remote) <= remote && Clean()
      ensures ok ==> tracking <= local && (!allowAhead ==> local == tracking)
      ensures ok ==> old(remote) <= tracking
      ensures local == old(local) || local == tracking
      ensures old(schedule) == [] ==> schedule == [] && nextId == old(nextId) && tracking == remote == old(remote)
      ensures old(schedule) == [] && old(local) <= old(remote) ==> ok && local == remote
      ensures old(schedule) == [] && !(old(local) <= old(remote)) ==>
        ok == (allowAhead && old(remote) <= old(local)) && local == old(local) && worktree == old(worktree)
    {
      ok := Fetch();
      if !ok {
        return;
      }
      assert tracking == remote;
      var ahead, behind := AheadBehind();
      CommonOfPrefix(local, tracking);
      if ahead > 0 && behind > 0 {
        return false;
      }
      if behind > 0 {
        ok := PullRebase();
        if !ok {
          return;
        }
        ahead, behind := AheadBehind();
        CommonOfPrefix(local, tracking);
        return !(behind > 0 || (ahead > 0 && !allowAhead));
      }
      return !(ahead > 0 && !allowAhead);
    }

    /** The changed files are committed, unless that fails and leaves them uncommitted. */
    method Commit(changed: Tree, fails: bool) returns (ok: bool)
      requires Valid() && Clean() && local == tracking
      modifies this`local, this`worktree, this`nextId
      ensures Valid() && ok == !fails && (ok ==> local[..|local| - 1] == old(local))
      ensures worktree == changed && nextId == old(nextId) + if ok then 1 else 0
      ensures local == old(local) + if ok then [Proposed(old(nextId), changed, Head(old(local)).tree)] else []
    {
      worktree := changed;
      if fails {
        return false;
      }
      ghost var before := local;
      local, nextId := local + [Proposed(nextId, changed, Head(local).tree)], nextId + 1;
      assert local[..|local| - 1] == before;
      return true;
    }

    method CommitAndPush(changed: Tree, commitFails: bool) returns (committed: bool, pushed: bool)
      requires Valid() && Clean() && local == tracking
      modifies this`local, this`worktree, this`nextId, this`remote, this`tracking, this`schedule
      ensures Valid() && old(remote) <= remote && committed == !commitFails
      ensures local == old(local) + if committed then [Proposed(old(nextId), changed, Head(old(local)).tree)] else []
      ensures pushed ==> committed && local == remote == tracking
      ensures worktree == changed
      ensures old(schedule) == [] && old(local) == old(remote) ==>
        && schedule == [] && pushed == committed && (!committed ==> remote == old(remote))
        && nextId == old(nextId) + if committed then 1 else 0
    {
      pushed := false;
      committed := Commit(changed, commitFails);
      if committed {
        pushed := Push();
      }
    }

    /** What was committed, or pushed only, and whether the push was reported to have succeeded. */
    method WriteProposalCommit(build: Tree -> Build, commitFails: bool) returns (committed: bool, pushed: bool)
      requires Valid()
      modifies this
      ensures Valid() && old(remote) <= remote
      ensures Once(committed, build, old(local), old(remote))
      ensures pushed ==> committed && local == remote == tracking
      ensures old(schedule) == [] ==>
        schedule == [] && committed == pushed
        && (committed <==>
              && old(Clean()) && old(local) <= old(remote) && build(Head(old(remote)).tree).Files? && !commitFails)
        && remote == (if committed then old(Extended(build)) else old(remote))
        && nextId == old(nextId) + if committed then 1 else 0
      ensures old(schedule) == [] && !(old(Clean()) && old(local) <= old(remote)) ==>
        local == old(local) && worktree == old(worktree)
      ensures old(schedule) == [] && old(Clean()) && old(local) <= old(remote) ==>
        && local == remote
        && worktree == (if build(Head(old(remote)).tree).Files? then build(Head(old(remote)).tree).changed
                        else Head(old(remote)).tree)
    {
      committed, pushed := false, false;
      if !Clean() {
        return;
      }
      var isFresh := EnsureRemoteFresh(false);
      if !isFresh {
        return;
      }
      var refreshed := build(worktree);
      if !refreshed.Files? {
        return;
      }
      ghost var head := local;
      committed, pushed := CommitAndPush(refreshed.changed, commitFails);
      assert committed ==> local[..|local| - 1] == head;
    }

    /** The remote history with one more proposal, made from the files of its head and directly on that head. */
    ghost function Extended(build: Tree -> Build): History
      requires remote != [] && build(Head(remote).tree).Files?
      reads this
    {
      remote + [Proposed(nextId, build(Head(remote).tree).changed, Head(remote).tree)]
    }

    /**
     * A commit was made from the files of a head that was fetched in this call, and directly on that head; or
     * no commit was made.
     */
    ghost predicate Once(committed: bool, build: Tree -> Build, before: History, remoteBefore: History)
      reads this
    {
      if committed then
        && |local| >= 2 && Head(local).Proposed?
        && remoteBefore <= local[..|local| - 1] && local[..|local| - 1] <= remote
        && build(local[|local| - 2].tree) == Files(Head(local).tree)
      else local == before || local <= remote
    }

    /** Pushes a proposal that an earlier call could only commit. */
    method PublishExisting() returns (pushed: bool)
      requires Valid()
      modifies this
      ensures Valid() && old(remote) <= remote
      ensures local == old(local) || local <= remote
      ensures pushed ==> local == remote == tracking && Head(local).Proposed?
      ensures old(schedule) == [] ==>
        schedule == [] && pushed == (old(Clean()) && old(remote) <= old(local) && old(remote) != old(local))
        && remote == (if pushed then old(local) else old(remote)) && nextId == old(nextId)
      ensures old(schedule) == [] && old(Clean()) ==>
        Clean() && local == if old(local) <= old(remote) then old(remote) else old(local)
      ensures old(schedule) == [] && !old(Clean()) ==> local == old(local) && worktree == old(worktree)
    {
      pushed := false;
      if !Clean() {
        return;
      }
      var isFresh := EnsureRemoteFresh(true);
      if !isFresh {
        return;
      }
      var ahead, behind := AheadBehind();
      if ahead == 0 && behind == 0 {
        return;
      }
      CommonOfPrefix(local, tracking);
      if !Head(local).Proposed? {
        return;
      }
      pushed := Push();
    }

    /** Undisturbed, the branches are what the reports so far have made of them. */
    ghost predicate Follows(start: History, id: nat, reports: seq<(Tree -> Build, bool)>)
      requires start != [] && local != []
      reads this
    {
      && schedule == [] && local == remote == Published(start, id, reports)
      && nextId == id + |remote| - |start|
      && (Clean() <==> !Stopped(start, id, reports))
    }

    /** The engine may write: nothing uncommitted is in the way, and nothing is only local. */
    ghost predicate Ready()
      requires local != []
      reads this
    {
      Clean() && local <= remote
    }

    /** The plans want changes of what is checked out, and of the remote head. */
    ghost predicate Wanted(build: Tree -> Build)
      requires remote != []
      reads this
    {
      build(worktree).Files? && build(Head(remote).tree).Files?
    }

    /** The one commit that is only local waits to be pushed, and no more changes are needed. */
    ghost predicate Waiting(build: Tree -> Build)
      requires local != []
      reads this
    {
      build(worktree).NotNeeded? && Clean() && remote <= local && remote != local
    }

    /**
     * One reconcile. Where nobody interferes, a proposal is committed exactly if the engine may write and the plans
     * want changes, and it is pushed then; a commit that waits is pushed exactly if nothing else is needed; and
     * otherwise the remote stays as it is.
     */
    method CreateProposal(build: Tree -> Build, commitFails: bool) returns (committed: bool, pushed: bool)
      requires Valid()
      modifies this
      ensures Valid() && old(remote) <= remote
      ensures Once(committed, build, old(local), old(remote))
      ensures pushed ==> local == remote == tracking
      ensures old(schedule) == [] ==>
        && schedule == []
        && committed == (old(Ready()) && old(Wanted(build)) && !commitFails)
        && pushed == (committed || old(Waiting(build)))
        && remote == (if committed then old(Extended(build)) else if pushed then old(local) else old(remote))
        && nextId == old(nextId) + if committed then 1 else 0
      ensures old(schedule) == [] && old(Ready()) && !build(old(worktree)).Refused? ==>
        && local == remote
        && worktree == (if old(Wanted(build)) then build(Head(old(remote)).tree).changed else Head(old(remote)).tree)
      ensures old(schedule) == [] && (!old(Ready()) || build(old(worktree)).Refused?) ==>
        local == old(local) && worktree == old(worktree)
    {
      match build(worktree)
      case Refused =>
        committed, pushed := false, false;
      case NotNeeded =>
        committed := false;
        pushed := PublishExisting();
      case Files(_) =>
        committed, pushed := WriteProposalCommit(build, commitFails);
    }
  }

  /** What undisturbed reports make of the remote history: proposal upon proposal, until a commit fails. */
  ghost function Published(history: History, id: nat, reports: seq<(Tree -> Build, bool)>): (published: History)
    requires history != []
    ensures published != [] && history <= published
  {
    if reports == [] then history
    else
      var before := Published(history, id, reports[..|reports| - 1]);
      var (build, fails) := reports[|reports| - 1];
      if build(Head(before).tree).Files? && !fails && !Stopped(history, id, reports[..|reports| - 1])
      then before + [Proposed(id + |before| - |history|, build(Head(before).tree).changed, Head(before).tree)]
      else before
  }

  /** A commit has failed and left its changes in the worktree, where they are in the way of every later report. */
  ghost predicate Stopped(history: History, id: nat, reports: seq<(Tree -> Build, bool)>)
    requires history != []
  {
    reports != []
    && (var front := reports[..|reports| - 1];
        var (build, fails) := reports[|reports| - 1];
        var head := Head(Published(history, id, front)).tree;
        Stopped(history, id, front)
        || (fails && build(head).Files? && build(head).changed != head))
  }

  lemma PublishedStep(
      history: History, id: nat, front: seq<(Tree -> Build, bool)>, build: Tree -> Build, fails: bool)
    requires history != []
    ensures var before, stopped := Published(history, id, front), Stopped(history, id, front);
      var more := front + [(build, fails)];
      && Published(history, id, more)
         == (if build(Head(before).tree).Files? && !fails && !stopped
             then before + [Proposed(id + |before| - |history|, build(Head(before).tree).changed, Head(before).tree)]
             else before)
      && (Stopped(history, id, more)
          <==> stopped || (fails && build(Head(before).tree).Files?
                           && build(Head(before).tree).changed != Head(before).tree))
  {
    assert (front + [(build, fails)])[..|front|] == front;
  }

  method ReconcileOne(
      repository: Repository, build: Tree -> Build, fails: bool, ghost start: History, ghost id: nat,
      ghost front: seq<(Tree -> Build, bool)>)
    requires repository.Valid() && start != []
    modifies repository
    ensures repository.Valid() && old(repository.remote) <= repository.remote
    ensures old(repository.Follows(start, id, front)) ==> repository.Follows(start, id, front + [(build, fails)])
  {
    PublishedStep(start, id, front, build, fails);
    ghost var follows, ready := repository.Follows(start, id, front), repository.Ready();
    ghost var head := Head(repository.remote).tree;
    var committed, pushed := repository.CreateProposal(build, fails);
    if follows {
      assert ready <==> !Stopped(start, id, front);
      if !ready {
        assert !committed && !pushed;
      } else if !build(head).Files? {
        assert !committed;
      } else {
        assert committed <==> !fails;
      }
    }
  }

  /**
   * Whatever the reports, the other writers and the failures are: the remote history only grows. From a branch that
   * is up to date, and undisturbed, it grows by the proposals of the reports.
   */
  method Reconcile(repository: Repository, reports: seq<(Tree -> Build, bool)>)
    requires repository.Valid()
    modifies repository
    ensures repository.Valid() && old(repository.remote) <= repository.remote
    ensures old(repository.schedule == [] && repository.Clean() && repository.local == repository.remote) ==>
      repository.remote == Published(old(repository.remote), old(repository.nextId), reports)
  {
    ghost var start, id := repository.remote, repository.nextId;
    ghost var undisturbed := repository.schedule == [] && repository.Clean() && repository.local == repository.remote;
    for i := 0 to |reports|
      invariant repository.Valid() && start <= repository.remote
      invariant undisturbed ==> repository.Follows(start, id, reports[..i])
    {
      ReconcileOne(repository, reports[i].0, reports[i].1, start, id, reports[..i]);
      assert reports[..i + 1] == reports[..i] + [(reports[i].0, reports[i].1)];
    }
    assert reports[..|reports|] == reports;
  }

  /** At most one commit is not on the remote, it is the engine's, and it follows the head it was built from. */
  lemma UnpushedIsOneProposal(repository: Repository)
    requires repository.Valid()
    ensures |repository.local| - Common(repository.local, repository.remote) <= 1
    ensures !(repository.local <= repository.remote) ==>
      && Head(repository.local).Proposed? && |repository.local| >= 2
      && Head(repository.local).base == repository.local[|repository.local| - 2].tree
      && repository.local[..|repository.local| - 1] <= repository.remote
  {
    var local, remote := repository.local, repository.remote;
    if local <= remote {
      CommonOfPrefix(local, remote);
    } else {
      var front, c := local[..|local| - 1], Common(local, remote);
      assert forall i :: 0 <= i < |front| ==> local[i] == front[i] == remote[i];
    }
  }
}
