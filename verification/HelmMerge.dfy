/**
 * Applying the Helm changes of several plans to one values file (internal/analyzer/proposal.go).
 */
module HelmMerge {
  import opened Options
  import opened PatchFields
  import opened TextOrder
  import opened HelmTree

  datatype Change = Change(field: string, path: seq<string>, operation: string, current: string, recommended: string)

  // ----- paths -----

  function Compare(left: seq<string>, right: seq<string>): int {
    if left == [] || right == [] then if |left| < |right| then -1 else if |left| > |right| then 1 else 0
    else if Less(left[0], right[0]) then -1
    else if Less(right[0], left[0]) then 1
    else Compare(left[1..], right[1..])
  }

  method ComparePaths(left: seq<string>, right: seq<string>) returns (order: int)
    ensures order == Compare(left, right)
  {
    var length := if |right| < |left| then |right| else |left|;
    for i := 0 to length
      invariant Compare(left, right) == Compare(left[i..], right[i..])
    {
      if Less(left[i], right[i]) {
        return -1;
      }
      if Less(right[i], left[i]) {
        return 1;
      }
      assert left[i..][1..] == left[i + 1..] && right[i..][1..] == right[i + 1..];
    }
    return if |left| < |right| then -1 else if |left| > |right| then 1 else 0;
  }

  /** One path leads to a part of what the other leads to. */
  predicate Overlap(left: seq<string>, right: seq<string>) {
    left <= right || right <= left
  }

  /** One path goes on where the other one ends. */
  lemma OverlapMeans(left: seq<string>, right: seq<string>)
    ensures Overlap(left, right) <==> exists rest :: right == left + rest || left == right + rest
  {
    if left <= right {
      assert right == left + right[|left|..];
    }
    if right <= left {
      assert left == right + left[|right|..];
    }
  }

  method PathsOverlap(left: seq<string>, right: seq<string>) returns (overlap: bool)
    ensures overlap <==> Overlap(left, right)
  {
    var shorter := if |right| < |left| then |right| else |left|;
    for i := 0 to shorter
      invariant left[..i] == right[..i]
    {
      if left[i] != right[i] {
        return false;
      }
    }
    assert left[..shorter] == right[..shorter];
    return true;
  }

  lemma {:induction false} CompareIsOrder(a: seq<string>, b: seq<string>, c: seq<string>)
    ensures Compare(a, b) == 0 <==> a == b
    ensures Compare(a, b) == -Compare(b, a) && Compare(a, b) in {-1, 0, 1}
    ensures Compare(a, b) < 0 && Compare(b, c) < 0 ==> Compare(a, c) < 0
  {
    if a != [] && b != [] {
      LessTotal(a[0], b[0]);
      LessIrreflexive(a[0]);
      if Less(a[0], b[0]) && Less(b[0], a[0]) {
        LessTransitive(a[0], b[0], a[0]);
      }
      if c != [] {
        LessTotal(b[0], c[0]);
        if Less(a[0], b[0]) && Less(b[0], c[0]) {
          LessTransitive(a[0], b[0], c[0]);
        }
        LessIrreflexive(b[0]);
      }
      CompareIsOrder(a[1..], b[1..], if c == [] then [] else c[1..]);
      assert a == b <==> a[0] == b[0] && a[1..] == b[1..];
    }
  }

  // ----- merging the changes of several plans -----

  /** Whether the field takes a string; `None` for a field that cannot be changed this way. */
  function StringField(field: string): Option<bool> {
    if field == REPLICAS then Some(false)
    else if Sized(field) then Some(true)
    else None
  }

  /** The fields that can be changed, by their names: a count of replicas as a number, a request as a string. */
  lemma StringFieldMeans(field: string)
    ensures StringField(field) == Some(false) <==> field == "spec.replicas"
    ensures StringField(field) == Some(true)
       <==> || (exists path :: field == path + ".resources.requests.cpu")
            || exists path :: field == path + ".resources.requests.memory"
  {
    SizedMeans(field);
    if Sized(field) {
      SizedIsNotReplicas(field);
    }
  }

  predicate Valid(c: Change) {
    c.path != [] && c.operation == "replace" && StringField(c.field).Some?
  }

  predicate Before(a: Change, b: Change) {
    var order := Compare(a.path, b.path);
    if order != 0 then order < 0 else Less(a.field, b.field)
  }

  /** A stable sort. */
  function Insert(sorted: seq<Change>, c: Change): seq<Change> {
    if sorted == [] || !Before(c, sorted[|sorted| - 1]) then sorted + [c]
    else Insert(sorted[..|sorted| - 1], c) + [sorted[|sorted| - 1]]
  }

  function Sort(cs: seq<Change>): seq<Change> {
    if cs == [] then [] else Insert(Sort(cs[..|cs| - 1]), cs[|cs| - 1])
  }

  ghost predicate Ascending(cs: seq<Change>) {
    forall i, j :: 0 <= i < j < |cs| ==> Compare(cs[i].path, cs[j].path) <= 0
  }

  ghost predicate StrictlyAscending(cs: seq<Change>) {
    forall i, j :: 0 <= i < j < |cs| ==> Compare(cs[i].path, cs[j].path) < 0
  }

  ghost predicate SameChanges(a: seq<Change>, b: seq<Change>) {
    forall c :: c in a <==> c in b
  }

  lemma NotAfter(a: seq<string>, b: seq<string>, c: seq<string>)
    requires Compare(a, b) <= 0 && Compare(b, c) <= 0
    ensures Compare(a, c) <= 0
  {
    CompareIsOrder(a, b, c);
    CompareIsOrder(b, c, a);
  }

  lemma {:induction false} InsertSorts(sorted: seq<Change>, c: Change)
    requires Ascending(sorted)
    ensures Ascending(Insert(sorted, c)) && SameChanges(Insert(sorted, c), sorted + [c])
  {
    if sorted != [] {
      var front, last := sorted[..|sorted| - 1], sorted[|sorted| - 1];
      assert sorted == front + [last];
      CompareIsOrder(c.path, last.path, []);
      if Before(c, last) {
        InsertSorts(front, c);
        var inner := Insert(front, c);
        forall i | 0 <= i < |inner| ensures Compare(inner[i].path, last.path) <= 0 {
          assert inner[i] in front + [c];
        }
      } else {
        forall i | 0 <= i < |sorted| ensures Compare(sorted[i].path, c.path) <= 0 {
          CompareIsOrder(last.path, last.path, []);
          NotAfter(sorted[i].path, last.path, c.path);
        }
      }
    }
  }

  lemma {:induction false} SortSorts(cs: seq<Change>)
    ensures Ascending(Sort(cs)) && SameChanges(Sort(cs), cs)
  {
    if cs != [] {
      var front, last := cs[..|cs| - 1], cs[|cs| - 1];
      SortSorts(front);
      InsertSorts(Sort(front), last);
      assert cs == front + [last];
    }
  }

  /** Only equal changes overlap. */
  ghost predicate Compatible(cs: seq<Change>) {
    forall a, b :: a in cs && b in cs && Overlap(a.path, b.path) ==> a == b
  }

  function Flatten(plans: seq<seq<Change>>): seq<Change> {
    if plans == [] then [] else Flatten(plans[..|plans| - 1]) + plans[|plans| - 1]
  }

  /** The merged changes, each once and in path order, or nothing if one is invalid or two overlap. */
  ghost predicate IsMerge(changes: seq<Change>, merged: Option<seq<Change>>) {
    && (merged.Some? <==> (forall c :: c in changes ==> Valid(c)) && Compatible(changes))
    && (merged.Some? ==> StrictlyAscending(merged.value) && SameChanges(merged.value, changes))
  }

  method CollectChanges(plans: seq<seq<Change>>) returns (changes: Option<seq<Change>>)
    ensures changes.Some? <==> forall c :: c in Flatten(plans) ==> Valid(c)
    ensures changes.Some? ==> changes.value == Flatten(plans)
  {
    var collected := [];
    for i := 0 to |plans|
      invariant collected == Flatten(plans[..i])
      invariant forall c :: c in collected ==> Valid(c)
    {
      assert plans[..i + 1][..i] == plans[..i];
      for j := 0 to |plans[i]|
        invariant collected == Flatten(plans[..i]) + plans[i][..j]
        invariant forall c :: c in collected ==> Valid(c)
      {
        if !Valid(plans[i][j]) {
          InFlatten(plans, i, j);
          return None;
        }
        collected := collected + [plans[i][j]];
      }
      assert plans[i][..|plans[i]|] == plans[i];
    }
    assert plans[..|plans|] == plans;
    return Some(collected);
  }

  lemma {:induction false} InFlatten(plans: seq<seq<Change>>, i: nat, j: nat)
    requires i < |plans| && j < |plans[i]|
    ensures plans[i][j] in Flatten(plans)
  {
    if i < |plans| - 1 {
      InFlatten(plans[..|plans| - 1], i, j);
    }
  }

  ghost predicate Separate(cs: seq<Change>) {
    forall i, j :: 0 <= i < j < |cs| ==> !Overlap(cs[i].path, cs[j].path)
  }

  datatype Fit = Fresh | Duplicate | Conflict

  /** How a change fits with the merged ones so far. */
  method FitOf(merged: seq<Change>, c: Change) returns (fit: Fit)
    requires Separate(merged) && c.operation == "replace" && forall e :: e in merged ==> e.operation == "replace"
    ensures fit == Fresh ==> forall e :: e in merged ==> !Overlap(e.path, c.path)
    ensures fit == Duplicate ==> c in merged
    ensures fit == Conflict ==> exists e :: e in merged && Overlap(e.path, c.path) && e != c
  {
    for i := 0 to |merged|
      invariant forall k :: 0 <= k < i ==> !Overlap(merged[k].path, c.path)
    {
      var existing := merged[i];
      var overlap := PathsOverlap(existing.path, c.path);
      if !overlap {
        continue;
      }
      var order := ComparePaths(existing.path, c.path);
      CompareIsOrder(existing.path, c.path, []);
      if order == 0 && existing.field == c.field && existing.current == c.current
        && existing.recommended == c.recommended {
        assert existing == c;
        return Duplicate;
      }
      return Conflict;
    }
    return Fresh;
  }

  method MergedChanges(plans: seq<seq<Change>>) returns (merged: Option<seq<Change>>)
    ensures IsMerge(Flatten(plans), merged)
  {
    var collected := CollectChanges(plans);
    if collected.None? {
      return None;
    }
    SortSorts(collected.value);
    merged := Deduplicate(Sort(collected.value));
  }

  /** Merges sorted changes. */
  method Deduplicate(changes: seq<Change>) returns (merged: Option<seq<Change>>)
    requires Ascending(changes) && forall c :: c in changes ==> c.operation == "replace"
    ensures merged.Some? <==> Compatible(changes)
    ensures merged.Some? ==> StrictlyAscending(merged.value) && SameChanges(merged.value, changes)
  {
    var result := [];
    for i := 0 to |changes|
      invariant Collected(changes, i, result)
    {
      assert changes[i] in changes;
      CollectedSubset(changes, i, result);
      var fit := FitOf(result, changes[i]);
      match fit
      case Conflict =>
        return None;
      case Fresh =>
        AppendFresh(changes, i, result);
        result := result + [changes[i]];
      case Duplicate =>
        SkipDuplicate(changes, i, result);
    }
    assert changes[..|changes|] == changes;
    SeparateIsCompatible(result);
    return Some(result);
  }

  /** The first `i` changes, each once. */
  ghost predicate Collected(changes: seq<Change>, i: nat, result: seq<Change>)
    requires i <= |changes|
  {
    Separate(result) && Ascending(result) && SameChanges(result, changes[..i])
  }

  lemma CollectedSubset(changes: seq<Change>, i: nat, result: seq<Change>)
    requires i <= |changes| && Collected(changes, i, result)
    ensures forall e :: e in result ==> e in changes
  {
    forall e | e in result ensures e in changes {
      assert e in changes[..i];
    }
  }

  lemma SkipDuplicate(changes: seq<Change>, i: nat, result: seq<Change>)
    requires i < |changes| && Collected(changes, i, result) && changes[i] in result
    ensures Collected(changes, i + 1, result)
  {
    assert changes[..i + 1] == changes[..i] + [changes[i]];
  }

  lemma AppendFresh(changes: seq<Change>, i: nat, result: seq<Change>)
    requires i < |changes| && Ascending(changes) && Collected(changes, i, result)
    requires forall e :: e in result ==> !Overlap(e.path, changes[i].path)
    ensures Collected(changes, i + 1, result + [changes[i]])
  {
    forall k | 0 <= k < |result|
      ensures Compare(result[k].path, changes[i].path) <= 0 && !Overlap(result[k].path, changes[i].path)
    {
      assert result[k] in result && result[k] in changes[..i];
      var j :| 0 <= j < i && changes[..i][j] == result[k];
      assert changes[j] == result[k];
    }
    assert changes[..i + 1] == changes[..i] + [changes[i]];
  }

  lemma SeparateIsCompatible(cs: seq<Change>)
    requires Separate(cs) && Ascending(cs)
    ensures Compatible(cs) && StrictlyAscending(cs)
  {
    forall i, j | 0 <= i < j < |cs| ensures Compare(cs[i].path, cs[j].path) < 0 {
      CompareIsOrder(cs[i].path, cs[j].path, []);
    }
    forall a, b | a in cs && b in cs && a != b ensures !Overlap(a.path, b.path) {
      var i :| 0 <= i < |cs| && cs[i] == a;
      var j :| 0 <= j < |cs| && cs[j] == b;
      SeparatePair(cs, i, j);
    }
  }

  lemma SeparatePair(cs: seq<Change>, i: nat, j: nat)
    requires Separate(cs) && i < |cs| && j < |cs| && i != j
    ensures !Overlap(cs[i].path, cs[j].path)
  {
  }

  // ----- order independence -----

  lemma LastsAgree(a: seq<Change>, b: seq<Change>)
    requires StrictlyAscending(a) && StrictlyAscending(b) && SameChanges(a, b) && a != [] && b != []
    ensures a[|a| - 1] == b[|b| - 1]
  {
    var x, y := a[|a| - 1], b[|b| - 1];
    assert x in b && y in a;
    var i :| 0 <= i < |b| && b[i] == x;
    var j :| 0 <= j < |a| && a[j] == y;
    CompareIsOrder(x.path, y.path, x.path);
  }

  lemma NotEmpty(a: seq<Change>, b: seq<Change>)
    requires SameChanges(a, b) && a != []
    ensures b != []
  {
    assert a[0] in b;
  }

  lemma {:induction false} AscendingIsUnique(a: seq<Change>, b: seq<Change>)
    requires StrictlyAscending(a) && StrictlyAscending(b) && SameChanges(a, b)
    ensures a == b
  {
    if a != [] {
      NotEmpty(a, b);
    }
    if b != [] {
      NotEmpty(b, a);
      LastsAgree(a, b);
      var front, rest := a[..|a| - 1], b[..|b| - 1];
      forall c ensures c in front <==> c in rest {
        LastIsNew(a, c);
        LastIsNew(b, c);
      }
      AscendingIsUnique(front, rest);
      assert a == front + [a[|a| - 1]] && b == rest + [b[|b| - 1]];
    }
  }

  lemma LastIsNew(a: seq<Change>, c: Change)
    requires StrictlyAscending(a) && a != []
    ensures c in a[..|a| - 1] <==> c in a && c != a[|a| - 1]
  {
    var front, last := a[..|a| - 1], a[|a| - 1];
    assert a == front + [last];
    if c in front {
      var i :| 0 <= i < |front| && front[i] == c;
      CompareIsOrder(c.path, last.path, []);
      assert Compare(a[i].path, a[|a| - 1].path) < 0;
    }
  }

  /** The merge depends on nothing but which changes there are: plans in any order merge alike. */
  lemma MergeIgnoresOrder(some: seq<Change>, other: seq<Change>, m: Option<seq<Change>>, n: Option<seq<Change>>)
    requires SameChanges(some, other) && IsMerge(some, m) && IsMerge(other, n)
    ensures m == n
  {
    if m.Some? && n.Some? {
      AscendingIsUnique(m.value, n.value);
    }
  }

  // ----- check-and-set -----

  /** The value is there and is still what the change was planned for. */
  ghost predicate Checked(nodes: Nodes, c: Change)
    requires Tree(nodes)
  {
    ScalarAt(nodes, c.path).Found? && nodes[ScalarAt(nodes, c.path).node].value == c.current
  }

  function AsString(c: Change): bool {
    StringField(c.field) == Some(true)
  }

  datatype Applied = Failed | Unchanged | Changed

  method ApplyChange(document: Document, c: Change) returns (applied: Applied)
    requires Tree(document.nodes) && Valid(c)
    modifies document
    ensures applied == if !Checked(old(document.nodes), c) then Failed
                       else if c.current == c.recommended then Unchanged else Changed
    ensures document.nodes == if applied == Changed then Set(old(document.nodes), c.path, c.recommended, AsString(c))
                              else old(document.nodes)
  {
    var found := document.ScalarNodeAt(c.path);
    if !found.Found? || document.nodes[found.node].value != c.current {
      return Failed;
    }
    if c.current == c.recommended {
      return Unchanged;
    }
    var ok := document.SetScalarAt(c.path, c.recommended, AsString(c));
    return if ok then Changed else Failed;
  }

  /** The change wants to give node `n` a new value. */
  ghost predicate Targets(before: Nodes, c: Change, n: nat)
    requires Tree(before)
  {
    c.current != c.recommended && ScalarAt(before, c.path) == Found(n)
  }

  /** One step from `before`: every targeted node has its new value, all others are as they were. */
  ghost predicate Simultaneous(before: Nodes, after: Nodes, changes: seq<Change>)
    requires Tree(before)
  {
    |after| == |before| && Made(before, after, changes) && OthersKept(before, after, changes)
  }

  ghost predicate Made(before: Nodes, after: Nodes, changes: seq<Change>)
    requires Tree(before) && |after| == |before|
  {
    forall c, n: nat :: c in changes && n < |before| && Targets(before, c, n) ==>
      after[n] == Replaced(before[n], c.recommended, AsString(c))
  }

  ghost predicate OthersKept(before: Nodes, after: Nodes, changes: seq<Change>)
    requires Tree(before) && |after| == |before|
  {
    forall n: nat :: n < |before| && (forall c :: c in changes ==> !Targets(before, c, n)) ==> after[n] == before[n]
  }

  ghost predicate SameLookups(before: Nodes, after: Nodes)
    requires Tree(before) && Tree(after)
  {
    forall path :: ScalarAt(after, path) == ScalarAt(before, path)
  }

  /** The later change sees at its path what was there in the beginning. */
  lemma StillThere(before: Nodes, now: Nodes, changes: seq<Change>, c: Change)
    requires Tree(before) && Tree(now) && SameLookups(before, now) && Simultaneous(before, now, changes)
    requires forall e :: e in changes ==> e.path != c.path
    ensures Checked(now, c) <==> Checked(before, c)
    ensures ScalarAt(before, c.path).Found? ==>
      now[ScalarAt(before, c.path).node] == before[ScalarAt(before, c.path).node]
  {
    assert ScalarAt(now, c.path) == ScalarAt(before, c.path);
    if ScalarAt(before, c.path).Found? {
      var n := ScalarAt(before, c.path).node;
      forall e | e in changes ensures !Targets(before, e, n) {
        if Targets(before, e, n) {
          SelectionIsInjective(before, c.path, e.path);
        }
      }
    }
  }

  lemma ChangedLookups(before: Nodes, now: Nodes, c: Change)
    requires Tree(before) && Tree(now) && SameLookups(before, now) && ScalarAt(now, c.path).Found?
    ensures SameLookups(before, Set(now, c.path, c.recommended, AsString(c)))
  {
    forall path ensures ScalarAt(Set(now, c.path, c.recommended, AsString(c)), path) == ScalarAt(before, path) {
      LookupsKept(now, c.path, c.recommended, AsString(c), path);
    }
  }

  /** `after` is `now` with one change made at its node, which was still as in the beginning. */
  ghost predicate Step(before: Nodes, now: Nodes, after: Nodes, c: Change)
    requires Tree(before)
  {
    && |now| == |before| && ScalarAt(before, c.path).Found?
    && var t := ScalarAt(before, c.path).node;
       && now[t] == before[t]
       && after == if c.current == c.recommended then now else now[t := Replaced(before[t], c.recommended, AsString(c))]
  }

  lemma OneMoreMade(before: Nodes, now: Nodes, after: Nodes, changes: seq<Change>, c: Change)
    requires Tree(before) && Step(before, now, after, c) && Made(before, now, changes)
    requires forall e :: e in changes ==> e.path != c.path
    ensures Made(before, after, changes + [c])
  {
    forall e, n: nat | e in changes + [c] && n < |before| && Targets(before, e, n)
      ensures after[n] == Replaced(before[n], e.recommended, AsString(e))
    {
      if e in changes && n == ScalarAt(before, c.path).node {
        SelectionIsInjective(before, c.path, e.path);
      }
    }
  }

  lemma OneMoreKept(before: Nodes, now: Nodes, after: Nodes, changes: seq<Change>, c: Change)
    requires Tree(before) && Step(before, now, after, c) && OthersKept(before, now, changes)
    ensures OthersKept(before, after, changes + [c])
  {
    var all := changes + [c];
    assert c in all && forall e :: e in changes ==> e in all;
    forall n: nat | n < |before| && forall e :: e in all ==> !Targets(before, e, n) ensures after[n] == before[n] {
      assert !Targets(before, c, n);
    }
  }

  function Effective(changes: seq<Change>): seq<Change> {
    if changes == [] then []
    else
      var c := changes[|changes| - 1];
      Effective(changes[..|changes| - 1]) + if c.current != c.recommended then [c] else []
  }

  /** The first `i` changes have been made. */
  ghost predicate Reached(before: Nodes, now: Nodes, changes: seq<Change>)
    requires Tree(before)
  {
    && Tree(now) && SameLookups(before, now) && Simultaneous(before, now, changes)
    && forall c :: c in changes ==> Checked(before, c)
  }

  /** All changes of one document, in turn; a failure gives up the document. */
  method ApplyChanges(document: Document, changes: seq<Change>) returns (applied: Option<seq<Change>>)
    requires Tree(document.nodes) && StrictlyAscending(changes) && forall c :: c in changes ==> Valid(c)
    modifies document
    ensures applied.Some? <==> forall c :: c in changes ==> Checked(old(document.nodes), c)
    ensures applied.Some? ==>
      applied.value == Effective(changes) && Simultaneous(old(document.nodes), document.nodes, changes)
    ensures applied.Some? ==> Tree(document.nodes) && SameLookups(old(document.nodes), document.nodes)
  {
    var done := [];
    ghost var before := document.nodes;
    for i := 0 to |changes|
      invariant Reached(before, document.nodes, changes[..i]) && done == Effective(changes[..i])
    {
      assert changes[i] in changes;
      EarlierPaths(changes, i);
      var step := ApplyNext(document, changes[i], before, changes[..i]);
      if step == Failed {
        return None;
      }
      if step == Changed {
        done := done + [changes[i]];
      }
      NextPrefix(changes, i);
    }
    assert changes[..|changes|] == changes;
    return Some(done);
  }

  lemma NextPrefix(changes: seq<Change>, i: nat)
    requires i < |changes|
    ensures changes[..i + 1] == changes[..i] + [changes[i]]
    ensures Effective(changes[..i + 1])
         == Effective(changes[..i]) + if changes[i].current != changes[i].recommended then [changes[i]] else []
  {
    assert changes[..i + 1][..i] == changes[..i];
  }

  method ApplyNext(document: Document, c: Change, ghost before: Nodes, ghost made: seq<Change>) returns (step: Applied)
    requires Tree(before) && Reached(before, document.nodes, made) && Valid(c)
    requires forall e :: e in made ==> e.path != c.path
    modifies document
    ensures step == if !Checked(before, c) then Failed else if c.current == c.recommended then Unchanged else Changed
    ensures step != Failed ==> Reached(before, document.nodes, made + [c])
  {
    ghost var now := document.nodes;
    StillThere(before, now, made, c);
    step := ApplyChange(document, c);
    if step != Failed {
      assert ScalarAt(now, c.path) == ScalarAt(before, c.path);
      if step == Changed {
        ChangedLookups(before, now, c);
      }
      OneMoreMade(before, now, document.nodes, made, c);
      OneMoreKept(before, now, document.nodes, made, c);
    }
  }

  lemma EarlierPaths(changes: seq<Change>, i: nat)
    requires i < |changes| && StrictlyAscending(changes)
    ensures forall e :: e in changes[..i] ==> e.path != changes[i].path
  {
    forall e | e in changes[..i] ensures e.path != changes[i].path {
      var j :| 0 <= j < i && changes[..i][j] == e;
      assert Compare(changes[j].path, changes[i].path) < 0;
      CompareIsOrder(e.path, changes[i].path, []);
    }
  }

  /**
   * The changes of all plans for one values file: they are made as if at once, against the document as it was,
   * whatever the order of the plans.
   */
  method BuildProposal(document: Document, plans: seq<seq<Change>>) returns (applied: Option<seq<Change>>)
    requires Tree(document.nodes)
    modifies document
    ensures var changes, before := Flatten(plans), old(document.nodes);
      applied.Some? <==> && before[ROOT].kind == Mapping && Compatible(changes)
                         && forall c :: c in changes ==> Valid(c) && Checked(before, c)
    ensures applied.Some? ==>
      && Tree(document.nodes) && SameLookups(old(document.nodes), document.nodes)
      && Simultaneous(old(document.nodes), document.nodes, Flatten(plans))
      && exists merged :: IsMerge(Flatten(plans), Some(merged)) && applied.value == Effective(merged)
  {
    if document.nodes[ROOT].kind != Mapping {
      return None;
    }
    var merged := MergedChanges(plans);
    if merged.None? {
      return None;
    }
    assert IsMerge(Flatten(plans), Some(merged.value));
    ghost var before := document.nodes;
    applied := ApplyChanges(document, merged.value);
    if applied.Some? {
      SameSimultaneous(before, document.nodes, merged.value, Flatten(plans));
    }
  }

  lemma SameSimultaneous(before: Nodes, after: Nodes, some: seq<Change>, other: seq<Change>)
    requires Tree(before) && Simultaneous(before, after, some) && SameChanges(some, other)
    ensures Simultaneous(before, after, other)
  {
    forall n: nat | n < |before| && forall c :: c in other ==> !Targets(before, c, n) ensures after[n] == before[n] {
      assert forall c :: c in some ==> c in other;
    }
  }
}
