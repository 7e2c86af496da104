/**
 * The line diff of a patch plan (internal/analyzer/patch_plan.go): the table of longest common
 * subsequences, the edit walk that follows it, and the compaction of the walk into hunks.
 */
module LineDiff {
  import opened Numbers

  datatype Kind = Keep | Delete | Add

  datatype Op = Op(kind: Kind, line: string)

  // ----- what an edit script means -----

  /** The text a script starts from: its kept and its deleted lines. */
  function Before(ops: seq<Op>): seq<string> {
    if ops == [] then []
    else (if ops[0].kind == Add then [] else [ops[0].line]) + Before(ops[1..])
  }

  /** The text a script ends in: its kept and its added lines. */
  function After(ops: seq<Op>): seq<string> {
    if ops == [] then []
    else (if ops[0].kind == Delete then [] else [ops[0].line]) + After(ops[1..])
  }

  function KeptLines(ops: seq<Op>): seq<string> {
    if ops == [] then []
    else (if ops[0].kind == Keep then [ops[0].line] else []) + KeptLines(ops[1..])
  }

  function Edits(ops: seq<Op>): nat {
    if ops == [] then 0
    else (if ops[0].kind == Keep then 0 else 1) + Edits(ops[1..])
  }

  ghost predicate Transforms(ops: seq<Op>, a: seq<string>, b: seq<string>) {
    Before(ops) == a && After(ops) == b
  }

  ghost predicate IsSubsequence(s: seq<string>, t: seq<string>)
    decreases |t|
  {
    if s == [] then true
    else if t == [] then false
    else (s[0] == t[0] && IsSubsequence(s[1..], t[1..])) || IsSubsequence(s, t[1..])
  }

  ghost predicate IsCommon(s: seq<string>, a: seq<string>, b: seq<string>) {
    IsSubsequence(s, a) && IsSubsequence(s, b)
  }

  // ----- the table and the walk, as functions -----

  /** Entry `[i][j]` of the table: what can be kept of `a[i..]` and `b[j..]`. */
  function Lcs(a: seq<string>, b: seq<string>, i: nat, j: nat): nat
    requires i <= |a| && j <= |b|
    decreases |a| - i + |b| - j
  {
    if i == |a| || j == |b| then 0
    else if a[i] == b[j] then Lcs(a, b, i + 1, j + 1) + 1
    else MaxInt(Lcs(a, b, i + 1, j), Lcs(a, b, i, j + 1))
  }

  /** The edit walk from `(i, j)`; ties are resolved by deleting first. */
  function Script(a: seq<string>, b: seq<string>, i: nat, j: nat): seq<Op>
    requires i <= |a| && j <= |b|
    decreases |a| - i + |b| - j
  {
    if i == |a| && j == |b| then []
    else if i == |a| then [Op(Add, b[j])] + Script(a, b, i, j + 1)
    else if j == |b| then [Op(Delete, a[i])] + Script(a, b, i + 1, j)
    else if a[i] == b[j] then [Op(Keep, a[i])] + Script(a, b, i + 1, j + 1)
    else if Lcs(a, b, i + 1, j) >= Lcs(a, b, i, j + 1) then [Op(Delete, a[i])] + Script(a, b, i + 1, j)
    else [Op(Add, b[j])] + Script(a, b, i, j + 1)
  }

  // ----- soundness -----

  lemma FirstOp(op: Op, rest: seq<Op>)
    ensures Before([op] + rest) == (if op.kind != Add then [op.line] else []) + Before(rest)
    ensures After([op] + rest) == (if op.kind != Delete then [op.line] else []) + After(rest)
  {
    assert ([op] + rest)[1..] == rest;
  }

  lemma {:induction false} ScriptTransforms(a: seq<string>, b: seq<string>, i: nat, j: nat)
    requires i <= |a| && j <= |b|
    ensures Transforms(Script(a, b, i, j), a[i..], b[j..])
    decreases |a| - i + |b| - j
  {
    assert i < |a| ==> a[i..] == [a[i]] + a[i + 1..];
    assert j < |b| ==> b[j..] == [b[j]] + b[j + 1..];
    if i == |a| && j == |b| {
    } else if i < |a| && j < |b| && a[i] == b[j] {
      ScriptTransforms(a, b, i + 1, j + 1);
      FirstOp(Op(Keep, a[i]), Script(a, b, i + 1, j + 1));
    } else if j == |b| || (i < |a| && Lcs(a, b, i + 1, j) >= Lcs(a, b, i, j + 1)) {
      ScriptTransforms(a, b, i + 1, j);
      FirstOp(Op(Delete, a[i]), Script(a, b, i + 1, j));
    } else {
      ScriptTransforms(a, b, i, j + 1);
      FirstOp(Op(Add, b[j]), Script(a, b, i, j + 1));
    }
  }

  lemma {:induction false} ScriptKeepsLcs(a: seq<string>, b: seq<string>, i: nat, j: nat)
    requires i <= |a| && j <= |b|
    ensures |KeptLines(Script(a, b, i, j))| == Lcs(a, b, i, j)
    decreases |a| - i + |b| - j
  {
    if i == |a| && j == |b| {
    } else if i == |a| {
      ScriptKeepsLcs(a, b, i, j + 1);
    } else if j == |b| {
      ScriptKeepsLcs(a, b, i + 1, j);
    } else if a[i] == b[j] {
      ScriptKeepsLcs(a, b, i + 1, j + 1);
    } else {
      ScriptKeepsLcs(a, b, i + 1, j);
      ScriptKeepsLcs(a, b, i, j + 1);
    }
  }

  // ----- minimality -----

  /** Dropping the first line of either text loses at most one line of the common part. */
  lemma {:induction false} LcsSteps(a: seq<string>, b: seq<string>, i: nat, j: nat)
    requires i <= |a| && j <= |b|
    ensures i < |a| ==> Lcs(a, b, i + 1, j) <= Lcs(a, b, i, j) <= Lcs(a, b, i + 1, j) + 1
    ensures j < |b| ==> Lcs(a, b, i, j + 1) <= Lcs(a, b, i, j) <= Lcs(a, b, i, j + 1) + 1
    decreases |a| - i + |b| - j
  {
    if i < |a| && j < |b| {
      LcsSteps(a, b, i + 1, j);
      LcsSteps(a, b, i, j + 1);
      LcsSteps(a, b, i + 1, j + 1);
    }
  }

  /** No common subsequence is longer than the table says. */
  lemma {:induction false} LcsIsLongest(s: seq<string>, a: seq<string>, b: seq<string>, i: nat, j: nat)
    requires i <= |a| && j <= |b|
    requires IsCommon(s, a[i..], b[j..])
    ensures |s| <= Lcs(a, b, i, j)
    decreases |a| - i + |b| - j
  {
    if s != [] {
      LcsSteps(a, b, i, j);
      assert a[i..][0] == a[i] && b[j..][0] == b[j];
      assert a[i..][1..] == a[i + 1..] && b[j..][1..] == b[j + 1..];
      if IsSubsequence(s, b[j + 1..]) {
        LcsIsLongest(s, a, b, i, j + 1);
        assert |s| <= Lcs(a, b, i, j + 1);
      } else if IsSubsequence(s, a[i + 1..]) {
        LcsIsLongest(s, a, b, i + 1, j);
        assert |s| <= Lcs(a, b, i + 1, j);
      } else {
        LcsIsLongest(s[1..], a, b, i + 1, j + 1);
      }
    }
  }

  lemma {:induction false} KeptIsCommon(ops: seq<Op>)
    ensures IsCommon(KeptLines(ops), Before(ops), After(ops))
    ensures Edits(ops) == |Before(ops)| + |After(ops)| - 2 * |KeptLines(ops)|
  {
    if ops != [] {
      KeptIsCommon(ops[1..]);
      var kept, before, after := KeptLines(ops[1..]), Before(ops[1..]), After(ops[1..]);
      SubsequenceExtends(kept, before, ops[0].line);
      SubsequenceExtends(kept, after, ops[0].line);
    }
  }

  lemma SubsequenceExtends(s: seq<string>, t: seq<string>, line: string)
    requires IsSubsequence(s, t)
    ensures IsSubsequence(s, [line] + t) && IsSubsequence([line] + s, [line] + t)
    ensures [] + s == s && [] + t == t
  {
    assert ([line] + t)[1..] == t && ([line] + s)[1..] == s;
  }

  /** After an addition in the middle of both texts, the walk does not delete next. */
  lemma NoDeletionNext(a: seq<string>, b: seq<string>, i: nat, j: nat)
    requires i < |a| && j < |b| && a[i] != b[j] && Lcs(a, b, i + 1, j) < Lcs(a, b, i, j + 1)
    requires |Script(a, b, i, j + 1)| > 0
    ensures Script(a, b, i, j + 1)[0].kind != Delete
  {
    LcsSteps(a, b, i + 1, j);
  }

  /** Inside a block of changes all deletions come before all additions. */
  lemma {:induction false} DeletionsComeFirst(a: seq<string>, b: seq<string>, i: nat, j: nat, k: nat)
    requires i <= |a| && j <= |b|
    requires k + 1 < |Script(a, b, i, j)|
    ensures !(Script(a, b, i, j)[k].kind == Add && Script(a, b, i, j)[k + 1].kind == Delete)
    decreases |a| - i + |b| - j
  {
    if i < |a| && j < |b| && a[i] == b[j] {
      if k > 0 {
        DeletionsComeFirst(a, b, i + 1, j + 1, k - 1);
      }
    } else if j == |b| || (i < |a| && Lcs(a, b, i + 1, j) >= Lcs(a, b, i, j + 1)) {
      if k > 0 {
        DeletionsComeFirst(a, b, i + 1, j, k - 1);
      }
    } else if k > 0 {
      DeletionsComeFirst(a, b, i, j + 1, k - 1);
    } else if i < |a| {
      NoDeletionNext(a, b, i, j);
    } else {
      assert Script(a, b, i, j)[1] == Script(a, b, i, j + 1)[0];
    }
  }

  // ----- the code -----

  ghost predicate IsTable(original: seq<string>, modified: seq<string>, lcs: array2<nat>)
    reads lcs
  {
    RowsFrom(original, modified, lcs, 0)
  }

  /** The rows from `i` on are filled. */
  ghost predicate RowsFrom(original: seq<string>, modified: seq<string>, lcs: array2<nat>, i: int)
    reads lcs
  {
    && lcs.Length0 == |original| + 1 && lcs.Length1 == |modified| + 1 && 0 <= i
    && forall x, y :: i <= x <= |original| && 0 <= y <= |modified| ==> lcs[x, y] == Lcs(original, modified, x, y)
  }

  ghost predicate ColumnIsZero(lcs: array2<nat>, y: int)
    reads lcs
  {
    0 <= y < lcs.Length1 && forall x :: 0 <= x < lcs.Length0 ==> lcs[x, y] == 0
  }

  method FillTable(original: seq<string>, modified: seq<string>) returns (lcs: array2<nat>)
    ensures fresh(lcs) && IsTable(original, modified, lcs)
  {
    lcs := new nat[|original| + 1, |modified| + 1]((_, _) => 0);
    var i := |original|;
    while i > 0
      invariant 0 <= i <= |original| && RowsFrom(original, modified, lcs, i) && ColumnIsZero(lcs, |modified|)
    {
      i := i - 1;
      FillRow(original, modified, lcs, i);
    }
  }

  method FillRow(original: seq<string>, modified: seq<string>, lcs: array2<nat>, i: int)
    requires 0 <= i < |original| && RowsFrom(original, modified, lcs, i + 1) && ColumnIsZero(lcs, |modified|)
    modifies lcs
    ensures RowsFrom(original, modified, lcs, i) && ColumnIsZero(lcs, |modified|)
  {
    var j := |modified|;
    while j > 0
      invariant 0 <= j <= |modified| && RowsFrom(original, modified, lcs, i + 1) && ColumnIsZero(lcs, |modified|)
      invariant forall y :: j <= y <= |modified| ==> lcs[i, y] == Lcs(original, modified, i, y)
    {
      j := j - 1;
      if original[i] == modified[j] {
        lcs[i, j] := lcs[i + 1, j + 1] + 1;
      } else {
        lcs[i, j] := MaxInt(lcs[i + 1, j], lcs[i, j + 1]);
      }
    }
  }

  method LineDiffOps(original: seq<string>, modified: seq<string>) returns (ops: seq<Op>)
    ensures ops == Script(original, modified, 0, 0)
    ensures Transforms(ops, original, modified)
    ensures forall s :: IsCommon(s, original, modified) ==> |s| <= |KeptLines(ops)|
    ensures forall other :: Transforms(other, original, modified) ==> Edits(ops) <= Edits(other)
  {
    var lcs := FillTable(original, modified);
    ops := WalkTable(original, modified, lcs);
    ScriptIsOptimal(original, modified);
  }

  method WalkTable(original: seq<string>, modified: seq<string>, lcs: array2<nat>) returns (ops: seq<Op>)
    requires IsTable(original, modified, lcs)
    ensures ops == Script(original, modified, 0, 0)
  {
    ops := [];
    var i, j := 0, 0;
    ghost var whole := Script(original, modified, 0, 0);
    while i < |original| && j < |modified|
      invariant 0 <= i <= |original| && 0 <= j <= |modified|
      invariant whole == ops + Script(original, modified, i, j)
      decreases |original| - i + |modified| - j
    {
      if original[i] == modified[j] {
        Shift(ops, Op(Keep, original[i]), Script(original, modified, i + 1, j + 1));
        ops := ops + [Op(Keep, original[i])];
        i, j := i + 1, j + 1;
      } else if lcs[i + 1, j] >= lcs[i, j + 1] {
        Shift(ops, Op(Delete, original[i]), Script(original, modified, i + 1, j));
        ops := ops + [Op(Delete, original[i])];
        i := i + 1;
      } else {
        Shift(ops, Op(Add, modified[j]), Script(original, modified, i, j + 1));
        ops := ops + [Op(Add, modified[j])];
        j := j + 1;
      }
    }
    while i < |original|
      invariant 0 <= i <= |original| && 0 <= j <= |modified| && (i == |original| || j == |modified|)
      invariant whole == ops + Script(original, modified, i, j)
    {
      Shift(ops, Op(Delete, original[i]), Script(original, modified, i + 1, j));
      ops := ops + [Op(Delete, original[i])];
      i := i + 1;
    }
    while j < |modified|
      invariant 0 <= j <= |modified| && i == |original|
      invariant whole == ops + Script(original, modified, i, j)
    {
      Shift(ops, Op(Add, modified[j]), Script(original, modified, i, j + 1));
      ops := ops + [Op(Add, modified[j])];
      j := j + 1;
    }
    assert ops == whole;
  }

  lemma Shift(ops: seq<Op>, op: Op, rest: seq<Op>)
    ensures ops + ([op] + rest) == ops + [op] + rest
  {
  }

  lemma ScriptIsOptimal(a: seq<string>, b: seq<string>)
    ensures var ops := Script(a, b, 0, 0);
      && Transforms(ops, a, b)
      && (forall s :: IsCommon(s, a, b) ==> |s| <= |KeptLines(ops)|)
      && (forall other :: Transforms(other, a, b) ==> Edits(ops) <= Edits(other))
  {
    var ops := Script(a, b, 0, 0);
    assert a[0..] == a && b[0..] == b;
    ScriptTransforms(a, b, 0, 0);
    ScriptKeepsLcs(a, b, 0, 0);
    forall s | IsCommon(s, a, b) ensures |s| <= |KeptLines(ops)| {
      LcsIsLongest(s, a, b, 0, 0);
    }
    forall other | Transforms(other, a, b) ensures Edits(ops) <= Edits(other) {
      KeptIsCommon(ops);
      KeptIsCommon(other);
    }
  }

  // ----- hunks -----

  const CONTEXT_LINES := 3

  datatype Range = Range(start: int, end: int)

  predicate IsChange(ops: seq<Op>, c: int) {
    0 <= c < |ops| && ops[c].kind != Keep
  }

  /** Operation `k` is shown: some change lies within three operations of it. */
  ghost predicate Near(ops: seq<Op>, k: int) {
    0 <= k < |ops| && exists c :: IsChange(ops, c) && c - CONTEXT_LINES <= k <= c + CONTEXT_LINES
  }

  predicate Inside(range: Range, k: int) {
    range.start <= k <= range.end
  }

  predicate Shown(ranges: seq<Range>, k: int) {
    exists r :: 0 <= r < |ranges| && Inside(ranges[r], k)
  }

  /** Ranges in order, with at least one operation between any two of them. */
  predicate Separated(ops: seq<Op>, ranges: seq<Range>) {
    && (forall r :: 0 <= r < |ranges| ==> 0 <= ranges[r].start <= ranges[r].end < |ops|)
    && (forall r, s :: 0 <= r < s < |ranges| ==> ranges[r].end + 1 < ranges[s].start)
  }

  /** `ranges` lists, in order, the maximal contiguous runs of operations near a change. */
  ghost predicate MaximalRuns(ops: seq<Op>, ranges: seq<Range>) {
    Separated(ops, ranges) && forall k :: Shown(ranges, k) <==> Near(ops, k)
  }

  function RangeAround(ops: seq<Op>, c: int): Range
    requires 0 <= c < |ops|
  {
    Range(MaxInt(0, c - CONTEXT_LINES), MinInt(|ops| - 1, c + CONTEXT_LINES))
  }

  lemma ShownAppend(ranges: seq<Range>, last: Range, k: int)
    ensures Shown(ranges + [last], k) <==> Shown(ranges, k) || Inside(last, k)
  {
    var all := ranges + [last];
    if Shown(ranges, k) {
      var r :| 0 <= r < |ranges| && Inside(ranges[r], k);
      assert all[r] == ranges[r];
    }
    if Inside(last, k) {
      assert all[|ranges|] == last;
    }
  }

  /** `k` lies within three operations of one of the changes in `changes`. */
  ghost predicate NearOne(ops: seq<Op>, changes: seq<int>, k: int) {
    0 <= k < |ops| && exists x :: 0 <= x < |changes| && changes[x] - CONTEXT_LINES <= k <= changes[x] + CONTEXT_LINES
  }

  lemma NearOneAppend(ops: seq<Op>, changes: seq<int>, c: int, k: int)
    requires 0 <= c < |ops|
    ensures NearOne(ops, changes + [c], k) <==> NearOne(ops, changes, k) || Inside(RangeAround(ops, c), k)
  {
    var all := changes + [c];
    if NearOne(ops, changes, k) {
      var x :| 0 <= x < |changes| && changes[x] - CONTEXT_LINES <= k <= changes[x] + CONTEXT_LINES;
      assert all[x] == changes[x];
    }
    if Inside(RangeAround(ops, c), k) {
      assert all[|changes|] == c;
    }
  }

  method ChangeIndexes(ops: seq<Op>) returns (changes: seq<int>)
    ensures forall x :: 0 <= x < |changes| ==> IsChange(ops, changes[x])
    ensures forall x, y :: 0 <= x < y < |changes| ==> changes[x] < changes[y]
    ensures forall c :: IsChange(ops, c) ==> c in changes
  {
    changes := [];
    for index := 0 to |ops|
      invariant forall x :: 0 <= x < |changes| ==> IsChange(ops, changes[x]) && changes[x] < index
      invariant forall x, y :: 0 <= x < y < |changes| ==> changes[x] < changes[y]
      invariant forall c :: IsChange(ops, c) && c < index ==> c in changes
    {
      if ops[index].kind != Keep {
        changes := changes + [index];
      }
    }
  }

  method HunkRanges(ops: seq<Op>) returns (ranges: seq<Range>)
    ensures MaximalRuns(ops, ranges)
    ensures ranges == [] <==> forall c :: 0 <= c < |ops| ==> ops[c].kind == Keep
  {
    var changes := ChangeIndexes(ops);
    forall k ensures NearOne(ops, changes, k) <==> Near(ops, k) {
      NearOneOfAll(ops, changes, k);
    }
    ranges := [];
    if |changes| == 0 {
      assert forall c :: 0 <= c < |ops| && ops[c].kind != Keep ==> IsChange(ops, c);
      return;
    }
    var current := RangeAround(ops, changes[0]);
    for x := 1 to |changes|
      invariant Covers(ops, changes, x, ranges, current)
    {
      assert changes[x - 1] < changes[x];
      ranges, current := NextRange(ops, changes, x, ranges, current);
    }
    forall k ensures Shown(ranges + [current], k) <==> Shown(ranges, k) || Inside(current, k) {
      ShownAppend(ranges, current, k);
    }
    assert changes[..|changes|] == changes;
    ranges := ranges + [current];
    assert IsChange(ops, changes[0]);
  }

  /** `ranges` and the one that is still growing cover what is near the first `x` changes. */
  ghost predicate Covers(ops: seq<Op>, changes: seq<int>, x: int, ranges: seq<Range>, current: Range) {
    && 0 < x <= |changes| && 0 <= changes[x - 1] < |ops|
    && current.end == RangeAround(ops, changes[x - 1]).end
    && current.start <= RangeAround(ops, changes[x - 1]).start
    && Separated(ops, ranges + [current])
    && forall k :: Shown(ranges, k) || Inside(current, k) <==> NearOne(ops, changes[..x], k)
  }

  /** The range around the next change grows the current one, or starts a new one. */
  method NextRange(ops: seq<Op>, changes: seq<int>, x: int, before: seq<Range>, last: Range)
    returns (ranges: seq<Range>, current: Range)
    requires Covers(ops, changes, x, before, last)
    requires x < |changes| && changes[x - 1] < changes[x] < |ops|
    ensures Covers(ops, changes, x + 1, ranges, current)
  {
    var next := RangeAround(ops, changes[x]);
    NearNext(ops, changes, x);
    SeparatedAppend(ops, before, last);
    ranges, current := before, last;
    if next.start <= current.end + 1 {
      current := Range(last.start, MaxInt(last.end, next.end));
      assert forall k :: Inside(current, k) <==> Inside(last, k) || Inside(next, k);
    } else {
      forall k ensures Shown(before + [last], k) <==> Shown(before, k) || Inside(last, k) {
        ShownAppend(before, last, k);
      }
      ranges, current := before + [last], next;
      forall r | 0 <= r < |ranges| ensures ranges[r].end + 1 < next.start {
        assert ranges[r] == if r < |before| then before[r] else last;
      }
    }
    SeparatedAppend(ops, ranges, current);
  }

  lemma NearNext(ops: seq<Op>, changes: seq<int>, x: int)
    requires 0 <= x < |changes| && 0 <= changes[x] < |ops|
    ensures forall k ::
      NearOne(ops, changes[..x + 1], k) <==> NearOne(ops, changes[..x], k) || Inside(RangeAround(ops, changes[x]), k)
  {
    assert changes[..x + 1] == changes[..x] + [changes[x]];
    forall k
      ensures NearOne(ops, changes[..x + 1], k)
         <==> NearOne(ops, changes[..x], k) || Inside(RangeAround(ops, changes[x]), k)
    {
      NearOneAppend(ops, changes[..x], changes[x], k);
    }
  }

  lemma SeparatedAppend(ops: seq<Op>, ranges: seq<Range>, last: Range)
    ensures Separated(ops, ranges + [last]) <==>
              && Separated(ops, ranges) && 0 <= last.start <= last.end < |ops|
              && forall r :: 0 <= r < |ranges| ==> ranges[r].end + 1 < last.start
  {
    var all := ranges + [last];
    assert all[|ranges|] == last;
    assert forall r :: 0 <= r < |ranges| ==> all[r] == ranges[r];
  }

  lemma NearOneOfAll(ops: seq<Op>, changes: seq<int>, k: int)
    requires forall x :: 0 <= x < |changes| ==> IsChange(ops, changes[x])
    requires forall c :: IsChange(ops, c) ==> c in changes
    ensures NearOne(ops, changes, k) <==> Near(ops, k)
  {
    if Near(ops, k) {
      var c :| IsChange(ops, c) && c - CONTEXT_LINES <= k <= c + CONTEXT_LINES;
      assert c in changes;
    }
  }

  function KindText(kind: Kind): string {
    match kind
    case Keep => " "
    case Delete => "-"
    case Add => "+"
  }

  function Render(op: Op): string {
    KindText(op.kind) + op.line
  }

  function Hunk(ops: seq<Op>, range: Range): seq<string>
    requires 0 <= range.start <= range.end + 1 <= |ops|
    decreases range.end - range.start
  {
    if range.end < range.start then []
    else Hunk(ops, Range(range.start, range.end - 1)) + [Render(ops[range.end])]
  }

  /** The hunks are the rendered maximal runs. */
  ghost predicate AreHunks(ops: seq<Op>, hunks: seq<seq<string>>, ranges: seq<Range>) {
    && MaximalRuns(ops, ranges)
    && |hunks| == |ranges|
    && forall r :: 0 <= r < |ranges| ==> hunks[r] == Hunk(ops, ranges[r])
  }

  method RenderHunks(ops: seq<Op>, ranges: seq<Range>) returns (hunks: seq<seq<string>>)
    requires Separated(ops, ranges)
    ensures |hunks| == |ranges| && forall r :: 0 <= r < |ranges| ==> hunks[r] == Hunk(ops, ranges[r])
  {
    hunks := [];
    for r := 0 to |ranges|
      invariant |hunks| == r
      invariant forall q :: 0 <= q < r ==> hunks[q] == Hunk(ops, ranges[q])
    {
      var hunk := RenderHunk(ops, ranges[r]);
      hunks := hunks + [hunk];
    }
  }

  method RenderHunk(ops: seq<Op>, range: Range) returns (hunk: seq<string>)
    requires 0 <= range.start <= range.end < |ops|
    ensures hunk == Hunk(ops, range)
  {
    hunk := [];
    for index := range.start to range.end + 1
      invariant hunk == Hunk(ops, Range(range.start, index - 1))
    {
      hunk := hunk + [Render(ops[index])];
    }
  }

  method CompactLineDiff(original: seq<string>, modified: seq<string>) returns (hunks: seq<seq<string>>)
    ensures exists ranges :: AreHunks(Script(original, modified, 0, 0), hunks, ranges)
    ensures hunks == [] <==> original == modified
  {
    var ops := LineDiffOps(original, modified);
    var ranges := HunkRanges(ops);
    hunks := RenderHunks(ops, ranges);
    assert AreHunks(ops, hunks, ranges);
    UnchangedIffNoEdits(original, modified, ops);
  }

  lemma {:induction false} AllKept(ops: seq<Op>)
    requires forall c :: 0 <= c < |ops| ==> ops[c].kind == Keep
    ensures Before(ops) == After(ops) && Edits(ops) == 0
  {
    if ops != [] {
      AllKept(ops[1..]);
    }
  }

  lemma {:induction false} NoEditsAllKept(ops: seq<Op>, c: int)
    requires Edits(ops) == 0 && 0 <= c < |ops|
    ensures ops[c].kind == Keep
  {
    if c > 0 {
      NoEditsAllKept(ops[1..], c - 1);
    }
  }

  function Identity(a: seq<string>): seq<Op> {
    if a == [] then [] else [Op(Keep, a[0])] + Identity(a[1..])
  }

  lemma {:induction false} IdentityTransforms(a: seq<string>)
    ensures Transforms(Identity(a), a, a) && Edits(Identity(a)) == 0
  {
    if a != [] {
      IdentityTransforms(a[1..]);
    }
  }

  /** Nothing is reported exactly when the two texts are equal. */
  lemma UnchangedIffNoEdits(a: seq<string>, b: seq<string>, ops: seq<Op>)
    requires Transforms(ops, a, b)
    requires forall other :: Transforms(other, a, b) ==> Edits(ops) <= Edits(other)
    ensures a == b <==> forall c :: 0 <= c < |ops| ==> ops[c].kind == Keep
  {
    if a == b {
      IdentityTransforms(a);
      forall c | 0 <= c < |ops| ensures ops[c].kind == Keep {
        NoEditsAllKept(ops, c);
      }
    }
    if forall c :: 0 <= c < |ops| ==> ops[c].kind == Keep {
      AllKept(ops);
    }
  }

  /** Each run is maximal: a shown operation outside it is not adjacent to it either. */
  lemma RunsAreMaximal(ops: seq<Op>, ranges: seq<Range>, r: int, k: int)
    requires MaximalRuns(ops, ranges) && 0 <= r < |ranges|
    requires Near(ops, k) && !Inside(ranges[r], k)
    ensures k + 1 < ranges[r].start || ranges[r].end + 1 < k
  {
    assert Shown(ranges, k);
    var s :| 0 <= s < |ranges| && Inside(ranges[s], k);
    if s < r {
      assert ranges[s].end + 1 < ranges[r].start;
    } else {
      assert ranges[r].end + 1 < ranges[s].start;
    }
  }

  /** Every change is shown, and every operation left out is an unchanged line. */
  lemma OnlyUnchangedLinesLeftOut(ops: seq<Op>, ranges: seq<Range>, k: int)
    requires MaximalRuns(ops, ranges) && 0 <= k < |ops|
    ensures !Shown(ranges, k) ==> ops[k].kind == Keep
  {
    if ops[k].kind != Keep {
      assert IsChange(ops, k) && Near(ops, k);
    }
  }

  // ----- what a reader of the hunks learns -----

  /** Shown are the changes and the three lines before and after each of them. */
  lemma NearMeans(ops: seq<Op>, k: int)
    ensures Near(ops, k)
       <==> 0 <= k < |ops| && exists c :: 0 <= c < |ops| && ops[c].kind != Keep && k - 3 <= c <= k + 3
  {
    if c :| 0 <= c < |ops| && ops[c].kind != Keep && k - 3 <= c <= k + 3 {
      assert IsChange(ops, c);
    }
  }

  function Mark(kind: Kind): char {
    if kind == Keep then ' ' else if kind == Delete then '-' else '+'
  }

  /** A line for each operation: a blank, a minus or a plus sign, and its text. */
  ghost predicate Shows(lines: seq<string>, ops: seq<Op>) {
    |lines| == |ops| && forall k :: 0 <= k < |ops| ==> lines[k] == [Mark(ops[k].kind)] + ops[k].line
  }

  lemma {:induction false} HunkShows(ops: seq<Op>, range: Range)
    requires 0 <= range.start <= range.end + 1 <= |ops|
    ensures Shows(Hunk(ops, range), ops[range.start..range.end + 1])
    decreases range.end - range.start
  {
    if range.start <= range.end {
      HunkShows(ops, Range(range.start, range.end - 1));
    }
  }

  /** The texts of the lines with this mark. */
  function Marked(lines: seq<string>, mark: char): seq<string> {
    if lines == [] then []
    else (if lines[0] != "" && lines[0][0] == mark then [lines[0][1..]] else []) + Marked(lines[1..], mark)
  }

  lemma {:induction false} MarkedAppend(some: seq<string>, more: seq<string>, mark: char)
    ensures Marked(some + more, mark) == Marked(some, mark) + Marked(more, mark)
  {
    if some == [] {
      assert some + more == more;
    } else {
      assert (some + more)[1..] == some[1..] + more;
      MarkedAppend(some[1..], more, mark);
    }
  }

  /** All lines of the hunks. */
  function Lines(hunks: seq<seq<string>>): seq<string> {
    if hunks == [] then [] else Lines(hunks[..|hunks| - 1]) + hunks[|hunks| - 1]
  }

  /** The texts of the operations of one kind. */
  function OfKind(ops: seq<Op>, kind: Kind): seq<string> {
    if ops == [] then [] else (if ops[0].kind == kind then [ops[0].line] else []) + OfKind(ops[1..], kind)
  }

  lemma {:induction false} OfKindAppend(some: seq<Op>, more: seq<Op>, kind: Kind)
    ensures OfKind(some + more, kind) == OfKind(some, kind) + OfKind(more, kind)
  {
    if some == [] {
      assert some + more == more;
    } else {
      assert (some + more)[1..] == some[1..] + more;
      OfKindAppend(some[1..], more, kind);
    }
  }

  lemma {:induction false} NoneOfKept(ops: seq<Op>, kind: Kind)
    requires kind != Keep && forall k :: 0 <= k < |ops| ==> ops[k].kind == Keep
    ensures OfKind(ops, kind) == []
  {
    if ops != [] {
      NoneOfKept(ops[1..], kind);
    }
  }

  lemma {:induction false} MarkedShows(lines: seq<string>, ops: seq<Op>, kind: Kind)
    requires Shows(lines, ops)
    ensures Marked(lines, Mark(kind)) == OfKind(ops, kind)
  {
    if ops != [] {
      MarkedShows(lines[1..], ops[1..], kind);
      assert lines[0] == [Mark(ops[0].kind)] + ops[0].line;
      assert lines[0][1..] == ops[0].line;
    }
  }

  /** Where the first `r` ranges end. */
  function Until(ranges: seq<Range>, r: nat): int
    requires r <= |ranges|
  {
    if r == 0 then 0 else ranges[r - 1].end + 1
  }

  lemma GapsAreKept(ops: seq<Op>, ranges: seq<Range>, r: nat, high: int)
    requires MaximalRuns(ops, ranges) && r <= |ranges|
    requires high == if r < |ranges| then ranges[r].start else |ops|
    ensures 0 <= Until(ranges, r) <= high && forall k :: Until(ranges, r) <= k < high ==> ops[k].kind == Keep
  {
    forall k | Until(ranges, r) <= k < high ensures ops[k].kind == Keep {
      forall s | 0 <= s < |ranges| ensures !Inside(ranges[s], k) {
        assert r > 0 && s < r - 1 ==> ranges[s].end + 1 < ranges[r - 1].start;
        assert r < s ==> ranges[r].end + 1 < ranges[s].start;
      }
      OnlyUnchangedLinesLeftOut(ops, ranges, k);
    }
  }

  /** The first `r` hunks have the lines of the kind up to where they end. */
  lemma {:induction false} MarkedLines(
      ops: seq<Op>, hunks: seq<seq<string>>, ranges: seq<Range>, r: nat, kind: Kind)
    requires AreHunks(ops, hunks, ranges) && r <= |ranges| && kind != Keep
    ensures 0 <= Until(ranges, r) <= |ops|
    ensures Marked(Lines(hunks[..r]), Mark(kind)) == OfKind(ops[..Until(ranges, r)], kind)
  {
    if r > 0 {
      MarkedLines(ops, hunks, ranges, r - 1, kind);
      GapsAreKept(ops, ranges, r - 1, ranges[r - 1].start);
      assert hunks[..r][..r - 1] == hunks[..r - 1];
      OneMoreHunk(ops, Lines(hunks[..r - 1]), Until(ranges, r - 1), ranges[r - 1], kind);
    }
  }

  lemma OneMoreHunk(ops: seq<Op>, before: seq<string>, low: int, range: Range, kind: Kind)
    requires 0 <= low <= range.start <= range.end < |ops| && kind != Keep
    requires forall k :: low <= k < range.start ==> ops[k].kind == Keep
    requires Marked(before, Mark(kind)) == OfKind(ops[..low], kind)
    ensures Marked(before + Hunk(ops, range), Mark(kind)) == OfKind(ops[..range.end + 1], kind)
  {
    HunkShows(ops, range);
    MarkedShows(Hunk(ops, range), ops[range.start..range.end + 1], kind);
    MarkedAppend(before, Hunk(ops, range), Mark(kind));
    AcrossGap(ops, low, range.start, range.end + 1, kind);
  }

  lemma AcrossGap(ops: seq<Op>, low: int, start: int, end: int, kind: Kind)
    requires 0 <= low <= start <= end <= |ops| && kind != Keep
    requires forall k :: low <= k < start ==> ops[k].kind == Keep
    ensures OfKind(ops[..end], kind) == OfKind(ops[..low], kind) + OfKind(ops[start..end], kind)
  {
    NoneOfKept(ops[low..start], kind);
    OfKindAppend(ops[..low], ops[low..start], kind);
    OfKindAppend(ops[..start], ops[start..end], kind);
    assert ops[..low] + ops[low..start] == ops[..start] && ops[..start] + ops[start..end] == ops[..end];
  }

  lemma AllMarkedLines(ops: seq<Op>, hunks: seq<seq<string>>, ranges: seq<Range>, kind: Kind)
    requires AreHunks(ops, hunks, ranges) && kind != Keep
    ensures Marked(Lines(hunks), Mark(kind)) == OfKind(ops, kind)
  {
    var n := |ranges|;
    assert hunks[..n] == hunks;
    MarkedLines(ops, hunks, ranges, n, kind);
    GapsAreKept(ops, ranges, n, |ops|);
    AcrossGap(ops, Until(ranges, n), |ops|, |ops|, kind);
    assert ops[..|ops|] == ops && ops[|ops|..|ops|] == [];
  }

  lemma {:induction false} EditsAreLines(ops: seq<Op>)
    ensures multiset(Before(ops)) + multiset(OfKind(ops, Add)) == multiset(After(ops)) + multiset(OfKind(ops, Delete))
    ensures |OfKind(ops, Add)| + |OfKind(ops, Delete)| == Edits(ops)
  {
    if ops != [] {
      var op, rest := ops[0], ops[1..];
      assert ops == [op] + rest;
      EditsAreLines(rest);
      FirstLine(op, rest);
      Balance(op.kind, [op.line], Before(rest), OfKind(rest, Add), After(rest), OfKind(rest, Delete));
    }
  }

  lemma FirstLine(op: Op, rest: seq<Op>)
    ensures var ops, line := [op] + rest, [op.line];
      && Before(ops) == (if op.kind == Add then Before(rest) else line + Before(rest))
      && After(ops) == (if op.kind == Delete then After(rest) else line + After(rest))
      && OfKind(ops, Add) == (if op.kind == Add then line + OfKind(rest, Add) else OfKind(rest, Add))
      && OfKind(ops, Delete) == (if op.kind == Delete then line + OfKind(rest, Delete) else OfKind(rest, Delete))
      && Edits(ops) == (if op.kind == Keep then 0 else 1) + Edits(rest)
  {
    assert ([op] + rest)[1..] == rest;
  }

  lemma Balance(
      kind: Kind, line: seq<string>, before: seq<string>, added: seq<string>, after: seq<string>, removed: seq<string>)
    requires multiset(before) + multiset(added) == multiset(after) + multiset(removed)
    ensures multiset(if kind == Add then before else line + before)
            + multiset(if kind == Add then line + added else added)
         == multiset(if kind == Delete then after else line + after)
            + multiset(if kind == Delete then line + removed else removed)
  {
    assert multiset(line + before) == multiset(line) + multiset(before);
    assert multiset(line + added) == multiset(line) + multiset(added);
    assert multiset(line + after) == multiset(line) + multiset(after);
    assert multiset(line + removed) == multiset(line) + multiset(removed);
    Shifted(multiset(line), multiset(before), multiset(added), multiset(after), multiset(removed));
  }

  lemma Shifted(m: multiset<string>, a: multiset<string>, b: multiset<string>, c: multiset<string>, d: multiset<string>)
    requires a + b == c + d
    ensures m + a + b == m + c + d && a + (m + b) == m + c + d && m + a + b == c + (m + d)
  {
    assert m + a + b == m + (a + b) && m + c + d == m + (c + d);
    assert a + (m + b) == m + (a + b) && c + (m + d) == m + (c + d);
  }

  /**
   * The lines marked as removed and as added account for the whole difference of the two texts, and no script could
   * do with fewer of them.
   */
  lemma HunksShowTheDifference(
      original: seq<string>, modified: seq<string>, hunks: seq<seq<string>>, ranges: seq<Range>)
    requires AreHunks(Script(original, modified, 0, 0), hunks, ranges)
    ensures var removed, added := Marked(Lines(hunks), '-'), Marked(Lines(hunks), '+');
      && multiset(original) + multiset(added) == multiset(modified) + multiset(removed)
      && forall other :: Transforms(other, original, modified) ==> |removed| + |added| <= Edits(other)
  {
    var ops := Script(original, modified, 0, 0);
    ScriptIsOptimal(original, modified);
    AllMarkedLines(ops, hunks, ranges, Delete);
    AllMarkedLines(ops, hunks, ranges, Add);
    EditsAreLines(ops);
  }
}
