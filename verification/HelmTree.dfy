/**
 * Helm values as a YAML node tree (internal/analyzer/patch_plan.go): looking up a scalar by its keys and
 * replacing it in place. Nodes refer to each other by their index in the list of the document's nodes.
 */
module HelmTree {
  import opened Options

  datatype Kind = Mapping | Sequence | Scalar | Alias

  datatype Node = Node(
    kind: Kind, tag: string, value: string, style: nat, anchor: string, content: seq<nat>, alias: Option<nat>)

  type Nodes = seq<Node>

  const ROOT: nat := 0

  ghost predicate ChildAt(nodes: Nodes, n: int, i: int) {
    0 <= n < |nodes| && 0 <= i < |nodes[n].content|
  }

  /** What a YAML parser builds: a tree in which only aliases point elsewhere, namely to an anchored node. */
  ghost predicate Tree(nodes: Nodes) {
    && nodes != []
    && (forall n :: 0 <= n < |nodes| ==> InRange(nodes, nodes[n].content))
    && (forall n, i {:trigger ChildAt(nodes, n, i)} :: ChildAt(nodes, n, i) ==> n < nodes[n].content[i])
    && (forall n, i, m, j {:trigger ChildAt(nodes, n, i), ChildAt(nodes, m, j)} ::
          ChildAt(nodes, n, i) && ChildAt(nodes, m, j) && nodes[n].content[i] == nodes[m].content[j] ==>
          n == m && i == j)
    && (forall n :: 0 <= n < |nodes| && nodes[n].kind == Alias ==>
          && nodes[n].alias.Some? && nodes[n].alias.value < |nodes|
          && nodes[nodes[n].alias.value].anchor != "" && nodes[nodes[n].alias.value].kind != Alias)
    && (forall n :: 0 <= n < |nodes| && nodes[n].kind in {Scalar, Alias} ==> nodes[n].content == [])
  }

  predicate InRange(nodes: Nodes, content: seq<nat>) {
    forall i :: 0 <= i < |content| ==> content[i] < |nodes|
  }

  // ----- lookup -----

  datatype Lookup = Found(node: nat) | Missing | Refused

  /** Keys and values alternate. */
  predicate Paired(content: seq<nat>) {
    |content| % 2 == 0
  }

  function KeyAt(nodes: Nodes, content: seq<nat>, pair: nat): Node
    requires InRange(nodes, content) && 2 * pair < |content|
  {
    nodes[content[2 * pair]]
  }

  /** Every key is a plain scalar and none merges another mapping. */
  predicate Clean(nodes: Nodes, content: seq<nat>)
    requires InRange(nodes, content)
  {
    Paired(content) && PlainKeys(nodes, content, |content| / 2)
  }

  predicate PlainKeys(nodes: Nodes, content: seq<nat>, pairs: nat)
    requires InRange(nodes, content) && 2 * pairs <= |content|
  {
    forall pair :: 0 <= pair < pairs ==> PlainKey(KeyAt(nodes, content, pair))
  }

  predicate PlainKey(key: Node) {
    key.kind == Scalar && key.value != "<<" && key.tag != "!!merge"
  }

  /** The positions of the values with this key among the first pairs. */
  function Positions(nodes: Nodes, content: seq<nat>, pairs: nat, key: string): (ps: seq<nat>)
    requires InRange(nodes, content) && 2 * pairs <= |content|
    ensures forall k :: 0 <= k < |ps| ==> 0 < ps[k] < 2 * pairs && nodes[content[ps[k] - 1]].value == key
  {
    if pairs == 0 then []
    else
      Positions(nodes, content, pairs - 1, key)
      + if KeyAt(nodes, content, pairs - 1).value == key then [2 * pairs - 1] else []
  }

  function AllPositions(nodes: Nodes, content: seq<nat>, key: string): (ps: seq<nat>)
    requires InRange(nodes, content)
    ensures forall k :: 0 <= k < |ps| ==> 0 < ps[k] < |content| && nodes[content[ps[k] - 1]].value == key
  {
    Positions(nodes, content, |content| / 2, key)
  }

  predicate Leaf(node: Node) {
    node.kind == Scalar && node.tag != "!!null"
  }

  /** The scalar below `n` at these keys. Anchors, aliases, merges and duplicates on the way are refused. */
  ghost function Select(nodes: Nodes, n: nat, path: seq<string>): (found: Lookup)
    requires Tree(nodes) && n < |nodes|
    ensures found.Found? ==> found.node < |nodes| && Leaf(nodes[found.node])
    ensures found.Found? && path != [] ==> nodes[found.node].anchor == ""
    decreases |path|
  {
    if path == [] then if Leaf(nodes[n]) then Found(n) else Refused
    else
      var here := nodes[n];
      if here.anchor != "" || here.kind != Mapping || !Clean(nodes, here.content) then Refused
      else
        var ps := AllPositions(nodes, here.content, path[0]);
        if ps == [] then Missing
        else if |ps| > 1 then Refused
        else
          var child := here.content[ps[0]];
          if nodes[child].anchor != "" || (|path| > 1 && nodes[child].kind == Alias) then Refused
          else Select(nodes, child, path[1..])
  }

  ghost function ScalarAt(nodes: Nodes, path: seq<string>): (found: Lookup)
    requires Tree(nodes)
    ensures found.Found? ==> found.node < |nodes| && Leaf(nodes[found.node]) && nodes[found.node].anchor == ""
  {
    if path == [] then Refused else Select(nodes, ROOT, path)
  }

  /** The positions that the keys lead through. */
  ghost function Steps(nodes: Nodes, n: nat, path: seq<string>): (steps: seq<nat>)
    requires Tree(nodes) && n < |nodes| && Select(nodes, n, path).Found?
    ensures |steps| == |path|
    decreases |path|
  {
    if path == [] then []
    else
      var p := AllPositions(nodes, nodes[n].content, path[0])[0];
      [p] + Steps(nodes, nodes[n].content[p], path[1..])
  }

  // ----- what a path selects -----

  /** Pair `p` of a mapping has this key. */
  ghost predicate HasKey(nodes: Nodes, content: seq<nat>, p: int, key: string)
    requires InRange(nodes, content)
  {
    0 <= p && 2 * p + 1 < |content| && nodes[content[2 * p]].value == key
  }

  /** The key of pair `p` is a scalar that merges nothing. */
  ghost predicate Plain(nodes: Nodes, content: seq<nat>, p: int)
    requires InRange(nodes, content)
  {
    0 <= p && 2 * p + 1 < |content| ==>
      && nodes[content[2 * p]].kind == Scalar && nodes[content[2 * p]].value != "<<"
      && nodes[content[2 * p]].tag != "!!merge"
  }

  /**
   * One key leads from `n` to `m`: `n` is a mapping without an anchor that has a value for each key, all of them plain,
   * and this one exactly once, with `m`, which has no anchor, as its value.
   */
  ghost predicate Leads(nodes: Nodes, n: nat, key: string, m: nat)
    requires Tree(nodes) && n < |nodes|
  {
    var content := nodes[n].content;
    && nodes[n].kind == Mapping && nodes[n].anchor == "" && |content| % 2 == 0
    && (forall p :: Plain(nodes, content, p))
    && exists p :: && HasKey(nodes, content, p, key) && content[2 * p + 1] == m && nodes[m].anchor == ""
                   && forall q :: HasKey(nodes, content, q, key) ==> q == p
  }

  /** The keys lead from `n` to the scalar `m`, which is not null. */
  ghost predicate LeadsTo(nodes: Nodes, n: nat, path: seq<string>, m: nat)
    requires Tree(nodes) && n < |nodes|
    decreases |path|
  {
    if path == [] then m == n && nodes[n].kind == Scalar && nodes[n].tag != "!!null"
    else exists next: nat :: next < |nodes| && Leads(nodes, n, path[0], next) && LeadsTo(nodes, next, path[1..], m)
  }

  lemma {:induction false} KeyHasPosition(nodes: Nodes, content: seq<nat>, pairs: nat, key: string, p: nat)
    requires InRange(nodes, content) && 2 * pairs <= |content| && p < pairs && HasKey(nodes, content, p, key)
    ensures 2 * p + 1 in Positions(nodes, content, pairs, key)
  {
    if p < pairs - 1 {
      KeyHasPosition(nodes, content, pairs - 1, key, p);
    } else {
      var ps := Positions(nodes, content, pairs, key);
      assert ps[|ps| - 1] == 2 * p + 1;
    }
  }

  lemma {:induction false} PositionHasKey(nodes: Nodes, content: seq<nat>, pairs: nat, key: string, k: nat)
    returns (p: nat)
    requires InRange(nodes, content) && 2 * pairs <= |content| && k < |Positions(nodes, content, pairs, key)|
    ensures p < pairs && Positions(nodes, content, pairs, key)[k] == 2 * p + 1 && HasKey(nodes, content, p, key)
  {
    if k < |Positions(nodes, content, pairs - 1, key)| {
      p := PositionHasKey(nodes, content, pairs - 1, key, k);
    } else {
      p := pairs - 1;
    }
  }

  lemma {:induction false} PositionsAscend(nodes: Nodes, content: seq<nat>, pairs: nat, key: string, j: nat, k: nat)
    requires InRange(nodes, content) && 2 * pairs <= |content| && j < k < |Positions(nodes, content, pairs, key)|
    ensures Positions(nodes, content, pairs, key)[j] < Positions(nodes, content, pairs, key)[k]
  {
    if k < |Positions(nodes, content, pairs - 1, key)| {
      PositionsAscend(nodes, content, pairs - 1, key, j, k);
    }
  }

  lemma CleanMeans(nodes: Nodes, content: seq<nat>)
    requires InRange(nodes, content)
    ensures Clean(nodes, content) <==> |content| % 2 == 0 && forall p :: Plain(nodes, content, p)
  {
    if |content| % 2 == 0 {
      forall pair | 0 <= pair < |content| / 2
        ensures PlainKey(KeyAt(nodes, content, pair)) <==> Plain(nodes, content, pair)
      {
      }
    }
  }

  /** The step of a lookup leads to the value of the only pair with the key. */
  lemma StepLeads(nodes: Nodes, n: nat, key: string, m: nat)
    requires Tree(nodes) && n < |nodes| && nodes[n].kind == Mapping && nodes[n].anchor == ""
    requires Clean(nodes, nodes[n].content)
    ensures var ps := AllPositions(nodes, nodes[n].content, key);
      Leads(nodes, n, key, m) <==> |ps| == 1 && nodes[n].content[ps[0]] == m && nodes[m].anchor == ""
  {
    var content := nodes[n].content;
    var ps := AllPositions(nodes, content, key);
    CleanMeans(nodes, content);
    if |ps| == 1 && content[ps[0]] == m && nodes[m].anchor == "" {
      var p := OnlyPair(nodes, content, key);
    }
    if Leads(nodes, n, key, m) {
      var p :| HasKey(nodes, content, p, key) && content[2 * p + 1] == m && nodes[m].anchor == ""
               && forall q :: HasKey(nodes, content, q, key) ==> q == p;
      OnlyPosition(nodes, content, key, p);
    }
  }

  lemma OnlyPosition(nodes: Nodes, content: seq<nat>, key: string, p: nat)
    requires InRange(nodes, content) && HasKey(nodes, content, p, key)
    requires forall q :: HasKey(nodes, content, q, key) ==> q == p
    ensures AllPositions(nodes, content, key) == [2 * p + 1]
  {
    var ps := AllPositions(nodes, content, key);
    KeyHasPosition(nodes, content, |content| / 2, key, p);
    forall k: nat | k < |ps| ensures ps[k] == 2 * p + 1 {
      var q := PositionHasKey(nodes, content, |content| / 2, key, k);
    }
    if |ps| > 1 {
      PositionsAscend(nodes, content, |content| / 2, key, 0, 1);
    }
  }

  lemma OnlyPair(nodes: Nodes, content: seq<nat>, key: string) returns (p: nat)
    requires InRange(nodes, content) && |content| % 2 == 0 && |AllPositions(nodes, content, key)| == 1
    ensures AllPositions(nodes, content, key) == [2 * p + 1]
    ensures HasKey(nodes, content, p, key) && forall q :: HasKey(nodes, content, q, key) ==> q == p
  {
    p := PositionHasKey(nodes, content, |content| / 2, key, 0);
    forall q | HasKey(nodes, content, q, key) ensures q == p {
      KeyHasPosition(nodes, content, |content| / 2, key, q);
    }
  }

  lemma {:induction false} SelectMeans(nodes: Nodes, n: nat, path: seq<string>, m: nat)
    requires Tree(nodes) && n < |nodes|
    ensures Select(nodes, n, path) == Found(m) <==> LeadsTo(nodes, n, path, m)
    decreases |path|
  {
    if path != [] {
      var here := nodes[n];
      CleanMeans(nodes, here.content);
      if here.anchor == "" && here.kind == Mapping && Clean(nodes, here.content) {
        var ps := AllPositions(nodes, here.content, path[0]);
        forall next: nat | next < |nodes|
          ensures Leads(nodes, n, path[0], next)
             <==> |ps| == 1 && here.content[ps[0]] == next && nodes[next].anchor == ""
        {
          StepLeads(nodes, n, path[0], next);
        }
        if |ps| == 1 {
          SelectMeans(nodes, here.content[ps[0]], path[1..], m);
        }
      }
    }
  }

  /** A path finds a scalar exactly if its keys lead there from the root. */
  lemma ScalarMeans(nodes: Nodes, path: seq<string>, m: nat)
    requires Tree(nodes)
    ensures ScalarAt(nodes, path) == Found(m) <==> path != [] && LeadsTo(nodes, ROOT, path, m)
  {
    SelectMeans(nodes, ROOT, path, m);
  }

  // ----- the document as a reader sees it -----

  datatype Label = Label(kind: Kind, tag: string, value: string, style: nat, anchor: string, children: nat)

  function LabelOf(node: Node): Label {
    Label(node.kind, node.tag, node.value, node.style, node.anchor, |node.content|)
  }

  ghost function Resolved(nodes: Nodes, n: nat): (r: nat)
    requires Tree(nodes) && n < |nodes|
    ensures r < |nodes| && nodes[r].kind != Alias
  {
    if nodes[n].kind == Alias then nodes[n].alias.value else n
  }

  /** The node at a position, following aliases everywhere on the way. */
  ghost function Resolve(nodes: Nodes, n: nat, position: seq<nat>): Option<nat>
    requires Tree(nodes) && n < |nodes|
    decreases |position|
  {
    var here := Resolved(nodes, n);
    if position == [] then Some(here)
    else if position[0] >= |nodes[here].content| then None
    else Resolve(nodes, nodes[here].content[position[0]], position[1..])
  }

  /** What stands at a position of the document in which every alias is replaced by what it refers to. */
  ghost function Expanded(nodes: Nodes, position: seq<nat>): Option<Label>
    requires Tree(nodes)
  {
    var n := Resolve(nodes, ROOT, position);
    if n.Some? && n.value < |nodes| then Some(LabelOf(nodes[n.value])) else None
  }

  // ----- replacing a scalar -----

  predicate Digits(s: string) {
    s != "" && AllDigits(s)
  }

  predicate AllDigits(s: string) {
    forall i :: 0 <= i < |s| ==> '0' <= s[i] <= '9'
  }

  function Number(s: string): nat
    requires AllDigits(s)
  {
    if s == "" then 0 else 10 * Number(s[..|s| - 1]) + (s[|s| - 1] as int - '0' as int)
  }

  const MAX_INT64 := 0x7fff_ffff_ffff_ffff

  /** A decimal number of 64 bits, with an optional sign. */
  predicate Int64(s: string) {
    if s != "" && s[0] in "+-" then
      Digits(s[1..]) && Number(s[1..]) <= if s[0] == '-' then MAX_INT64 + 1 else MAX_INT64
    else Digits(s) && Number(s) <= MAX_INT64
  }

  /** The scalar with a new value. Strings stay strings and keep their style. */
  function Replaced(node: Node, value: string, asString: bool): Node {
    var tag := if asString || node.tag == "!!str" || !Int64(value) then "!!str" else "!!int";
    Node(Scalar, tag, value, if tag == "!!str" then node.style else 0, node.anchor, [], None)
  }

  /** The usual way to write a number. */
  function Decimal(n: nat): (s: string)
    ensures AllDigits(s) && s != ""
  {
    (if n < 10 then "" else Decimal(n / 10)) + [('0' as int + n % 10) as char]
  }

  lemma {:induction false} DecimalIsNumber(n: nat)
    ensures Number(Decimal(n)) == n
  {
    var front, last := if n < 10 then "" else Decimal(n / 10), ('0' as int + n % 10) as char;
    assert (front + [last])[..|front|] == front;
    if n >= 10 {
      DecimalIsNumber(n / 10);
    }
  }

  /** The texts that are written as numbers are those of 64 bits. */
  lemma Int64Means(n: nat)
    ensures Int64(Decimal(n)) <==> n <= 9223372036854775807
    ensures Int64("-" + Decimal(n)) <==> n <= 9223372036854775808
    ensures !Int64("") && !Int64("-")
  {
    DecimalIsNumber(n);
    NumberIsInt64(Decimal(n), n);
  }

  lemma NumberIsInt64(s: string, n: nat)
    requires AllDigits(s) && s != "" && Number(s) == n
    ensures Int64(s) <==> n <= 9223372036854775807
    ensures Int64("-" + s) <==> n <= 9223372036854775808
    ensures !Int64("") && !Int64("-")
  {
    assert ("-" + s)[1..] == s && "-"[1..] == "";
    assert '0' <= s[0] <= '9';
  }

  method UniqueMappingValue(nodes: Nodes, content: seq<nat>, key: string) returns (result: Lookup)
    requires InRange(nodes, content)
    ensures var ps := AllPositions(nodes, content, key);
      result == if !Clean(nodes, content) || |ps| > 1 then Refused
                else if ps == [] then Missing else Found(content[ps[0]])
  {
    if |content| % 2 != 0 {
      return Refused;
    }
    result := UniqueValue(nodes, content, |content| / 2, key);
    ScanIsExact(nodes, content, |content| / 2, key);
  }

  /** The scan as the source does it, giving up at the first offence. */
  function Scan(nodes: Nodes, content: seq<nat>, pairs: nat, key: string): Lookup
    requires InRange(nodes, content) && 2 * pairs <= |content|
  {
    if pairs == 0 then Missing
    else
      var before, k := Scan(nodes, content, pairs - 1, key), KeyAt(nodes, content, pairs - 1);
      if before.Refused? || !PlainKey(k) then Refused
      else if k.value != key then before
      else if before.Found? then Refused
      else Found(content[2 * pairs - 1])
  }

  method UniqueValue(nodes: Nodes, content: seq<nat>, pairs: nat, key: string) returns (result: Lookup)
    requires InRange(nodes, content) && 2 * pairs <= |content|
    ensures result == Scan(nodes, content, pairs, key)
  {
    result := Missing;
    for pair := 0 to pairs
      invariant result == Scan(nodes, content, pair, key) && !result.Refused?
    {
      var keyNode := KeyAt(nodes, content, pair);
      if !PlainKey(keyNode) {
        StaysRefused(nodes, content, pair + 1, pairs, key);
        return Refused;
      }
      if keyNode.value == key {
        if result.Found? {
          StaysRefused(nodes, content, pair + 1, pairs, key);
          return Refused;
        }
        result := Found(content[2 * pair + 1]);
      }
    }
  }

  lemma {:induction false} StaysRefused(nodes: Nodes, content: seq<nat>, some: nat, more: nat, key: string)
    requires InRange(nodes, content) && some <= more && 2 * more <= |content|
    requires Scan(nodes, content, some, key).Refused?
    ensures Scan(nodes, content, more, key).Refused?
  {
    if some < more {
      StaysRefused(nodes, content, some, more - 1, key);
    }
  }

  /** The scan finds the value exactly if all keys are plain and one of them is the key. */
  lemma {:induction false} ScanIsExact(nodes: Nodes, content: seq<nat>, pairs: nat, key: string)
    requires InRange(nodes, content) && 2 * pairs <= |content|
    ensures var ps := Positions(nodes, content, pairs, key);
      Scan(nodes, content, pairs, key)
      == if |ps| > 1 || !PlainKeys(nodes, content, pairs) then Refused
         else if ps == [] then Missing else Found(content[ps[0]])
    decreases pairs
  {
    if pairs > 0 {
      var k, before := KeyAt(nodes, content, pairs - 1), Positions(nodes, content, pairs - 1, key);
      ScanIsExact(nodes, content, pairs - 1, key);
      OneMoreKey(nodes, content, pairs - 1);
      if k.value == key {
        assert Positions(nodes, content, pairs, key) == before + [2 * pairs - 1];
      } else {
        assert Positions(nodes, content, pairs, key) == before;
      }
    }
  }

  lemma OneMoreKey(nodes: Nodes, content: seq<nat>, pairs: nat)
    requires InRange(nodes, content) && 2 * pairs + 2 <= |content|
    ensures PlainKeys(nodes, content, pairs + 1)
       <==> PlainKeys(nodes, content, pairs) && PlainKey(KeyAt(nodes, content, pairs))
  {
  }

  class Document {
    var nodes: Nodes

    constructor (parsed: Nodes)
      ensures nodes == parsed
    {
      nodes := parsed;
    }

    method ScalarNodeAt(path: seq<string>) returns (result: Lookup)
      requires Tree(nodes)
      ensures result == ScalarAt(nodes, path)
    {
      if path == [] {
        return Refused;
      }
      var current: nat := ROOT;
      for i := 0 to |path|
        invariant current < |nodes|
        invariant Select(nodes, ROOT, path) == Select(nodes, current, path[i..])
      {
        assert path[i..][0] == path[i] && path[i..][1..] == path[i + 1..];
        if nodes[current].anchor != "" || nodes[current].kind == Alias || nodes[current].kind != Mapping {
          return Refused;
        }
        var next := UniqueMappingValue(nodes, nodes[current].content, path[i]);
        if !next.Found? {
          return next;
        }
        current := next.node;
        if nodes[current].anchor != "" || (i < |path| - 1 && nodes[current].kind == Alias) {
          return Refused;
        }
      }
      assert path[|path|..] == [];
      return if nodes[current].kind != Scalar || nodes[current].tag == "!!null" then Refused else Found(current);
    }

    /** One node is overwritten, if the path selects one. */
    method SetScalarAt(path: seq<string>, value: string, asString: bool) returns (ok: bool)
      requires Tree(nodes)
      modifies this
      ensures ok <==> ScalarAt(old(nodes), path).Found?
      ensures !ok ==> nodes == old(nodes)
      ensures ok ==> var t := ScalarAt(old(nodes), path).node;
        nodes == old(nodes)[t := Replaced(old(nodes)[t], value, asString)]
    {
      var found := ScalarNodeAt(path);
      if !found.Found? {
        return false;
      }
      nodes := nodes[found.node := Replaced(nodes[found.node], value, asString)];
      return true;
    }
  }

  // ----- the frame -----

  lemma ReplacedIsTree(nodes: Nodes, t: nat, node: Node)
    requires Tree(nodes) && t < |nodes| && nodes[t].kind == node.kind == Scalar
    requires nodes[t].anchor == node.anchor && node.content == []
    ensures Tree(nodes[t := node])
  {
    var after := nodes[t := node];
    assert forall n :: 0 <= n < |nodes| ==> after[n].content == nodes[n].content;
    forall n, i ensures ChildAt(after, n, i) <==> ChildAt(nodes, n, i) {
    }
  }

  /** The document after a replacement. */
  ghost function Set(nodes: Nodes, path: seq<string>, value: string, asString: bool): (after: Nodes)
    requires Tree(nodes) && ScalarAt(nodes, path).Found?
    ensures Tree(after) && |after| == |nodes|
  {
    var t := ScalarAt(nodes, path).node;
    ReplacedIsTree(nodes, t, Replaced(nodes[t], value, asString));
    nodes[t := Replaced(nodes[t], value, asString)]
  }

  /** A walk down the tree over nodes without anchors or aliases. */
  ghost predicate IsChain(nodes: Nodes, chain: seq<nat>, steps: seq<nat>) {
    && |chain| == |steps| + 1
    && (forall i :: 0 <= i < |chain| ==>
          chain[i] < |nodes| && nodes[chain[i]].anchor == "" && nodes[chain[i]].kind != Alias)
    && (forall i :: 0 <= i < |steps| ==>
          ChildAt(nodes, chain[i], steps[i]) && nodes[chain[i]].content[steps[i]] == chain[i + 1])
  }

  lemma ChainFrom(nodes: Nodes, n: nat, p: nat, chain: seq<nat>, steps: seq<nat>)
    requires IsChain(nodes, chain, steps) && ChildAt(nodes, n, p) && nodes[n].content[p] == chain[0]
    requires nodes[n].anchor == "" && nodes[n].kind != Alias
    ensures IsChain(nodes, [n] + chain, [p] + steps)
  {
    var longer, more := [n] + chain, [p] + steps;
    forall i | 0 <= i < |more|
      ensures ChildAt(nodes, longer[i], more[i]) && nodes[longer[i]].content[more[i]] == longer[i + 1]
    {
      assert i > 0 ==> longer[i] == chain[i - 1] && more[i] == steps[i - 1];
    }
  }

  lemma {:induction false} SelectionIsChain(nodes: Nodes, n: nat, path: seq<string>) returns (chain: seq<nat>)
    requires Tree(nodes) && n < |nodes| && Select(nodes, n, path).Found? && nodes[n].anchor == ""
    ensures IsChain(nodes, chain, Steps(nodes, n, path)) && |chain| == |path| + 1
    ensures chain[0] == n && chain[|path|] == Select(nodes, n, path).node
    decreases |path|
  {
    if path == [] {
      chain := [n];
    } else {
      var p := AllPositions(nodes, nodes[n].content, path[0])[0];
      var rest := SelectionIsChain(nodes, nodes[n].content[p], path[1..]);
      ChainFrom(nodes, n, p, rest, Steps(nodes, nodes[n].content[p], path[1..]));
      chain := [n] + rest;
    }
  }

  lemma ChainAscends(nodes: Nodes, chain: seq<nat>, steps: seq<nat>, k: nat)
    requires Tree(nodes) && IsChain(nodes, chain, steps) && 0 < k <= |steps|
    ensures chain[k] != ROOT
  {
    assert ChildAt(nodes, chain[k - 1], steps[k - 1]);
  }

  /** From the end of a chain, every way back up is the chain: there is no other way to get there. */
  lemma {:induction false} OnlyAlongTheChain(nodes: Nodes, chain: seq<nat>, steps: seq<nat>, n: nat, position: seq<nat>)
    returns (k: nat)
    requires Tree(nodes) && IsChain(nodes, chain, steps) && chain[0] == ROOT && n < |nodes|
    requires Resolve(nodes, n, position) == Some(chain[|steps|])
    ensures k <= |steps| && chain[k] == n && position == steps[k..]
    decreases |position|
  {
    var here := Resolved(nodes, n);
    if position == [] {
      k := |steps|;
    } else {
      var child := nodes[here].content[position[0]];
      assert ChildAt(nodes, here, position[0]);
      var below := OnlyAlongTheChain(nodes, chain, steps, child, position[1..]);
      assert below > 0;
      assert ChildAt(nodes, chain[below - 1], steps[below - 1]);
      assert nodes[here].content[position[0]] == nodes[chain[below - 1]].content[steps[below - 1]];
      k := below - 1;
      assert position == [position[0]] + position[1..] == [steps[k]] + steps[k + 1..] == steps[k..];
    }
    assert nodes[chain[k]].anchor == "";
  }

  lemma {:induction false} ChainResolves(nodes: Nodes, chain: seq<nat>, steps: seq<nat>, k: nat)
    requires Tree(nodes) && IsChain(nodes, chain, steps) && k <= |steps|
    ensures Resolve(nodes, chain[k], steps[k..]) == Some(chain[|steps|])
    decreases |steps| - k
  {
    if k < |steps| {
      assert ChildAt(nodes, chain[k], steps[k]);
      assert steps[k..][0] == steps[k] && steps[k..][1..] == steps[k + 1..];
      ChainResolves(nodes, chain, steps, k + 1);
    }
  }

  /** The selected node stands at the selected position of the expanded document and nowhere else. */
  lemma StandsOnlyThere(nodes: Nodes, path: seq<string>, position: seq<nat>)
    requires Tree(nodes) && ScalarAt(nodes, path).Found?
    ensures Resolve(nodes, ROOT, position) == Some(ScalarAt(nodes, path).node) <==> position == Steps(nodes, ROOT, path)
  {
    var chain := SelectionIsChain(nodes, ROOT, path);
    var steps := Steps(nodes, ROOT, path);
    if Resolve(nodes, ROOT, position) == Some(ScalarAt(nodes, path).node) {
      var k := OnlyAlongTheChain(nodes, chain, steps, ROOT, position);
      if k > 0 {
        ChainAscends(nodes, chain, steps, k);
      }
    }
    ChainResolves(nodes, chain, steps, 0);
    assert steps[0..] == steps;
  }

  lemma {:induction false} ResolveKept(nodes: Nodes, after: Nodes, n: nat, position: seq<nat>)
    requires Tree(nodes) && Tree(after) && |after| == |nodes| && n < |nodes|
    requires forall m :: 0 <= m < |nodes| ==> after[m].content == nodes[m].content && after[m].kind == nodes[m].kind
    requires forall m :: 0 <= m < |nodes| && nodes[m].kind == Alias ==> after[m] == nodes[m]
    ensures Resolve(after, n, position) == Resolve(nodes, n, position)
    decreases |position|
  {
    var here := Resolved(nodes, n);
    if position != [] && position[0] < |nodes[here].content| {
      ResolveKept(nodes, after, nodes[here].content[position[0]], position[1..]);
    }
  }

  lemma ResolveAfterSet(nodes: Nodes, path: seq<string>, value: string, asString: bool, position: seq<nat>)
    requires Tree(nodes) && ScalarAt(nodes, path).Found?
    ensures Resolve(Set(nodes, path, value, asString), ROOT, position) == Resolve(nodes, ROOT, position)
  {
    var t, after := ScalarAt(nodes, path).node, Set(nodes, path, value, asString);
    forall m | 0 <= m < |nodes|
      ensures after[m].content == nodes[m].content && after[m].kind == nodes[m].kind
      ensures nodes[m].kind == Alias ==> after[m] == nodes[m]
    {
      assert m != t ==> after[m] == nodes[m];
    }
    ResolveKept(nodes, after, ROOT, position);
  }

  /** A replacement changes the expanded document at the selected position, and there only. */
  lemma ChangesOnlyTheSelected(nodes: Nodes, path: seq<string>, value: string, asString: bool, position: seq<nat>)
    requires Tree(nodes) && ScalarAt(nodes, path).Found?
    ensures Expanded(Set(nodes, path, value, asString), position)
         == if position == Steps(nodes, ROOT, path)
            then Some(LabelOf(Replaced(nodes[ScalarAt(nodes, path).node], value, asString)))
            else Expanded(nodes, position)
  {
    ResolveAfterSet(nodes, path, value, asString, position);
    StandsOnlyThere(nodes, path, position);
  }

  // ----- other lookups -----

  lemma {:induction false} OddPositions(nodes: Nodes, content: seq<nat>, pairs: nat, key: string, k: nat)
    requires InRange(nodes, content) && 2 * pairs <= |content| && k < |Positions(nodes, content, pairs, key)|
    ensures Positions(nodes, content, pairs, key)[k] % 2 == 1
  {
    if k < |Positions(nodes, content, pairs - 1, key)| {
      OddPositions(nodes, content, pairs - 1, key, k);
    }
  }

  /** The selected node is a value of its mapping. */
  lemma {:induction false} SelectedIsValue(nodes: Nodes, n: nat, path: seq<string>) returns (parent: nat, i: nat)
    requires Tree(nodes) && n < |nodes| && path != [] && Select(nodes, n, path).Found?
    ensures ChildAt(nodes, parent, i) && i % 2 == 1 && nodes[parent].content[i] == Select(nodes, n, path).node
    decreases |path|
  {
    var content := nodes[n].content;
    var p := AllPositions(nodes, content, path[0])[0];
    if |path| == 1 {
      OddPositions(nodes, content, |content| / 2, path[0], 0);
      parent, i := n, p;
    } else {
      parent, i := SelectedIsValue(nodes, content[p], path[1..]);
    }
  }

  /** `t` is not a key of any mapping. */
  ghost predicate NoKey(nodes: Nodes, t: nat) {
    forall n, i {:trigger nodes[n].content[i]} :: ChildAt(nodes, n, i) && i % 2 == 0 ==> nodes[n].content[i] != t
  }

  lemma SelectedIsNoKey(nodes: Nodes, path: seq<string>)
    requires Tree(nodes) && ScalarAt(nodes, path).Found?
    ensures NoKey(nodes, ScalarAt(nodes, path).node)
  {
    var parent, p := SelectedIsValue(nodes, ROOT, path);
    forall n, i {:trigger nodes[n].content[i]} | ChildAt(nodes, n, i) && i % 2 == 0
      ensures nodes[n].content[i] != ScalarAt(nodes, path).node
    {
      assert nodes[parent].content[p] == ScalarAt(nodes, path).node;
    }
  }

  lemma {:induction false} PositionsKept(nodes: Nodes, after: Nodes, content: seq<nat>, pairs: nat, key: string)
    requires InRange(nodes, content) && |after| == |nodes| && 2 * pairs <= |content|
    requires forall pair :: 0 <= pair < pairs ==> KeyAt(after, content, pair) == KeyAt(nodes, content, pair)
    ensures Positions(after, content, pairs, key) == Positions(nodes, content, pairs, key)
  {
    if pairs > 0 {
      PositionsKept(nodes, after, content, pairs - 1, key);
    }
  }

  lemma MappingKept(nodes: Nodes, t: nat, node: Node, n: nat, key: string)
    requires Tree(nodes) && NoKey(nodes, t) && t < |nodes| && n < |nodes|
    ensures var content, after := nodes[n].content, nodes[t := node];
      && Clean(after, content) == Clean(nodes, content)
      && AllPositions(after, content, key) == AllPositions(nodes, content, key)
  {
    var content, after := nodes[n].content, nodes[t := node];
    forall pair | 0 <= pair < |content| / 2 ensures KeyAt(after, content, pair) == KeyAt(nodes, content, pair) {
      assert ChildAt(nodes, n, 2 * pair);
      assert nodes[n].content[2 * pair] != t;
    }
    PositionsKept(nodes, after, content, |content| / 2, key);
  }

  /** What a selection depends on. */
  lemma SelectAgrees(nodes: Nodes, after: Nodes, n: nat, path: seq<string>)
    requires Tree(nodes) && Tree(after) && |after| == |nodes| && n < |nodes| && path != [] && after[n] == nodes[n]
    requires var content := nodes[n].content;
      && Clean(after, content) == Clean(nodes, content)
      && AllPositions(after, content, path[0]) == AllPositions(nodes, content, path[0])
      && var ps := AllPositions(nodes, content, path[0]);
         |ps| == 1 ==>
           && after[content[ps[0]]].anchor == nodes[content[ps[0]]].anchor
           && after[content[ps[0]]].kind == nodes[content[ps[0]]].kind
           && Select(after, content[ps[0]], path[1..]) == Select(nodes, content[ps[0]], path[1..])
    ensures Select(after, n, path) == Select(nodes, n, path)
  {
  }

  lemma {:induction false} SelectKept(nodes: Nodes, t: nat, node: Node, n: nat, path: seq<string>)
    requires Tree(nodes) && NoKey(nodes, t) && t < |nodes| && n < |nodes|
    requires Tree(nodes[t := node]) && Leaf(node) && Leaf(nodes[t]) && node.anchor == nodes[t].anchor
    ensures Select(nodes[t := node], n, path) == Select(nodes, n, path)
    decreases |path|
  {
    if path != [] && n != t {
      MappingKept(nodes, t, node, n, path[0]);
      var ps := AllPositions(nodes, nodes[n].content, path[0]);
      if |ps| == 1 {
        SelectKept(nodes, t, node, nodes[n].content[ps[0]], path[1..]);
      }
      SelectAgrees(nodes, nodes[t := node], n, path);
    }
  }

  /** The key before a value, and the keys on the way down. */
  function KeyBefore(nodes: Nodes, n: nat, p: nat): string {
    if n < |nodes| && 0 < p < |nodes[n].content| && nodes[n].content[p - 1] < |nodes|
    then nodes[nodes[n].content[p - 1]].value else ""
  }

  function Keys(nodes: Nodes, n: nat, steps: seq<nat>): seq<string>
    decreases |steps|
  {
    if steps == [] || n >= |nodes| || steps[0] >= |nodes[n].content| then []
    else [KeyBefore(nodes, n, steps[0])] + Keys(nodes, nodes[n].content[steps[0]], steps[1..])
  }

  lemma FirstStep(nodes: Nodes, n: nat, path: seq<string>) returns (child: nat)
    requires Tree(nodes) && n < |nodes| && path != [] && Select(nodes, n, path).Found?
    ensures var steps := Steps(nodes, n, path);
      && steps[0] < |nodes[n].content| && child == nodes[n].content[steps[0]] < |nodes|
      && KeyBefore(nodes, n, steps[0]) == path[0]
      && Select(nodes, child, path[1..]).Found? && Steps(nodes, child, path[1..]) == steps[1..]
  {
    child := nodes[n].content[AllPositions(nodes, nodes[n].content, path[0])[0]];
  }

  lemma KeysUnfold(nodes: Nodes, n: nat, steps: seq<nat>, path: seq<string>)
    requires n < |nodes| && |steps| == |path| > 0 && steps[0] < |nodes[n].content|
      && KeyBefore(nodes, n, steps[0]) == path[0]
    requires Keys(nodes, nodes[n].content[steps[0]], steps[1..]) == path[1..]
    ensures Keys(nodes, n, steps) == path
  {
    assert path == [path[0]] + path[1..];
  }

  /** The positions determine the keys. */
  lemma {:induction false} KeysOfSteps(nodes: Nodes, n: nat, path: seq<string>)
    requires Tree(nodes) && n < |nodes| && Select(nodes, n, path).Found?
    ensures Keys(nodes, n, Steps(nodes, n, path)) == path
    decreases |path|
  {
    if path != [] {
      var child := FirstStep(nodes, n, path);
      KeysOfSteps(nodes, child, path[1..]);
      KeysUnfold(nodes, n, Steps(nodes, n, path), path);
    }
  }

  /** Different paths select different nodes. */
  lemma SelectionIsInjective(nodes: Nodes, path: seq<string>, other: seq<string>)
    requires Tree(nodes) && ScalarAt(nodes, path).Found? && ScalarAt(nodes, other) == ScalarAt(nodes, path)
    ensures path == other
  {
    StandsOnlyThere(nodes, path, Steps(nodes, ROOT, other));
    StandsOnlyThere(nodes, other, Steps(nodes, ROOT, other));
    KeysOfSteps(nodes, ROOT, path);
    KeysOfSteps(nodes, ROOT, other);
  }

  /** After a replacement every path selects what it selected before. */
  lemma LookupsKept(nodes: Nodes, path: seq<string>, value: string, asString: bool, other: seq<string>)
    requires Tree(nodes) && ScalarAt(nodes, path).Found?
    ensures ScalarAt(Set(nodes, path, value, asString), other) == ScalarAt(nodes, other)
  {
    SelectedIsNoKey(nodes, path);
    var t := ScalarAt(nodes, path).node;
    var after := Set(nodes, path, value, asString);
    SelectKept(nodes, t, Replaced(nodes[t], value, asString), ROOT, other);
  }

  /** The replacement is read back at its path, and every other path reads what it read before. */
  lemma OtherValuesKept(nodes: Nodes, path: seq<string>, value: string, asString: bool, other: seq<string>)
    requires Tree(nodes) && ScalarAt(nodes, path).Found? && ScalarAt(nodes, other).Found?
    ensures var n, after := ScalarAt(nodes, other).node, Set(nodes, path, value, asString);
      after[n] == if other == path then Replaced(nodes[n], value, asString) else nodes[n]
  {
    if ScalarAt(nodes, other) == ScalarAt(nodes, path) {
      SelectionIsInjective(nodes, path, other);
    }
  }
}
