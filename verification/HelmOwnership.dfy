/**
 * The check of a profile that no two workloads claim overlapping values of one file (internal/config/config.go).
 * HelmPlanner shows what it means for their changes.
 */
module HelmOwnership {
  import opened Options
  import opened HelmMerge

  datatype HelmPaths = HelmPaths(replicas: seq<string>, cpuRequest: seq<string>, memoryRequest: seq<string>)

  /** The fields to be scaled. */
  datatype Scaling = Scaling(replicas: bool, cpu: bool, memory: bool)

  /**
   * `sourceFile` is the cleaned path; it is empty for a workload without a source. `container` selects a container
   * by its name, if it is not empty.
   */
  datatype Spec = Spec(name: string, sourceFile: string, helm: Option<HelmPaths>, scaling: Scaling, container: string)

  datatype Claim = Claim(source: string, path: seq<string>)

  function Fields(helm: HelmPaths): (fields: seq<seq<string>>)
    ensures |fields| == 3
  {
    [helm.replicas, helm.cpuRequest, helm.memoryRequest]
  }

  /** The configured paths among the first `n` fields. */
  function FieldClaims(source: string, fields: seq<seq<string>>, n: nat): seq<Claim>
    requires n <= |fields|
  {
    if n == 0 then []
    else FieldClaims(source, fields, n - 1) + if fields[n - 1] == [] then [] else [Claim(source, fields[n - 1])]
  }

  function ClaimsOf(spec: Spec): seq<Claim> {
    if spec.sourceFile == "" || spec.helm.None? then []
    else FieldClaims(spec.sourceFile, Fields(spec.helm.value), 3)
  }

  /** Every value that a profile claims, workload by workload. */
  function Claims(specs: seq<Spec>): seq<Claim> {
    if specs == [] then [] else Claims(specs[..|specs| - 1]) + ClaimsOf(specs[|specs| - 1])
  }

  ghost predicate FormatsAgree(specs: seq<Spec>) {
    forall i, j :: 0 <= i < j < |specs| && specs[i].sourceFile == specs[j].sourceFile != "" ==>
      (specs[i].helm.Some? <==> specs[j].helm.Some?)
  }

  ghost predicate Disjoint(claims: seq<Claim>) {
    forall i, j :: 0 <= i < j < |claims| && claims[i].source == claims[j].source ==>
      !Overlap(claims[i].path, claims[j].path)
  }

  /** One format for each file, and no overlapping claims. */
  ghost predicate Owned(specs: seq<Spec>) {
    FormatsAgree(specs) && Disjoint(Claims(specs))
  }

  // ----- the check -----

  /** `formats` knows the format of every file of these workloads. */
  ghost predicate Knows(formats: map<string, bool>, specs: seq<Spec>) {
    && (forall i :: 0 <= i < |specs| && specs[i].sourceFile != "" ==>
          specs[i].sourceFile in formats && formats[specs[i].sourceFile] == specs[i].helm.Some?)
    && (forall f :: f in formats ==> exists i :: 0 <= i < |specs| && specs[i].sourceFile == f != "")
  }

  function PathsOf(owners: map<string, seq<seq<string>>>, source: string): seq<seq<string>> {
    if source in owners then owners[source] else []
  }

  /** `owners` lists the claimed paths of every file. */
  ghost predicate Lists(owners: map<string, seq<seq<string>>>, claims: seq<Claim>) {
    forall source, path :: path in PathsOf(owners, source) <==> Claim(source, path) in claims
  }

  method OverlapsOne(paths: seq<seq<string>>, path: seq<string>) returns (overlap: bool)
    ensures overlap <==> exists p :: p in paths && Overlap(p, path)
  {
    for i := 0 to |paths|
      invariant forall k :: 0 <= k < i ==> !Overlap(paths[k], path)
    {
      var found := PathsOverlap(paths[i], path);
      if found {
        assert paths[i] in paths;
        return true;
      }
    }
    return false;
  }

  /** Adds the claims of one workload, unless one of them overlaps. */
  method AddClaims(source: string, helm: HelmPaths, owners: map<string, seq<seq<string>>>, ghost claims: seq<Claim>)
    returns (ok: bool, added: map<string, seq<seq<string>>>)
    requires Disjoint(claims) && Lists(owners, claims)
    ensures ok <==> Disjoint(claims + FieldClaims(source, Fields(helm), 3))
    ensures ok ==> Lists(added, claims + FieldClaims(source, Fields(helm), 3))
  {
    added := owners;
    var fields := Fields(helm);
    ghost var all := claims + FieldClaims(source, fields, 3);
    for i := 0 to 3
      invariant Disjoint(claims + FieldClaims(source, fields, i))
      invariant Lists(added, claims + FieldClaims(source, fields, i))
    {
      ghost var before := claims + FieldClaims(source, fields, i);
      ghost var after := claims + FieldClaims(source, fields, i + 1);
      if fields[i] == [] {
        assert after == before;
        continue;
      }
      assert after == before + [Claim(source, fields[i])];
      var overlap := OverlapsOne(PathsOf(added, source), fields[i]);
      OneClaim(before, source, fields[i], PathsOf(added, source));
      if overlap {
        FieldClaimsGrow(source, fields, i + 1, 3);
        PrefixDisjoint(after, all);
        return false, added;
      }
      ListOne(added, before, source, fields[i]);
      added := added[source := PathsOf(added, source) + [fields[i]]];
    }
    return true, added;
  }

  lemma {:induction false} FieldClaimsGrow(source: string, fields: seq<seq<string>>, m: nat, n: nat)
    requires m <= n <= |fields|
    ensures FieldClaims(source, fields, m) <= FieldClaims(source, fields, n)
  {
    if m < n {
      FieldClaimsGrow(source, fields, m, n - 1);
    }
  }

  lemma PrefixDisjoint(some: seq<Claim>, more: seq<Claim>)
    requires some <= more && !Disjoint(some)
    ensures !Disjoint(more)
  {
    var i, j :| 0 <= i < j < |some| && some[i].source == some[j].source && Overlap(some[i].path, some[j].path);
    assert more[i] == some[i] && more[j] == some[j];
  }

  lemma OneClaim(claims: seq<Claim>, source: string, path: seq<string>, paths: seq<seq<string>>)
    requires Disjoint(claims) && forall p :: p in paths <==> Claim(source, p) in claims
    ensures Disjoint(claims + [Claim(source, path)]) <==> forall p :: p in paths ==> !Overlap(p, path)
  {
    var all := claims + [Claim(source, path)];
    if p :| p in paths && Overlap(p, path) {
      var i :| 0 <= i < |claims| && claims[i] == Claim(source, p);
      assert all[i] == claims[i] && all[|claims|] == Claim(source, path);
    } else {
      forall i | 0 <= i < |claims| && claims[i].source == source ensures !Overlap(claims[i].path, path) {
        assert Claim(source, claims[i].path) == claims[i];
        assert claims[i].path in paths;
      }
    }
  }

  lemma ListOne(owners: map<string, seq<seq<string>>>, claims: seq<Claim>, source: string, path: seq<string>)
    requires Lists(owners, claims)
    ensures Lists(owners[source := PathsOf(owners, source) + [path]], claims + [Claim(source, path)])
  {
    var added := owners[source := PathsOf(owners, source) + [path]];
    forall s, p ensures p in PathsOf(added, s) <==> Claim(s, p) in claims + [Claim(source, path)] {
      assert p in PathsOf(owners, s) <==> Claim(s, p) in claims;
    }
  }

  /** The workloads so far are fine, and the two maps describe them. */
  ghost predicate Fine(specs: seq<Spec>, formats: map<string, bool>, owners: map<string, seq<seq<string>>>) {
    FormatsAgree(specs) && Knows(formats, specs) && Disjoint(Claims(specs)) && Lists(owners, Claims(specs))
  }

  method ValidateOwnership(specs: seq<Spec>) returns (ok: bool)
    ensures ok <==> Owned(specs)
  {
    var formats: map<string, bool> := map[];
    var owners: map<string, seq<seq<string>>> := map[];
    ok := true;
    for i := 0 to |specs|
      invariant Fine(specs[..i], formats, owners)
    {
      ok, formats, owners := ValidateOne(specs, i, formats, owners);
      if !ok {
        return;
      }
    }
    assert specs[..|specs|] == specs;
  }

  method ValidateOne(specs: seq<Spec>, i: nat, known: map<string, bool>, listed: map<string, seq<seq<string>>>)
    returns (ok: bool, formats: map<string, bool>, owners: map<string, seq<seq<string>>>)
    requires i < |specs| && Fine(specs[..i], known, listed)
    ensures ok ==> Fine(specs[..i + 1], formats, owners)
    ensures !ok ==> !Owned(specs)
  {
    formats, owners := known, listed;
    var spec := specs[i];
    AppendClaims(specs, i);
    if spec.sourceFile == "" {
      NoSource(specs, i, formats);
      return true, formats, owners;
    }
    var helm := spec.helm.Some?;
    if spec.sourceFile in formats && formats[spec.sourceFile] != helm {
      MixedFormats(specs, i, formats);
      return false, formats, owners;
    }
    SameFormat(specs, i, formats);
    formats := formats[spec.sourceFile := helm];
    if !helm {
      return true, formats, owners;
    }
    ok, owners := AddClaims(spec.sourceFile, spec.helm.value, owners, Claims(specs[..i]));
    if !ok {
      NotOwned(specs, i + 1);
    }
  }

  lemma NotOwned(specs: seq<Spec>, m: nat)
    requires m <= |specs| && !Disjoint(Claims(specs[..m]))
    ensures !Owned(specs)
  {
    ClaimsGrow(specs, m);
    PrefixDisjoint(Claims(specs[..m]), Claims(specs));
  }

  lemma AppendClaims(specs: seq<Spec>, i: nat)
    requires i < |specs|
    ensures Claims(specs[..i + 1]) == Claims(specs[..i]) + ClaimsOf(specs[i])
  {
    assert specs[..i + 1][..i] == specs[..i];
  }

  lemma {:induction false} ClaimsGrow(specs: seq<Spec>, m: nat)
    requires m <= |specs|
    ensures Claims(specs[..m]) <= Claims(specs)
  {
    if m < |specs| {
      var front := specs[..|specs| - 1];
      ClaimsGrow(front, m);
      assert front[..m] == specs[..m];
    } else {
      assert specs[..m] == specs;
    }
  }

  lemma NoSource(specs: seq<Spec>, i: nat, formats: map<string, bool>)
    requires i < |specs| && specs[i].sourceFile == "" && FormatsAgree(specs[..i]) && Knows(formats, specs[..i])
    ensures FormatsAgree(specs[..i + 1]) && Knows(formats, specs[..i + 1])
  {
    var some, all := specs[..i], specs[..i + 1];
    assert all == some + [specs[i]];
    forall g | g in formats ensures exists k :: 0 <= k < |all| && all[k].sourceFile == g != "" {
      var k :| 0 <= k < |some| && some[k].sourceFile == g != "";
      assert all[k].sourceFile == g;
    }
  }

  lemma MixedFormats(specs: seq<Spec>, i: nat, formats: map<string, bool>)
    requires i < |specs| && Knows(formats, specs[..i]) && specs[i].sourceFile in formats
    requires formats[specs[i].sourceFile] != specs[i].helm.Some?
    ensures !FormatsAgree(specs)
  {
    var k :| 0 <= k < i && specs[..i][k].sourceFile == specs[i].sourceFile != "";
    assert specs[..i][k] == specs[k];
  }

  lemma SameFormat(specs: seq<Spec>, i: nat, formats: map<string, bool>)
    requires i < |specs| && Knows(formats, specs[..i]) && FormatsAgree(specs[..i]) && specs[i].sourceFile != ""
    requires specs[i].sourceFile in formats ==> formats[specs[i].sourceFile] == specs[i].helm.Some?
    ensures FormatsAgree(specs[..i + 1])
    ensures Knows(formats[specs[i].sourceFile := specs[i].helm.Some?], specs[..i + 1])
  {
    var some, all, f := specs[..i], specs[..i + 1], specs[i].sourceFile;
    assert all == some + [specs[i]];
    forall k | 0 <= k < i && some[k].sourceFile == f ensures some[k].helm.Some? <==> specs[i].helm.Some? {
    }
    var more := formats[f := specs[i].helm.Some?];
    forall g | g in more ensures exists k :: 0 <= k < |all| && all[k].sourceFile == g != "" {
      if g == f {
        assert all[i].sourceFile == g;
      } else {
        var k :| 0 <= k < |some| && some[k].sourceFile == g != "";
        assert all[k].sourceFile == g;
      }
    }
  }
}
