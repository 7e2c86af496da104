/** The names of the fields that a plan can change. */
module PatchFields {

  const REPLICAS := "spec.replicas"
  const CPU_SUFFIX := ".resources.requests.cpu"
  const MEMORY_SUFFIX := ".resources.requests.memory"

  predicate HasSuffix(s: string, suffix: string) {
    |s| >= |suffix| && s[|s| - |suffix|..] == suffix
  }

  /** A CPU or memory request. */
  predicate Sized(field: string) {
    HasSuffix(field, CPU_SUFFIX) || HasSuffix(field, MEMORY_SUFFIX)
  }

  lemma HasSuffixMeans(s: string, suffix: string)
    ensures HasSuffix(s, suffix) <==> exists path :: s == path + suffix
  {
    assert HasSuffix(s, suffix) ==> s == s[..|s| - |suffix|] + suffix;
    if exists path :: s == path + suffix {
      var path :| s == path + suffix;
      assert s[|path|..] == suffix;
    }
  }

  /** The fields of requests, by their names. */
  lemma SizedMeans(field: string)
    ensures Sized(field)
       <==> || (exists path :: field == path + ".resources.requests.cpu")
            || exists path :: field == path + ".resources.requests.memory"
  {
    HasSuffixMeans(field, CPU_SUFFIX);
    HasSuffixMeans(field, MEMORY_SUFFIX);
  }

  lemma SizedIsNotReplicas(field: string)
    requires Sized(field)
    ensures field != REPLICAS
  {
    assert CPU_SUFFIX[|CPU_SUFFIX| - 1] == 'u' && MEMORY_SUFFIX[|MEMORY_SUFFIX| - 1] == 'y';
    assert HasSuffix(field, CPU_SUFFIX) ==> field[|field| - 1] == field[|field| - |CPU_SUFFIX|..][|CPU_SUFFIX| - 1];
    assert HasSuffix(field, MEMORY_SUFFIX) ==>
      field[|field| - 1] == field[|field| - |MEMORY_SUFFIX|..][|MEMORY_SUFFIX| - 1];
  }
}
