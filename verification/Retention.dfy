/**
 * Pruning (internal/state/retention.go), and why the limiters do not notice that old rows are missing from a table.
 * StoreRuns carries this over to whole runs of the store.
 */
module Retention {
  import opened Options
  import opened Timestamps
  import opened Limiters

  /** `DELETE ... WHERE time < cutoff`, with the text comparison `gone` of the table. */
  function Delete(rows: seq<Row>, gone: (int, int) -> bool, cutoff: int): seq<Row> {
    if rows == [] then []
    else
      Delete(rows[..|rows| - 1], gone, cutoff)
      + if gone(rows[|rows| - 1].time, cutoff) then [] else [rows[|rows| - 1]]
  }

  // The cutoff is always written as RFC3339Nano; recoveries are stored with nine fraction digits.
  const RECOVERY_GONE := (time: int, cutoff: int) => TextLess(FixedText(time), NanoText(cutoff))
  const EVENT_GONE := (time: int, cutoff: int) => TextLess(NanoText(time), NanoText(cutoff))

  /** The watermark limits pruning to once an hour. */
  predicate PruneDue(lastPruned: Option<int>, now: int) {
    lastPruned.None? || now >= lastPruned.value + HOUR
  }

  /** What is deleted is what sorts before the cutoff. */
  lemma {:induction false} DeleteMeans(rows: seq<Row>, gone: (int, int) -> bool, cutoff: int, r: Row)
    ensures r in Delete(rows, gone, cutoff) <==> r in rows && !gone(r.time, cutoff)
  {
    if rows != [] {
      var front, last := rows[..|rows| - 1], rows[|rows| - 1];
      DeleteMeans(front, gone, cutoff, r);
      assert r in rows <==> r in front || r == last;
    }
  }

  // ----- a table with old rows missing -----

  /** `p` is `f` without some rows, all of them from before second `bound`. */
  ghost predicate Thinned(p: seq<Row>, f: seq<Row>, bound: int)
    decreases |f|
  {
    if f == [] then p == []
    else
      var front, last := f[..|f| - 1], f[|f| - 1];
      (p != [] && p[|p| - 1] == last && Thinned(p[..|p| - 1], front, bound))
      || (Second(last.time) < bound && Thinned(p, front, bound))
  }

  /** Deleted rows lie at or before the second of the cutoff; rows before the second of a query are not seen. */
  ghost predicate SecondAccurate(q: Query, gone: (int, int) -> bool) {
    && (forall t, c :: gone(t, c) ==> Second(t) <= Second(c))
    && (forall t, s :: Second(t) < Second(s) ==> !q.seen(t, s))
  }

  lemma {:induction false} ThinnedLater(p: seq<Row>, f: seq<Row>, bound: int, later: int)
    requires Thinned(p, f, bound) && bound <= later
    ensures Thinned(p, f, later)
    decreases |f|
  {
    if f != [] {
      var front, last := f[..|f| - 1], f[|f| - 1];
      if p != [] && p[|p| - 1] == last && Thinned(p[..|p| - 1], front, bound) {
        ThinnedLater(p[..|p| - 1], front, bound, later);
      } else {
        ThinnedLater(p, front, bound, later);
      }
    }
  }

  lemma ThinnedAppend(p: seq<Row>, f: seq<Row>, bound: int, row: Row)
    requires Thinned(p, f, bound)
    ensures Thinned(p + [row], f + [row], bound)
  {
    assert (p + [row])[..|p|] == p && (f + [row])[..|f|] == f;
  }

  lemma {:induction false} ThinnedAppendAll(p: seq<Row>, f: seq<Row>, bound: int, rows: seq<Row>)
    requires Thinned(p, f, bound)
    ensures Thinned(p + rows, f + rows, bound)
  {
    if rows == [] {
      assert p + rows == p && f + rows == f;
    } else {
      var front, last := rows[..|rows| - 1], rows[|rows| - 1];
      ThinnedAppendAll(p, f, bound, front);
      ThinnedAppend(p + front, f + front, bound, last);
      assert p + rows == p + front + [last] && f + rows == f + front + [last];
    }
  }

  lemma {:induction false} ThinnedDelete(p: seq<Row>, f: seq<Row>, bound: int, gone: (int, int) -> bool, cutoff: int)
    requires Thinned(p, f, bound) && Second(cutoff) < bound
    requires forall t, c :: gone(t, c) ==> Second(t) <= Second(c)
    ensures Thinned(Delete(p, gone, cutoff), f, bound)
    decreases |f|
  {
    if f != [] {
      var front, last := f[..|f| - 1], f[|f| - 1];
      if p != [] && p[|p| - 1] == last && Thinned(p[..|p| - 1], front, bound) {
        var kept := Delete(p[..|p| - 1], gone, cutoff);
        ThinnedDelete(p[..|p| - 1], front, bound, gone, cutoff);
        if gone(last.time, cutoff) {
          assert Delete(p, gone, cutoff) == kept;
        } else {
          ThinnedAppend(kept, front, bound, last);
          assert front + [last] == f;
        }
      } else {
        ThinnedDelete(p, front, bound, gone, cutoff);
      }
    }
  }

  lemma {:induction false} ThinnedCount(q: Query, p: seq<Row>, f: seq<Row>, bound: int, key: Key, since: int)
    requires Thinned(p, f, bound) && bound <= Second(since)
    requires forall t, s :: Second(t) < Second(s) ==> !q.seen(t, s)
    ensures CountSince(q, p, key, since) == CountSince(q, f, key, since)
    decreases |f|
  {
    if f != [] {
      var front, last := f[..|f| - 1], f[|f| - 1];
      if p != [] && p[|p| - 1] == last && Thinned(p[..|p| - 1], front, bound) {
        ThinnedCount(q, p[..|p| - 1], front, bound, key, since);
      } else {
        ThinnedCount(q, p, front, bound, key, since);
      }
    }
  }

  lemma {:induction false} ThinnedMembers(p: seq<Row>, f: seq<Row>, bound: int, r: Row)
    requires Thinned(p, f, bound)
    ensures r in p ==> r in f
    ensures r in f && bound <= Second(r.time) ==> r in p
    decreases |f|
  {
    if f != [] {
      var front, last := f[..|f| - 1], f[|f| - 1];
      assert f == front + [last];
      if p != [] && p[|p| - 1] == last && Thinned(p[..|p| - 1], front, bound) {
        ThinnedMembers(p[..|p| - 1], front, bound, r);
        assert p == p[..|p| - 1] + [last];
      } else {
        ThinnedMembers(p, front, bound, r);
      }
    }
  }

  lemma SecondsAreOrdered(a: int, b: int)
    ensures a <= b ==> Second(a) <= Second(b)
    ensures a + NANOS_PER_SECOND <= b ==> Second(a) < Second(b)
  {
    if a + NANOS_PER_SECOND <= b {
      assert Second(a + NANOS_PER_SECOND) == Second(a) + 1;
    }
  }

  /** The latest row is the same, or it lies before the bound. */
  lemma ThinnedLatest(q: Query, p: seq<Row>, f: seq<Row>, bound: int, key: Key)
    requires Thinned(p, f, bound) && Chronological(q)
    ensures var short, long := Latest(q, p, key), Latest(q, f, key);
      || short == long
      || (long.Some? && Second(long.value) < bound && (short.Some? ==> short.value <= long.value))
  {
    LatestIsMaximum(q, p, key);
    LatestIsMaximum(q, f, key);
    var short, long := Latest(q, p, key), Latest(q, f, key);
    if short.Some? {
      var row :| row in p && row.key == key && row.time == short.value;
      ThinnedMembers(p, f, bound, row);
    }
    if long.Some? {
      var row :| row in f && row.key == key && row.time == long.value;
      ThinnedMembers(p, f, bound, row);
    }
  }

  lemma SameDecision(q: Query, p: seq<Row>, f: seq<Row>, r: Request)
    requires CountSince(q, p, r.key, r.now - HOUR) == CountSince(q, f, r.key, r.now - HOUR)
    requires Latest(q, p, r.key) == Latest(q, f, r.key)
             || (CooledDown(Latest(q, p, r.key), r) && CooledDown(Latest(q, f, r.key), r))
    ensures DecideRecovery(q, p, r.key, r.now, r.cooldown, r.maxPerHour)
         == DecideRecovery(q, f, r.key, r.now, r.cooldown, r.maxPerHour)
  {
  }

  predicate CooledDown(latest: Option<int>, r: Request) {
    latest.Some? ==> latest.value + r.cooldown <= r.now
  }

  /** The cooldown check has the same outcome: only attempts older than the cooldown can be missing. */
  lemma ThinnedDecision(q: Query, p: seq<Row>, f: seq<Row>, bound: int, r: Request)
    requires Thinned(p, f, bound) && Chronological(q)
    requires bound <= Second(r.now - HOUR) && bound <= Second(r.now - r.cooldown)
    ensures DecideRecovery(q, p, r.key, r.now, r.cooldown, r.maxPerHour)
         == DecideRecovery(q, f, r.key, r.now, r.cooldown, r.maxPerHour)
  {
    ThinnedCount(q, p, f, bound, r.key, r.now - HOUR);
    ThinnedLatest(q, p, f, bound, r.key);
    if Latest(q, p, r.key) != Latest(q, f, r.key) {
      SecondsAreOrdered(r.now - r.cooldown, Latest(q, f, r.key).value);
    }
    SameDecision(q, p, f, r);
  }

  // ----- the tables -----

  lemma RecoveriesAreSecondAccurate()
    ensures SecondAccurate(RECOVERIES, RECOVERY_GONE)
  {
    forall t, c ensures RECOVERY_GONE(t, c) ==> Second(t) <= Second(c) {
      MixedTextOrder(t, c);
    }
    forall t, s ensures Second(t) < Second(s) ==> !RECOVERIES.seen(t, s) {
    }
  }

  lemma EventsAreSecondAccurate()
    ensures SecondAccurate(EVENTS, EVENT_GONE)
  {
    forall t, c ensures EVENT_GONE(t, c) ==> Second(t) <= Second(c) {
    }
    forall t, s ensures Second(t) < Second(s) ==> !EVENTS.seen(t, s) {
    }
  }
}
