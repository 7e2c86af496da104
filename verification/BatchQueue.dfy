/**
 * The persisted batch window of proposals (internal/state/proposal_budget.go): one row per workload remembers
 * since when the current plan is being offered, and the plan waits until the window has passed.
 */
module BatchQueue {
  import opened Options
  import opened PatchFields

  datatype Change = Change(field: string, current: string, recommended: string)

  /** `text` is the plan as JSON, which is what the row keeps and compares. */
  datatype Plan = Plan(text: string, changes: seq<Change>, errors: nat, needed: bool, blocked: bool)

  predicate Applyable(plan: Plan) {
    plan.needed && !plan.blocked && plan.errors == 0 && plan.changes != []
  }

  // ----- bypassing the window -----

  /** Amounts as numbers; `None` for text that does not parse. */
  datatype Parsers = Parsers(number: string -> Option<real>, quantity: string -> Option<real>)

  predicate Above(parse: string -> Option<real>, low: string, high: string) {
    parse(low).Some? && parse(high).Some? && parse(high).value > parse(low).value
  }

  /** The change increases replicas, CPU or memory. */
  predicate Raises(parsers: Parsers, change: Change) {
    if change.field == REPLICAS then Above(parsers.number, change.current, change.recommended)
    else Sized(change.field) && Above(parsers.quantity, change.current, change.recommended)
  }

  predicate Lowers(parsers: Parsers, change: Change) {
    Raises(parsers, Change(change.field, change.recommended, change.current))
  }

  /** What decides about a bypass besides the plan. */
  datatype Urgency = Urgency(
    recoveryEnabled: bool, recovering: bool, urgentAllowed: bool, trafficAnomaly: bool)

  predicate IsRecovery(parsers: Parsers, urgency: Urgency, plan: Plan) {
    urgency.recovering && plan.changes != [] && forall c :: c in plan.changes ==> Raises(parsers, c)
  }

  predicate IsUrgent(parsers: Parsers, urgency: Urgency, plan: Plan) {
    urgency.trafficAnomaly && exists c :: c in plan.changes && Raises(parsers, c)
  }

  predicate Bypasses(parsers: Parsers, urgency: Urgency, plan: Plan) {
    || (urgency.recoveryEnabled && IsRecovery(parsers, urgency, plan))
    || (urgency.urgentAllowed && IsUrgent(parsers, urgency, plan))
  }

  method AvailabilityRecoveryPlan(parsers: Parsers, urgency: Urgency, plan: Plan) returns (recovery: bool)
    ensures recovery <==> IsRecovery(parsers, urgency, plan)
  {
    if !urgency.recovering || plan.changes == [] {
      return false;
    }
    for i := 0 to |plan.changes|
      invariant forall k :: 0 <= k < i ==> Raises(parsers, plan.changes[k])
    {
      var change := plan.changes[i];
      assert change in plan.changes;
      if change.field == REPLICAS {
        if !Above(parsers.number, change.current, change.recommended) {
          return false;
        }
      } else if Sized(change.field) {
        if !Above(parsers.quantity, change.current, change.recommended) {
          return false;
        }
      } else {
        return false;
      }
    }
    return true;
  }

  method UrgentBypass(parsers: Parsers, urgency: Urgency, plan: Plan) returns (urgent: bool)
    ensures urgent <==> IsUrgent(parsers, urgency, plan)
  {
    if !urgency.trafficAnomaly {
      return false;
    }
    for i := 0 to |plan.changes|
      invariant forall k :: 0 <= k < i ==> !Raises(parsers, plan.changes[k])
    {
      var change := plan.changes[i];
      assert change in plan.changes;
      if change.current == change.recommended {
        continue;
      }
      if change.field == REPLICAS && Above(parsers.number, change.current, change.recommended) {
        return true;
      }
      if Sized(change.field) && Above(parsers.quantity, change.current, change.recommended) {
        SizedIsNotReplicas(change.field);
        return true;
      }
    }
    return false;
  }

  // ----- in terms of the changes -----

  /** The change asks for more replicas, or for more CPU or memory. */
  ghost predicate AsksForMore(parsers: Parsers, change: Change) {
    if change.field == "spec.replicas" then
      && parsers.number(change.current).Some? && parsers.number(change.recommended).Some?
      && parsers.number(change.recommended).value > parsers.number(change.current).value
    else
      && (|| (exists path :: change.field == path + ".resources.requests.cpu")
          || exists path :: change.field == path + ".resources.requests.memory")
      && parsers.quantity(change.current).Some? && parsers.quantity(change.recommended).Some?
      && parsers.quantity(change.recommended).value > parsers.quantity(change.current).value
  }

  /** A plan that only asks for more, while an availability recovery is on and enabled. */
  ghost predicate RecoversAvailability(parsers: Parsers, urgency: Urgency, plan: Plan) {
    && urgency.recoveryEnabled && urgency.recovering && plan.changes != []
    && forall c :: c in plan.changes ==> AsksForMore(parsers, c)
  }

  /** A plan that asks for more somewhere, during an anomaly of the traffic that may be urgent. */
  ghost predicate FollowsTraffic(parsers: Parsers, urgency: Urgency, plan: Plan) {
    && urgency.urgentAllowed && urgency.trafficAnomaly
    && exists c :: c in plan.changes && AsksForMore(parsers, c)
  }

  lemma RaisesMeans(parsers: Parsers, change: Change)
    ensures Raises(parsers, change) <==> AsksForMore(parsers, change)
  {
    SizedMeans(change.field);
  }

  /** The only plans that do not wait. */
  lemma BypassesExactly(parsers: Parsers, urgency: Urgency, plan: Plan)
    ensures urgency.recoveryEnabled && IsRecovery(parsers, urgency, plan)
       <==> RecoversAvailability(parsers, urgency, plan)
    ensures Bypasses(parsers, urgency, plan)
       <==> RecoversAvailability(parsers, urgency, plan) || FollowsTraffic(parsers, urgency, plan)
  {
    forall c ensures Raises(parsers, c) <==> AsksForMore(parsers, c) {
      RaisesMeans(parsers, c);
    }
  }

  /** A plan with a decrease bypasses the window exactly if a traffic anomaly lets another change of it do so. */
  lemma DecreaseBypasses(parsers: Parsers, urgency: Urgency, plan: Plan, change: Change)
    requires change in plan.changes && Lowers(parsers, change)
    ensures Bypasses(parsers, urgency, plan)
       <==> urgency.urgentAllowed && urgency.trafficAnomaly
            && exists c :: c in plan.changes && c != change && Raises(parsers, c)
  {
    assert !Raises(parsers, change);
  }

  const ONE_OR_TWO := (s: string) => if s == "1" then Some(1.0) else if s == "2" then Some(2.0) else None
  const MIXED := Plan("{}", [Change(REPLICAS, "1", "2"), Change("c.resources.requests.cpu", "2", "1")], 0, true, false)

  /** So a decrease can bypass the window. */
  lemma MixedPlanBypasses()
    ensures Applyable(MIXED) && Lowers(Parsers(ONE_OR_TWO, ONE_OR_TWO), MIXED.changes[1])
    ensures Bypasses(Parsers(ONE_OR_TWO, ONE_OR_TWO), Urgency(false, false, true, true), MIXED)
  {
    var field := MIXED.changes[1].field;
    assert field == "c" + CPU_SUFFIX;
    assert field[|field| - |CPU_SUFFIX|..] == CPU_SUFFIX;
    assert MIXED.changes[0] in MIXED.changes;
  }

  // ----- the row of one workload -----

  datatype Item = Item(text: string, firstSeen: int, lastSeen: int)

  /**
   * What one step does to the row: a plan that waits, a deletion (nothing is recommended, the proposal was
   * recorded, or the row was pruned), or nothing (the plan bypassed the window or is gated).
   */
  datatype Event = Offered(text: string, at: int) | Deleted | Skipped

  function Upserted(item: Option<Item>, text: string, at: int): Item {
    if item.Some? && item.value.text == text then Item(text, item.value.firstSeen, at) else Item(text, at, at)
  }

  function After(item: Option<Item>, event: Event): Option<Item> {
    match event
    case Offered(text, at) => Some(Upserted(item, text, at))
    case Deleted => None
    case Skipped => item
  }

  function ItemOf(events: seq<Event>): Option<Item> {
    if events == [] then None else After(ItemOf(events[..|events| - 1]), events[|events| - 1])
  }

  /** The gate: is the window over for a plan that is offered now? */
  predicate Passes(item: Option<Item>, text: string, at: int, window: int) {
    Upserted(item, text, at).firstSeen + window <= at
  }

  /** From event `i` on the plan was offered, with no other plan and no deletion. */
  ghost predicate OfferedSince(events: seq<Event>, i: int, text: string) {
    && 0 <= i < |events|
    && events[i].Offered? && events[i].text == text
    && forall k :: i < k < |events| ==> !events[k].Deleted? && (events[k].Offered? ==> events[k].text == text)
  }

  /** `i` is the first such event. */
  ghost predicate BatchStart(events: seq<Event>, i: int, text: string) {
    OfferedSince(events, i, text) && forall k :: 0 <= k < i ==> !OfferedSince(events, k, text)
  }

  lemma OfferedSinceStep(events: seq<Event>, last: Event, i: int, text: string)
    ensures i < |events| ==>
      (OfferedSince(events + [last], i, text)
       <==> OfferedSince(events, i, text) && !last.Deleted? && (last.Offered? ==> last.text == text))
    ensures OfferedSince(events + [last], |events|, text) <==> last.Offered? && last.text == text
  {
    var all := events + [last];
    assert all[|events|] == last && forall k :: 0 <= k < |events| ==> all[k] == events[k];
  }

  /** The row is there exactly if a plan has been offered since the last deletion, and it says since when. */
  lemma {:induction false} RowIsTheBatch(events: seq<Event>)
    ensures ItemOf(events).Some? ==>
      exists i :: BatchStart(events, i, ItemOf(events).value.text) && events[i].at == ItemOf(events).value.firstSeen
    ensures forall i, text :: OfferedSince(events, i, text) ==>
      ItemOf(events).Some? && ItemOf(events).value.text == text
  {
    if events != [] {
      var front, last := events[..|events| - 1], events[|events| - 1];
      assert events == front + [last];
      RowIsTheBatch(front);
      forall i, text ensures i < |front| ==>
          (OfferedSince(events, i, text)
           <==> OfferedSince(front, i, text) && !last.Deleted? && (last.Offered? ==> last.text == text))
        ensures OfferedSince(events, |front|, text) <==> last.Offered? && last.text == text
      {
        OfferedSinceStep(front, last, i, text);
      }
      if ItemOf(events).Some? {
        var text, before := ItemOf(events).value.text, ItemOf(front);
        if before.Some? && before.value.text == text {
          var i :| BatchStart(front, i, text) && front[i].at == before.value.firstSeen;
          assert BatchStart(events, i, text);
        } else {
          assert BatchStart(events, |front|, text);
        }
      }
    }
  }

  /**
   * The gate is exact: a plan passes exactly if it has been offered, unchanged and undeleted, since an offer
   * that lies at least the window back (or is the present one, with no window to wait for).
   */
  lemma PassesExactlyAfterWindow(events: seq<Event>, text: string, at: int, window: int)
    ensures Passes(ItemOf(events), text, at, window)
       <==> exists i :: BatchStart(events + [Offered(text, at)], i, text)
                        && (events + [Offered(text, at)])[i].at + window <= at
  {
    var all := events + [Offered(text, at)];
    assert all[..|all| - 1] == events;
    RowIsTheBatch(all);
    var item := ItemOf(all).value;
    assert item == Upserted(ItemOf(events), text, at);
    var i :| BatchStart(all, i, text) && all[i].at == item.firstSeen;
    forall k | BatchStart(all, k, text) ensures k == i {
      assert OfferedSince(all, k, text) && OfferedSince(all, i, text);
    }
  }

  /** Steps that neither offer another plan nor delete the row. */
  ghost predicate Undisturbed(events: seq<Event>, text: string) {
    forall e :: e in events ==> !e.Deleted? && (e.Offered? ==> e.text == text)
  }

  lemma {:induction false} TimerKept(before: seq<Event>, later: seq<Event>, item: Item)
    requires ItemOf(before).Some? && ItemOf(before).value.text == item.text
    requires ItemOf(before).value.firstSeen == item.firstSeen && Undisturbed(later, item.text)
    ensures ItemOf(before + later).Some?
    ensures ItemOf(before + later).value.text == item.text && ItemOf(before + later).value.firstSeen == item.firstSeen
  {
    if later == [] {
      assert before + later == before;
    } else {
      var front, last := later[..|later| - 1], later[|later| - 1];
      assert last in later && forall e :: e in front ==> e in later;
      TimerKept(before, front, item);
      assert (before + later)[..|before + later| - 1] == before + front;
    }
  }

  /** Gated and repeated offers never move the timer: the plan passes at the first offer after the window. */
  lemma WaitIsBounded(before: seq<Event>, later: seq<Event>, text: string, first: int, at: int, window: int)
    requires Undisturbed(later, text)
    requires ItemOf(before).None? || ItemOf(before).value.text != text
    ensures Passes(ItemOf(before + [Offered(text, first)] + later), text, at, window) <==> first + window <= at
  {
    var offered := before + [Offered(text, first)];
    assert offered[..|offered| - 1] == before;
    TimerKept(offered, later, Item(text, first, first));
  }
}
