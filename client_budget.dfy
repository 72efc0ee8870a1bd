/** The client's version of the budget rule (Dashboard.jsx and
    ItineraryBuilder.jsx): fetch the trip's stops, fetch each stop's
    activities, and add up every cost that is truthy and numeric. The two API
    calls are the parameters `stopsOf` and `activitiesOf`, `None` standing
    for a request that fails. Costs reach the client as the numbers the
    server stored, so "truthy and numeric" means "not 0", and a skipped
    cost adds nothing either way. When every answer is the server's own,
    the client total is the server's budget. */
module ClientBudget {
  import opened Common
  import opened Records
  import opened Sums
  import opened Collections
  import opened Budget

  /** The sum of the costs in one fetched list of activities. */
  function ListCost(l: seq<Activity>): int {
    SumSeq(l, CostOf)
  }

  /** The `forEach` over one fetched list: every cost that is truthy is added. */
  method ListTotal(l: seq<Activity>) returns (c: int)
    ensures c == ListCost(l)
  {
    c := 0;
    var i := 0;
    while i < |l|
      invariant 0 <= i <= |l|
      invariant c == SumSeq(l[..i], CostOf)
    {
      assert l[..i + 1][..i] == l[..i];
      if l[i].cost != 0 {
        c := c + l[i].cost;
      }
      i := i + 1;
    }
    assert l[..i] == l;
  }

  /** What one stop adds: the cost of its fetched activities (none if the fetch failed). */
  function PerStop(activitiesOf: Id -> Option<seq<Activity>>): Stop -> int {
    (s: Stop) => ListCost(activitiesOf(s.id).GetOr([]))
  }

  /** Each stop's share of the server budget. */
  ghost function ShareOf(activities: map<Id, Activity>): Id -> int {
    k => StopCost(activities, k)
  }

  /** The cost of a fetched list of stops; `None` once any activity fetch fails. */
  function StopsCost(stops: seq<Stop>, activitiesOf: Id -> Option<seq<Activity>>): (r: Option<int>)
    ensures r.Some? <==> forall i :: 0 <= i < |stops| ==> activitiesOf(stops[i].id).Some?
    ensures r.Some? ==> r.value == SumSeq(stops, PerStop(activitiesOf))
  {
    if stops == [] then Some(0)
    else
      var init, last := stops[..|stops| - 1], stops[|stops| - 1];
      match StopsCost(init, activitiesOf)
      case None => None
      case Some(c) =>
        match activitiesOf(last.id)
        case None => None
        case Some(l) => Some(c + ListCost(l))
  }

  /** `calculateTripBudget` before its `catch`: `None` when a fetch fails. */
  function TripCost(tripId: Id, stopsOf: Id -> Option<seq<Stop>>, activitiesOf: Id -> Option<seq<Activity>>)
    : (r: Option<int>)
    ensures stopsOf(tripId).None? ==> r.None?
    ensures stopsOf(tripId).Some? ==> r == StopsCost(stopsOf(tripId).value, activitiesOf)
  {
    match stopsOf(tripId)
    case None => None
    case Some(stops) => StopsCost(stops, activitiesOf)
  }

  /** `stopsOf` answers for the trip as GET /stops/trip/:tripId does: every
      stop of the trip, once. */
  ghost predicate AnswersStops(stops: map<Id, Stop>, stopsOf: Id -> Option<seq<Stop>>, tripId: Id) {
    && stopsOf(tripId).Some?
    && ListsExactly(stops, stopsOf(tripId).value, OfTrip(tripId), StopIdOf)
  }

  /** `activitiesOf` answers for the stop as GET /activities/stop/:stopId does. */
  ghost predicate AnswersActivities(activities: map<Id, Activity>, activitiesOf: Id -> Option<seq<Activity>>,
                                    stopId: Id) {
    && activitiesOf(stopId).Some?
    && ListsExactly(activities, activitiesOf(stopId).value, OfStop(stopId), ActivityIdOf)
  }

  /** The costs of one stop's listed activities are that stop's share of the budget. */
  lemma ListCostIsStopCost(activities: map<Id, Activity>, l: seq<Activity>, stopId: Id)
    requires ListsExactly(activities, l, OfStop(stopId), ActivityIdOf)
    ensures ListCost(l) == StopCost(activities, stopId)
  {
    var g := Through(activities, CostOf);
    SumOfListed(activities, l, OfStop(stopId), ActivityIdOf, CostOf);
    var M := Matching(activities, OfStop(stopId));
    var w := CostWithin(activities, {stopId});
    forall k | k in activities.Keys && k !in M ensures w(k) == 0 {
      assert !OfStop(stopId)(activities[k]);
    }
    SumSetRestrict(activities.Keys, M, w);
    forall k | k in M ensures w(k) == g(k) {
      assert OfStop(stopId)(activities[k]);
    }
    SumSetExt(M, w, g);
  }

  /** Adding up each stop's share over a set of stops gives the activities'
      cost within that set. */
  lemma {:induction false} SumOfStopCosts(activities: map<Id, Activity>, T: set<Id>)
    ensures SumSet(T, ShareOf(activities)) == SumSet(activities.Keys, CostWithin(activities, T))
    decreases T
  {
    if T == {} {
      SumSetZero(activities.Keys, CostWithin(activities, T));
    } else {
      var k :| k in T;
      SumSetRemove(T, ShareOf(activities), k);
      SumOfStopCosts(activities, T - {k});
      SumSetAdd(activities.Keys, CostWithin(activities, T - {k}), CostWithin(activities, {k}),
                CostWithin(activities, T));
    }
  }

  /** The client's total for a trip, from answers the server gives, is the
      server's GET /budget/:tripId. */
  lemma TripCostIsServerBudget(stops: map<Id, Stop>, activities: map<Id, Activity>,
                               stopsOf: Id -> Option<seq<Stop>>, activitiesOf: Id -> Option<seq<Activity>>,
                               tripId: Id)
    requires AnswersStops(stops, stopsOf, tripId)
    requires forall k :: k in StopsOfTrip(stops, tripId) ==> AnswersActivities(activities, activitiesOf, k)
    ensures TripCost(tripId, stopsOf, activitiesOf) == Some(TripBudget(stops, activities, tripId))
  {
    var l := stopsOf(tripId).value;
    forall i | 0 <= i < |l| ensures activitiesOf(l[i].id).Some? {
      assert l[i].id in StopsOfTrip(stops, tripId);
    }
    SumOfListed(stops, l, OfTrip(tripId), StopIdOf, PerStop(activitiesOf));
    var T := StopsOfTrip(stops, tripId);
    assert Matching(stops, OfTrip(tripId)) == T;
    var h := Through(stops, PerStop(activitiesOf));
    forall k | k in T ensures h(k) == ShareOf(activities)(k) {
      var i :| 0 <= i < |l| && l[i].id == k;
      assert stops[k] == l[i];
      ListCostIsStopCost(activities, activitiesOf(k).value, k);
    }
    SumSetExt(T, h, ShareOf(activities));
    SumOfStopCosts(activities, T);
  }
}
