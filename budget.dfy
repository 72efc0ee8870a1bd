/** The budget of a trip (backend/routes/budgetRoutes.js): the sum of the
    costs of the activities whose stop belongs to the trip, 0 when there are
    none. `Backend.Database.GetBudget` computes it; this module defines it
    and proves how the other routes change it. */
module Budget {
  import opened Common
  import opened Records
  import opened Sums
  import opened StopRoutes

  /** The ids `Stop.find({ tripId })` returns. */
  ghost function StopsOfTrip(stops: map<Id, Stop>, tripId: Id): set<Id> {
    set k | k in stops && stops[k].tripId == tripId
  }

  /** What an activity contributes to the `$sum` over `stopId: { $in: stopIds }`. */
  ghost function CostWithin(activities: map<Id, Activity>, stopIds: set<Id>): Id -> int {
    k => if k in activities && activities[k].stopId in stopIds then activities[k].cost else 0
  }

  ghost function TripBudget(stops: map<Id, Stop>, activities: map<Id, Activity>, tripId: Id): int {
    SumSet(activities.Keys, CostWithin(activities, StopsOfTrip(stops, tripId)))
  }

  /** The sum of the costs of one stop's activities. */
  ghost function StopCost(activities: map<Id, Activity>, stopId: Id): int {
    SumSet(activities.Keys, CostWithin(activities, {stopId}))
  }

  /** The message of the CastError `Stop.find` raises for a malformed trip id. */
  function BudgetCastMessage(tripId: string): string {
    "Cast to ObjectId failed for value \"" + tripId + "\" (type string) at path \"tripId\" for model \"Stop\""
  }

  /** A trip without stops has budget 0 (the `{ total: 0 }` fallback). */
  lemma NoStopsNoBudget(stops: map<Id, Stop>, activities: map<Id, Activity>, tripId: Id)
    requires StopsOfTrip(stops, tripId) == {}
    ensures TripBudget(stops, activities, tripId) == 0
  {
    SumSetZero(activities.Keys, CostWithin(activities, {}));
  }

  /** A new activity adds its cost to the budget of its stop's trip and
      leaves every other trip's budget as it was. */
  lemma AddActivityBudget(stops: map<Id, Stop>, activities: map<Id, Activity>, a: Activity, tripId: Id)
    requires a.id !in activities
    ensures TripBudget(stops, activities[a.id := a], tripId)
            == TripBudget(stops, activities, tripId) + (if a.stopId in StopsOfTrip(stops, tripId) then a.cost else 0)
  {
    var T := StopsOfTrip(stops, tripId);
    var after := activities[a.id := a];
    assert after.Keys == activities.Keys + {a.id};
    SumSetInsert(activities.Keys, CostWithin(after, T), a.id);
    SumSetExt(activities.Keys, CostWithin(after, T), CostWithin(activities, T));
  }

  /** Deleting an activity takes its cost off its stop's trip's budget. */
  lemma RemoveActivityBudget(stops: map<Id, Stop>, activities: map<Id, Activity>, id: Id, tripId: Id)
    requires id in activities
    ensures TripBudget(stops, activities - {id}, tripId)
            == TripBudget(stops, activities, tripId)
               - (if activities[id].stopId in StopsOfTrip(stops, tripId) then activities[id].cost else 0)
  {
    var T := StopsOfTrip(stops, tripId);
    var after := activities - {id};
    assert after.Keys == activities.Keys - {id};
    SumSetRemove(activities.Keys, CostWithin(activities, T), id);
    SumSetExt(after.Keys, CostWithin(after, T), CostWithin(activities, T));
  }

  /** Deleting a stop with its activities takes exactly their costs off the
      budget of the stop's trip, and changes no other trip's budget. */
  lemma DeleteStopBudget(stops: map<Id, Stop>, activities: map<Id, Activity>, stopId: Id, tripId: Id)
    requires stopId in stops
    ensures TripBudget(stops - {stopId}, WithoutStop(activities, stopId), tripId)
            == TripBudget(stops, activities, tripId)
               - (if stops[stopId].tripId == tripId then StopCost(activities, stopId) else 0)
  {
    var T := StopsOfTrip(stops, tripId);
    var T' := StopsOfTrip(stops - {stopId}, tripId);
    assert T' == T - {stopId};
    var after := WithoutStop(activities, stopId);
    // Activities of the deleted stop contributed nothing under the smaller set of stops.
    SumSetRestrict(activities.Keys, after.Keys, CostWithin(activities, T'));
    SumSetExt(after.Keys, CostWithin(activities, T'), CostWithin(after, T'));
    if stops[stopId].tripId == tripId {
      assert stopId in T;
      SumSetAdd(activities.Keys, CostWithin(activities, T'), CostWithin(activities, {stopId}),
                CostWithin(activities, T));
    } else {
      assert T' == T;
    }
  }
}
