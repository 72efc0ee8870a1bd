/** The dashboard (globetrotter/src/pages/Dashboard.jsx): the signed-in
    user's trips, the total cost of all of them, and for each trip its cost
    and its number of stops. The API calls are parameters: `stopsOf` is
    GET /stops/trip/:tripId and `activitiesOf` is GET /activities/stop/:stopId,
    `None` standing for a request that fails. */
module Dashboard {
  import opened Common
  import opened Records
  import opened Sums
  import opened Collections
  import opened Budget
  import opened ClientLists
  import opened ClientBudget

  /** `calculateTripBudget`: the trip's cost, or 0 once a fetch fails. */
  function BudgetOf(stopsOf: Id -> Option<seq<Stop>>, activitiesOf: Id -> Option<seq<Activity>>): Trip -> int {
    (t: Trip) => TripCost(t.id, stopsOf, activitiesOf).GetOr(0)
  }

  /** `calculateTripDestinations`: the number of the trip's stops, or 0 when the fetch fails. */
  function DestinationsOf(stopsOf: Id -> Option<seq<Stop>>): Trip -> int {
    (t: Trip) => if stopsOf(t.id).Some? then |stopsOf(t.id).value| else 0
  }

  /** The server's GET /budget/:tripId for each trip. */
  ghost function ServerBudgetOf(stops: map<Id, Stop>, activities: map<Id, Activity>): Trip -> int {
    (t: Trip) => TripBudget(stops, activities, t.id)
  }

  /** `calculateTotalBudget` before its `catch`: the costs of all the trips,
      `None` once any fetch fails. */
  function TripsCost(trips: seq<Trip>, stopsOf: Id -> Option<seq<Stop>>,
                     activitiesOf: Id -> Option<seq<Activity>>): (r: Option<int>)
    ensures r.Some? <==> forall i :: 0 <= i < |trips| ==> TripCost(trips[i].id, stopsOf, activitiesOf).Some?
    ensures r.Some? ==> r.value == SumSeq(trips, BudgetOf(stopsOf, activitiesOf))
  {
    if trips == [] then Some(0)
    else
      var init, last := trips[..|trips| - 1], trips[|trips| - 1];
      assert forall i :: 0 <= i < |init| ==> init[i] == trips[i];
      match TripsCost(init, stopsOf, activitiesOf)
      case None => None
      case Some(c) =>
        match TripCost(last.id, stopsOf, activitiesOf)
        case None => None
        case Some(b) => Some(c + b)
  }

  /** The object a loop `m[trip._id] = f(trip)` builds. */
  function PerTrip(trips: seq<Trip>, f: Trip -> int): map<Id, int> {
    if trips == [] then map[]
    else PerTrip(trips[..|trips| - 1], f)[trips[|trips| - 1].id := f(trips[|trips| - 1])]
  }

  /** The object has one entry per trip id, and a trip whose id no later
      trip repeats has its own figure there. */
  lemma {:induction false} PerTripEntries(trips: seq<Trip>, f: Trip -> int)
    ensures PerTrip(trips, f).Keys == set t | t in trips :: t.id
    ensures forall i :: 0 <= i < |trips| && (forall j :: i < j < |trips| ==> trips[j].id != trips[i].id) ==>
              PerTrip(trips, f)[trips[i].id] == f(trips[i])
  {
    if trips != [] {
      var init, last := trips[..|trips| - 1], trips[|trips| - 1];
      PerTripEntries(init, f);
      assert trips == init + [last];
      assert forall i :: 0 <= i < |init| ==> init[i] == trips[i];
    }
  }

  /** The loop over one trip's fetched stops: `None` once an activity fetch fails. */
  method StopsTotal(stops: seq<Stop>, activitiesOf: Id -> Option<seq<Activity>>) returns (r: Option<int>)
    ensures r == StopsCost(stops, activitiesOf)
  {
    var total := 0;
    var i := 0;
    while i < |stops|
      invariant 0 <= i <= |stops|
      invariant forall j :: 0 <= j < i ==> activitiesOf(stops[j].id).Some?
      invariant total == SumSeq(stops[..i], PerStop(activitiesOf))
    {
      var fetched := activitiesOf(stops[i].id);
      if fetched.None? {
        return None;
      }
      var c := ListTotal(fetched.value);
      assert stops[..i + 1][..i] == stops[..i];
      total := total + c;
      i := i + 1;
    }
    assert stops[..i] == stops;
    r := Some(total);
  }

  /** `calculateTripBudget` */
  method CalculateTripBudget(trip: Trip, stopsOf: Id -> Option<seq<Stop>>,
                             activitiesOf: Id -> Option<seq<Activity>>) returns (budget: int)
    ensures budget == BudgetOf(stopsOf, activitiesOf)(trip)
  {
    var stops := stopsOf(trip.id);
    if stops.None? {
      return 0;
    }
    var c := StopsTotal(stops.value, activitiesOf);
    budget := if c.Some? then c.value else 0;
  }

  /** `calculateTripDestinations` */
  method CalculateTripDestinations(trip: Trip, stopsOf: Id -> Option<seq<Stop>>) returns (count: int)
    ensures count == DestinationsOf(stopsOf)(trip)
  {
    var stops := stopsOf(trip.id);
    count := if stops.Some? then |stops.value| else 0;
  }

  lemma PerTripSnoc(l: seq<Trip>, t: Trip, f: Trip -> int)
    ensures PerTrip(l + [t], f) == PerTrip(l, f)[t.id := f(t)]
  {
    assert (l + [t])[..|l|] == l;
  }

  /** The loop of `calculateAllTripBudgets`. */
  method AllTripBudgets(list: seq<Trip>, stopsOf: Id -> Option<seq<Stop>>,
                        activitiesOf: Id -> Option<seq<Activity>>) returns (budgets: map<Id, int>)
    ensures budgets == PerTrip(list, BudgetOf(stopsOf, activitiesOf))
  {
    ghost var f := BudgetOf(stopsOf, activitiesOf);
    budgets := map[];
    var i := 0;
    while i < |list|
      invariant 0 <= i <= |list|
      invariant budgets == PerTrip(list[..i], f)
    {
      assert list[..i + 1] == list[..i] + [list[i]];
      PerTripSnoc(list[..i], list[i], f);
      var b := CalculateTripBudget(list[i], stopsOf, activitiesOf);
      budgets := budgets[list[i].id := b];
      i := i + 1;
    }
    assert list[..i] == list;
  }

  /** The loop of `calculateAllTripDestinations`. */
  method AllTripDestinations(list: seq<Trip>, stopsOf: Id -> Option<seq<Stop>>) returns (destinations: map<Id, int>)
    ensures destinations == PerTrip(list, DestinationsOf(stopsOf))
  {
    destinations := map[];
    var i := 0;
    while i < |list|
      invariant 0 <= i <= |list|
      invariant destinations == PerTrip(list[..i], DestinationsOf(stopsOf))
    {
      var n := CalculateTripDestinations(list[i], stopsOf);
      assert list[..i + 1] == list[..i] + [list[i]];
      PerTripSnoc(list[..i], list[i], DestinationsOf(stopsOf));
      destinations := destinations[list[i].id := n];
      i := i + 1;
    }
    assert list[..i] == list;
  }

  /** The loop of `calculateTotalBudget`: one failed fetch anywhere makes the total 0. */
  method TotalBudget(list: seq<Trip>, stopsOf: Id -> Option<seq<Stop>>,
                     activitiesOf: Id -> Option<seq<Activity>>) returns (total: int)
    ensures total == TripsCost(list, stopsOf, activitiesOf).GetOr(0)
  {
    total := 0;
    var i := 0;
    while i < |list|
      invariant 0 <= i <= |list|
      invariant forall j :: 0 <= j < i ==> TripCost(list[j].id, stopsOf, activitiesOf).Some?
      invariant total == SumSeq(list[..i], BudgetOf(stopsOf, activitiesOf))
    {
      var stops := stopsOf(list[i].id);
      if stops.None? {
        return 0;
      }
      var c := StopsTotal(stops.value, activitiesOf);
      if c.None? {
        return 0;
      }
      assert list[..i + 1][..i] == list[..i];
      total := total + c.value;
      i := i + 1;
    }
    assert list[..i] == list;
  }

  class Dashboard {
    var trips: seq<Trip>
    var totalBudget: int
    var tripBudgets: map<Id, int>
    var tripDestinations: map<Id, int>

    constructor ()
      ensures trips == [] && totalBudget == 0 && tripBudgets == map[] && tripDestinations == map[]
    {
      trips, totalBudget, tripBudgets, tripDestinations := [], 0, map[], map[];
    }

    /** `fetchTrips`: nothing happens without a user id or when the trips
        cannot be fetched; otherwise the trips are shown and the three
        calculations run (they write disjoint state, so running them one
        after another is running them together), or with no trips the
        figures are reset. */
    method FetchTrips(userId: Option<Id>, fetched: Option<seq<Trip>>, stopsOf: Id -> Option<seq<Stop>>,
                      activitiesOf: Id -> Option<seq<Activity>>)
      modifies this
      ensures !Truthy(userId) || fetched.None? ==>
                && trips == old(trips) && totalBudget == old(totalBudget)
                && tripBudgets == old(tripBudgets) && tripDestinations == old(tripDestinations)
      ensures Truthy(userId) && fetched.Some? ==> trips == fetched.value
      ensures Truthy(userId) && fetched.Some? && fetched.value == [] ==>
                totalBudget == 0 && tripBudgets == map[] && tripDestinations == map[]
      ensures Truthy(userId) && fetched.Some? && fetched.value != [] ==>
                && totalBudget == TripsCost(fetched.value, stopsOf, activitiesOf).GetOr(0)
                && tripBudgets == PerTrip(fetched.value, BudgetOf(stopsOf, activitiesOf))
                && tripDestinations == PerTrip(fetched.value, DestinationsOf(stopsOf))
    {
      if !Truthy(userId) || fetched.None? {
        return;
      }
      var list := fetched.value;
      trips := list;
      if |list| > 0 {
        totalBudget := TotalBudget(list, stopsOf, activitiesOf);
        tripBudgets := AllTripBudgets(list, stopsOf, activitiesOf);
        tripDestinations := AllTripDestinations(list, stopsOf);
      } else {
        totalBudget, tripBudgets, tripDestinations := 0, map[], map[];
      }
    }

    /** `handleDeleteTrip`: the trip leaves the list; the figures stay as they were. */
    method HandleDeleteTrip(tripId: Id, deleted: bool)
      modifies this
      ensures !deleted ==> trips == old(trips)
      ensures deleted ==> trips == WithoutId(old(trips), TripIdOf, tripId)
      ensures totalBudget == old(totalBudget) && tripBudgets == old(tripBudgets)
      ensures tripDestinations == old(tripDestinations)
    {
      if deleted {
        trips := WithoutId(trips, TripIdOf, tripId);
      }
    }
  }

  /** When the answers are the server's own, each trip's figure is the
      server's budget and the total is the sum of those budgets. */
  lemma DashboardTotalIsServerTotal(stops: map<Id, Stop>, activities: map<Id, Activity>,
                                    stopsOf: Id -> Option<seq<Stop>>, activitiesOf: Id -> Option<seq<Activity>>,
                                    trips: seq<Trip>)
    requires forall i :: 0 <= i < |trips| ==> AnswersStops(stops, stopsOf, trips[i].id)
    requires forall k :: (exists i :: 0 <= i < |trips| && k in StopsOfTrip(stops, trips[i].id)) ==>
               AnswersActivities(activities, activitiesOf, k)
    ensures forall i :: 0 <= i < |trips| ==>
              BudgetOf(stopsOf, activitiesOf)(trips[i]) == TripBudget(stops, activities, trips[i].id)
    ensures TripsCost(trips, stopsOf, activitiesOf) == Some(SumSeq(trips, ServerBudgetOf(stops, activities)))
  {
    forall i | 0 <= i < |trips|
      ensures TripCost(trips[i].id, stopsOf, activitiesOf) == Some(TripBudget(stops, activities, trips[i].id))
    {
      TripCostIsServerBudget(stops, activities, stopsOf, activitiesOf, trips[i].id);
    }
    SumSeqExt(trips, BudgetOf(stopsOf, activitiesOf), ServerBudgetOf(stops, activities));
  }

  /** When the answer is the server's own, the destination count is the
      number of the trip's stops. */
  lemma DestinationsAreStopCount(stops: map<Id, Stop>, stopsOf: Id -> Option<seq<Stop>>, trip: Trip)
    requires AnswersStops(stops, stopsOf, trip.id)
    ensures DestinationsOf(stopsOf)(trip) == |StopsOfTrip(stops, trip.id)|
  {
    CountOfListed(stops, stopsOf(trip.id).value, OfTrip(trip.id), StopIdOf);
    assert Matching(stops, OfTrip(trip.id)) == StopsOfTrip(stops, trip.id);
  }
}
