/** The trips page (globetrotter/src/pages/Trips.jsx): the user's trips,
    shown as cards, as a list with each trip's length in days, or on a
    timeline ordered by start date where each trip is marked as past,
    current or upcoming. The page reads the clock once per instant `now`. */
module TripsPage {
  import opened Common
  import opened Records
  import opened Sorting
  import opened Calendar
  import opened ClientLists

  class TripsPage {
    var trips: seq<Trip>

    constructor ()
      ensures trips == []
    {
      trips := [];
    }

    /** `fetchTrips`: nothing happens without a user id or when the fetch fails. */
    method FetchTrips(userId: Option<Id>, fetched: Option<seq<Trip>>)
      modifies this
      ensures trips == if Truthy(userId) && fetched.Some? then fetched.value else old(trips)
    {
      if Truthy(userId) && fetched.Some? {
        trips := fetched.value;
      }
    }

    /** `hasTrips` */
    function HasTrips(): (b: bool)
      reads this
      ensures b <==> exists t :: t in trips
    {
      assert trips != [] ==> trips[0] in trips;
      |trips| > 0
    }

    /** `handleDeleteTrip` */
    method HandleDeleteTrip(tripId: Id, deleted: bool)
      modifies this
      ensures trips == if deleted then WithoutId(old(trips), TripIdOf, tripId) else old(trips)
    {
      if deleted {
        trips := WithoutId(trips, TripIdOf, tripId);
      }
    }
  }

  /** The list view's `duration`. */
  function Duration(t: Trip): (n: int)
    ensures t.startDate <= t.endDate ==> n >= 1
  {
    DaysSpanned(t.startDate, t.endDate)
  }

  /** A trip from one midnight to the midnight `k` days later is shown as
      lasting `k + 1` days; in particular one that starts and ends on the
      same day lasts one. */
  lemma DurationCountsBothEnds(t: Trip, k: nat)
    requires t.endDate - t.startDate == k * DayMs
    ensures Duration(t) == k + 1
  {
    var n := Duration(t);
    assert (n - 2) * DayMs < k * DayMs;
    assert k * DayMs <= (n - 1) * DayMs;
  }

  /** `renderTimelineView`'s `sortedTrips`: a sorted copy of the list. */
  function TimelineOrder(trips: seq<Trip>): (r: seq<Trip>)
    ensures multiset(r) == multiset(trips)
    ensures SortedBy(r, TripStartOf)
  {
    SortBy(trips, TripStartOf)
  }

  predicate IsPast(t: Trip, now: int) { t.endDate < now }
  predicate IsCurrent(t: Trip, now: int) { t.startDate <= now && t.endDate >= now }
  predicate IsFuture(t: Trip, now: int) { t.startDate > now }

  /** A trip whose dates are in order is exactly one of past, current and upcoming. */
  lemma ExactlyOnePhase(t: Trip, now: int)
    requires t.startDate <= t.endDate
    ensures IsPast(t, now) || IsCurrent(t, now) || IsFuture(t, now)
    ensures !(IsPast(t, now) && IsCurrent(t, now))
    ensures !(IsPast(t, now) && IsFuture(t, now))
    ensures !(IsCurrent(t, now) && IsFuture(t, now))
  {
  }

  datatype Phase = Past | Current | Upcoming

  /** The timeline dot's colour: past first, then current, otherwise upcoming. */
  function PhaseOf(t: Trip, now: int): (p: Phase)
    ensures p == Past <==> IsPast(t, now)
    ensures p == Current <==> IsCurrent(t, now) && !IsPast(t, now)
    ensures t.startDate <= t.endDate ==> (p == Upcoming <==> IsFuture(t, now))
  {
    if IsPast(t, now) then Past
    else if IsCurrent(t, now) then Current
    else Upcoming
  }
}
