/** The itinerary editor of one trip (globetrotter/src/components/ItineraryBuilder.jsx):
    the list of the trip's stops, a map from stop id to the list of that
    stop's activities, and the stop an activity is being added to. Each
    handler runs after its API call; the call's outcome is a parameter
    (`None` or `false` when it fails, in which case the handler's `catch`
    leaves the state as it was). */
module Itinerary {
  import opened Common
  import opened Records
  import opened Sums
  import opened Collections
  import opened Budget
  import opened StopRoutes
  import opened Calendar
  import opened ClientLists
  import opened ClientBudget

  /** The ids of a list of stops. */
  function StopIds(l: seq<Stop>): set<Id> {
    set s | s in l :: s.id
  }

  /** Every activity fetch of a load answers. */
  predicate AllFetched(l: seq<Stop>, activitiesOf: Id -> Option<seq<Activity>>) {
    forall i :: 0 <= i < |l| ==> activitiesOf(l[i].id).Some?
  }

  /** One stop's list of activities, summed. */
  function ListCostIn(acts: map<Id, seq<Activity>>): Id -> int {
    k => if k in acts then ListCost(acts[k]) else 0
  }

  /** `calculateTotalCost`'s result: every list, every cost. */
  ghost function ItineraryCost(acts: map<Id, seq<Activity>>): int {
    SumSet(acts.Keys, ListCostIn(acts))
  }

  class ItineraryBuilder {
    var stops: seq<Stop>
    var activities: map<Id, seq<Activity>>
    var selectedStop: Option<Id>

    constructor ()
      ensures stops == [] && activities == map[] && selectedStop == None
    {
      stops, activities, selectedStop := [], map[], None;
    }

    /** `loadItinerary`: the stops are shown as soon as they arrive; the
        activities map is replaced only once every stop's activities have
        arrived. */
    method LoadItinerary(stopsData: Option<seq<Stop>>, activitiesOf: Id -> Option<seq<Activity>>)
      modifies this
      ensures selectedStop == old(selectedStop)
      ensures stopsData.None? ==> stops == old(stops) && activities == old(activities)
      ensures stopsData.Some? ==> stops == stopsData.value
      ensures stopsData.Some? && !AllFetched(stopsData.value, activitiesOf) ==> activities == old(activities)
      ensures stopsData.Some? && AllFetched(stopsData.value, activitiesOf) ==>
                && activities.Keys == StopIds(stopsData.value)
                && forall k :: k in activities ==> activitiesOf(k) == Some(activities[k])
    {
      if stopsData.None? {
        return;
      }
      var list := stopsData.value;
      stops := list;
      var data: map<Id, seq<Activity>> := map[];
      var i := 0;
      while i < |list|
        invariant 0 <= i <= |list|
        invariant forall j :: 0 <= j < i ==> activitiesOf(list[j].id).Some?
        invariant data.Keys == StopIds(list[..i])
        invariant forall k :: k in data ==> activitiesOf(k) == Some(data[k])
      {
        var fetched := activitiesOf(list[i].id);
        if fetched.None? {
          return;
        }
        assert list[..i + 1] == list[..i] + [list[i]];
        data := data[list[i].id := fetched.value];
        i := i + 1;
      }
      assert list[..i] == list;
      activities := data;
    }

    /** `handleAddStop`: the created stop goes at the end. */
    method AddStop(created: Option<Stop>)
      modifies this
      ensures activities == old(activities) && selectedStop == old(selectedStop)
      ensures stops == old(stops) + (if created.Some? then [created.value] else [])
    {
      if created.Some? {
        stops := stops + [created.value];
      }
    }

    /** `handleDeleteStop`: the stop leaves the list and its activities the map. */
    method DeleteStop(stopId: Id, deleted: bool)
      modifies this
      ensures selectedStop == old(selectedStop)
      ensures !deleted ==> stops == old(stops) && activities == old(activities)
      ensures deleted ==> stops == WithoutId(old(stops), StopIdOf, stopId)
      ensures deleted ==> activities == old(activities) - {stopId}
    {
      if deleted {
        stops := WithoutId(stops, StopIdOf, stopId);
        activities := activities - {stopId};
      }
    }

    /** `handleAddActivity`: remembers the stop the new activity is for. */
    method SelectStop(stopId: Id)
      modifies this
      ensures stops == old(stops) && activities == old(activities)
      ensures selectedStop == Some(stopId)
    {
      selectedStop := Some(stopId);
    }

    /** `handleCreateActivity`: nothing without a selected stop; otherwise the
        created activity is appended to that stop's list (an empty list
        first if the stop has none) and the selection is cleared. */
    method CreateActivity(created: Option<Activity>)
      modifies this
      ensures stops == old(stops)
      ensures !Truthy(old(selectedStop)) || created.None? ==>
                activities == old(activities) && selectedStop == old(selectedStop)
      ensures Truthy(old(selectedStop)) && created.Some? ==>
                && selectedStop == None
                && var k := old(selectedStop).value;
                   activities == old(activities)[k := (if k in old(activities) then old(activities)[k] else [])
                                                      + [created.value]]
    {
      if !Truthy(selectedStop) || created.None? {
        return;
      }
      var k := selectedStop.value;
      var list := if k in activities then activities[k] else [];
      activities := activities[k := list + [created.value]];
      selectedStop := None;
    }

    /** `handleDeleteActivity`: every list loses the entries with that id and
        keeps the rest in order; every key stays. */
    method DeleteActivity(activityId: Id, deleted: bool)
      modifies this
      ensures stops == old(stops) && selectedStop == old(selectedStop)
      ensures !deleted ==> activities == old(activities)
      ensures deleted ==> activities == map k | k in old(activities) ::
                                          WithoutId(old(activities)[k], ActivityIdOf, activityId)
    {
      if !deleted {
        return;
      }
      var before := activities;
      var updated := before;
      var pending := before.Keys;
      while pending != {}
        invariant pending <= before.Keys && updated.Keys == before.Keys
        invariant forall k :: k in updated ==>
                    updated[k] == if k in pending then before[k] else WithoutId(before[k], ActivityIdOf, activityId)
        decreases pending
      {
        var k :| k in pending;
        updated := updated[k := WithoutId(updated[k], ActivityIdOf, activityId)];
        pending := pending - {k};
      }
      activities := updated;
    }

    /** `calculateTotalCost`: every cost of every list, zero costs skipped. */
    method TotalCost() returns (total: int)
      ensures total == ItineraryCost(activities)
    {
      var acts := activities;
      var f := ListCostIn(acts);
      var pending := acts.Keys;
      total := 0;
      while pending != {}
        invariant pending <= acts.Keys
        invariant total + SumSet(pending, f) == SumSet(acts.Keys, f)
        decreases pending
      {
        var k :| k in pending;
        var c := ListTotal(acts[k]);
        total := total + c;
        SumSetRemove(pending, f, k);
        pending := pending - {k};
      }
    }
  }

  /** The cost a loaded itinerary shows is the server's budget for the trip. */
  lemma LoadedCostIsServerBudget(stops: map<Id, Stop>, activities: map<Id, Activity>,
                                 stopsOf: Id -> Option<seq<Stop>>, activitiesOf: Id -> Option<seq<Activity>>,
                                 tripId: Id, acts: map<Id, seq<Activity>>)
    requires AnswersStops(stops, stopsOf, tripId)
    requires forall k :: k in StopsOfTrip(stops, tripId) ==> AnswersActivities(activities, activitiesOf, k)
    requires acts.Keys == StopIds(stopsOf(tripId).value)
    requires forall k :: k in acts ==> activitiesOf(k) == Some(acts[k])
    ensures ItineraryCost(acts) == TripBudget(stops, activities, tripId)
  {
    var l := stopsOf(tripId).value;
    var T := StopsOfTrip(stops, tripId);
    assert acts.Keys == T by {
      forall k | k in T ensures k in acts.Keys {
        var i :| 0 <= i < |l| && l[i].id == k;
        assert l[i] in l;
      }
    }
    forall k | k in T ensures ListCostIn(acts)(k) == ShareOf(activities)(k) {
      ListCostIsStopCost(activities, acts[k], k);
    }
    SumSetExt(T, ListCostIn(acts), ShareOf(activities));
    SumOfStopCosts(activities, T);
  }

  // -----------------------------------------------------------------------
  // Requests and derived values

  /** The activity form as sent: `cost ? parseFloat(cost) : 0`, a number that
      does not parse travelling as `null` (`None`), and the day as the
      current time. */
  function ActivityRequestOf(stopId: Id, name: string, costText: string,
                             parseNumber: string -> Option<int>, nowText: string): (b: ActivityBody)
    ensures b.stopId == Some(stopId) && b.activityName == Some(name) && b.day == Some(nowText)
    ensures costText == "" ==> b.cost == Some(0)
    ensures costText != "" ==> b.cost == parseNumber(costText)
  {
    ActivityBody(Some(stopId), Some(name), if costText == "" then Some(0) else parseNumber(costText), Some(nowText))
  }

  /** An empty cost field, or one that does not parse as a number, is stored as 0. */
  lemma UnpricedActivityCostsNothing(stopId: Id, name: string, costText: string,
                                     parseNumber: string -> Option<int>, nowText: string,
                                     parseDate: string -> Option<int>, newId: Id, now: int)
    requires costText == "" || parseNumber(costText).None?
    ensures var r := CreateActivityReply(ActivityRequestOf(stopId, name, costText, parseNumber, nowText),
                                         parseDate, newId, now);
            r.Ok? ==> r.data.cost == 0
  {
  }

  /** `new Date(stop.startDate)` and `new Date(stop.endDate)`, `None` for an Invalid Date. */
  datatype DateSpan = DateSpan(start: Option<int>, end: Option<int>)

  function SpanOf(s: Stop): DateSpan {
    DateSpan(Some(s.startDate), Some(s.endDate))
  }

  predicate ValidSpan(d: DateSpan) {
    d.start.Some? && d.end.Some?
  }

  /** The spans that survive the `isNaN` filter. */
  function ValidSpans(spans: seq<DateSpan>): (r: seq<DateSpan>)
    ensures forall i :: 0 <= i < |r| ==> ValidSpan(r[i]) && r[i] in spans
    ensures forall i :: 0 <= i < |spans| && ValidSpan(spans[i]) ==> spans[i] in r
  {
    if spans == [] then []
    else
      assert spans == [spans[0]] + spans[1..];
      (if ValidSpan(spans[0]) then [spans[0]] else []) + ValidSpans(spans[1..])
  }

  /** `Math.min(...starts)` of a non-empty list of valid spans. */
  function MinStart(spans: seq<DateSpan>): (m: int)
    requires spans != []
    requires forall i :: 0 <= i < |spans| ==> spans[i].start.Some? && spans[i].end.Some?
    ensures forall i :: 0 <= i < |spans| ==> m <= spans[i].start.value
    ensures exists i :: 0 <= i < |spans| && m == spans[i].start.value
  {
    if |spans| == 1 then spans[0].start.value
    else
      var rest := MinStart(spans[1..]);
      assert forall i :: 1 <= i < |spans| ==> spans[i] == spans[1..][i - 1];
      if spans[0].start.value <= rest then spans[0].start.value else rest
  }

  /** `Math.max(...ends)` of a non-empty list of valid spans. */
  function MaxEnd(spans: seq<DateSpan>): (m: int)
    requires spans != []
    requires forall i :: 0 <= i < |spans| ==> spans[i].start.Some? && spans[i].end.Some?
    ensures forall i :: 0 <= i < |spans| ==> spans[i].end.value <= m
    ensures exists i :: 0 <= i < |spans| && m == spans[i].end.value
  {
    if |spans| == 1 then spans[0].end.value
    else
      var rest := MaxEnd(spans[1..]);
      assert forall i :: 1 <= i < |spans| ==> spans[i] == spans[1..][i - 1];
      if spans[0].end.value >= rest then spans[0].end.value else rest
  }

  /** The earliest start among the valid spans. */
  ghost predicate IsEarliestStart(spans: seq<DateSpan>, lo: int) {
    && (exists i :: 0 <= i < |spans| && ValidSpan(spans[i]) && spans[i].start.value == lo)
    && (forall i :: 0 <= i < |spans| && ValidSpan(spans[i]) ==> lo <= spans[i].start.value)
  }

  /** The latest end among the valid spans. */
  ghost predicate IsLatestEnd(spans: seq<DateSpan>, hi: int) {
    && (exists i :: 0 <= i < |spans| && ValidSpan(spans[i]) && spans[i].end.value == hi)
    && (forall i :: 0 <= i < |spans| && ValidSpan(spans[i]) ==> spans[i].end.value <= hi)
  }

  /** `calculateTotalDays`: 0 without stops or without a stop whose dates
      parse, and otherwise the days from the earliest start to the latest end. */
  function TotalDays(spans: seq<DateSpan>): (d: int)
    ensures (forall i :: 0 <= i < |spans| ==> !ValidSpan(spans[i])) ==> d == 0
    ensures forall lo, hi :: IsEarliestStart(spans, lo) && IsLatestEnd(spans, hi) ==> d == DaysSpanned(lo, hi)
  {
    var valid := ValidSpans(spans);
    if |spans| == 0 || |valid| == 0 then
      assert forall i :: 0 <= i < |spans| ==> !ValidSpan(spans[i]);
      0
    else
      var lo, hi := MinStart(valid), MaxEnd(valid);
      BoundsOfValid(spans);
      assert forall lo', hi' :: IsEarliestStart(spans, lo') && IsLatestEnd(spans, hi') ==> lo' == lo && hi' == hi by {
        forall lo', hi' | IsEarliestStart(spans, lo') && IsLatestEnd(spans, hi') ensures lo' == lo && hi' == hi {
          BoundsUnique(spans, lo, lo', hi, hi');
        }
      }
      DaysSpanned(lo, hi)
  }

  /** `Math.min` and `Math.max` over the valid spans are their earliest start and latest end. */
  lemma BoundsOfValid(spans: seq<DateSpan>)
    requires ValidSpans(spans) != []
    ensures IsEarliestStart(spans, MinStart(ValidSpans(spans)))
    ensures IsLatestEnd(spans, MaxEnd(ValidSpans(spans)))
  {
    var valid := ValidSpans(spans);
    var lo, hi := MinStart(valid), MaxEnd(valid);
    var i :| 0 <= i < |valid| && lo == valid[i].start.value;
    var j :| 0 <= j < |valid| && hi == valid[j].end.value;
    assert valid[i] in spans && valid[j] in spans;
  }

  /** There is one earliest start and one latest end. */
  lemma BoundsUnique(spans: seq<DateSpan>, lo: int, lo': int, hi: int, hi': int)
    requires IsEarliestStart(spans, lo) && IsEarliestStart(spans, lo')
    requires IsLatestEnd(spans, hi) && IsLatestEnd(spans, hi')
    ensures lo == lo' && hi == hi'
  {
  }

  /** An itinerary of one stop lasts as long as a trip with the same dates
      (Trips.jsx's duration). */
  lemma OneStopTotalDays(s: Stop)
    ensures TotalDays([SpanOf(s)]) == DaysSpanned(s.startDate, s.endDate)
  {
    var spans := [SpanOf(s)];
    assert spans[0] == SpanOf(s) && ValidSpan(spans[0]);
    assert IsEarliestStart(spans, s.startDate);
    assert IsLatestEnd(spans, s.endDate);
  }
}
