/** The decisions of the stop and activity routes (backend/routes/stopRoutes.js,
    backend/routes/activityRoutes.js). Neither schema has validators, so the
    only ValidationErrors are cast errors: an id that is not an ObjectId, or a
    date text that does not parse. */
module StopRoutes {
  import opened Common
  import opened Records
  import opened TripSchema

  const MissingStopFields := "Missing required fields. Please provide tripId and city."
  const InvalidStopId := "Invalid stop ID"
  const StopNotFound := "Stop not found"
  const StopDeleted := "Stop and associated activities deleted successfully"
  const FetchStopsError := "Error fetching stops"

  const MissingActivityFields := "Missing required fields. Please provide stopId and activityName."
  const InvalidActivityId := "Invalid activity ID"
  const ActivityNotFound := "Activity not found"
  const ActivityDeleted := "Activity deleted successfully"
  const FetchActivitiesError := "Error fetching activities"

  /** `text ? new Date(text) : new Date()`: a falsy text means now. */
  function DateOrNow(text: Option<string>, parseDate: string -> Option<int>, now: int): (d: Option<int>)
    ensures !Truthy(text) ==> d == Some(now)
    ensures Truthy(text) ==> d == parseDate(text.value)
  {
    if Truthy(text) then parseDate(text.value) else Some(now)
  }

  function IdCastErrors(value: string, path: string): (errs: seq<string>)
    ensures errs == [] <==> IsValidId(value)
  {
    if IsValidId(value) then [] else [CastIdMessage(value, path)]
  }

  function DateCastErrors(d: Option<int>, path: string): (errs: seq<string>)
    ensures errs == [] <==> d.Some?
  {
    if d.Some? then [] else [CastDateMessage(path)]
  }

  // ---------------------------------------------------------------------
  // Stops

  datatype StopBody = StopBody(
    tripId: Option<string>,
    city: Option<string>,
    startDate: Option<string>,
    endDate: Option<string>)

  /** POST /: 400 with a fixed text when `tripId` or `city` is falsy, 400 with
      the cast messages when an id or a date does not cast, 201 otherwise. The
      trip itself is not looked up. */
  function CreateStopReply(b: StopBody, parseDate: string -> Option<int>, newId: Id, now: int): (r: Reply<Stop>)
    ensures !(Truthy(b.tripId) && Truthy(b.city)) ==> r == Err(400, MissingStopFields)
    ensures r.Err? ==> r.status == 400
    ensures r.Ok? <==> && Truthy(b.tripId) && Truthy(b.city) && IsValidId(b.tripId.value)
                       && DateOrNow(b.startDate, parseDate, now).Some?
                       && DateOrNow(b.endDate, parseDate, now).Some?
    ensures r.Ok? ==> && r.status == 201 && r.data.id == newId
                      && r.data.tripId == CastId(b.tripId.value) && r.data.city == b.city.value
                      && Some(r.data.startDate) == DateOrNow(b.startDate, parseDate, now)
                      && Some(r.data.endDate) == DateOrNow(b.endDate, parseDate, now)
  {
    if !(Truthy(b.tripId) && Truthy(b.city)) then Err(400, MissingStopFields)
    else
      var s, e := DateOrNow(b.startDate, parseDate, now), DateOrNow(b.endDate, parseDate, now);
      var errs := IdCastErrors(b.tripId.value, "tripId") + DateCastErrors(s, "startDate")
                  + DateCastErrors(e, "endDate");
      if errs != [] then Err(400, Join(errs, ". "))
      else Ok(201, Stop(newId, CastId(b.tripId.value), b.city.value, s.value, e.value))
  }

  /** DELETE /:stopId, before the activities of the stop are removed. */
  function DeleteStopReply(stops: map<Id, Stop>, stopId: string): (r: Reply<Stop>)
    ensures r.Ok? <==> IsValidId(stopId) && CastId(stopId) in stops
    ensures r.Ok? ==> r == Ok(200, stops[CastId(stopId)])
    ensures !IsValidId(stopId) ==> r == Err(400, InvalidStopId)
    ensures IsValidId(stopId) && CastId(stopId) !in stops ==> r == Err(404, StopNotFound)
  {
    if !IsValidId(stopId) then Err(400, InvalidStopId)
    else if CastId(stopId) !in stops then Err(404, StopNotFound)
    else Ok(200, stops[CastId(stopId)])
  }

  /** `Activity.deleteMany({ stopId })`: every activity of other stops stays,
      none of this stop's remains. */
  function WithoutStop(activities: map<Id, Activity>, stopId: Id): (r: map<Id, Activity>)
    ensures forall k :: k in r <==> k in activities && activities[k].stopId != stopId
    ensures forall k :: k in r ==> r[k] == activities[k]
  {
    map k | k in activities && activities[k].stopId != stopId :: activities[k]
  }

  // ---------------------------------------------------------------------
  // Activities

  /** `cost` is the JSON number sent, if any. */
  datatype ActivityBody = ActivityBody(
    stopId: Option<string>,
    activityName: Option<string>,
    cost: Option<int>,
    day: Option<string>)

  /** `cost || 0`: a missing cost, like a zero one, is stored as 0. */
  function CostOrZero(cost: Option<int>): (c: int)
    ensures cost.Some? ==> c == cost.value
    ensures cost.None? ==> c == 0
  {
    match cost
    case Some(v) => v
    case None => 0
  }

  function CreateActivityReply(b: ActivityBody, parseDate: string -> Option<int>, newId: Id, now: int)
    : (r: Reply<Activity>)
    ensures !(Truthy(b.stopId) && Truthy(b.activityName)) ==> r == Err(400, MissingActivityFields)
    ensures r.Err? ==> r.status == 400
    ensures r.Ok? <==> && Truthy(b.stopId) && Truthy(b.activityName) && IsValidId(b.stopId.value)
                       && DateOrNow(b.day, parseDate, now).Some?
    ensures r.Ok? ==> && r.status == 201 && r.data.id == newId
                      && r.data.stopId == CastId(b.stopId.value)
                      && r.data.activityName == b.activityName.value
                      && r.data.cost == CostOrZero(b.cost)
                      && Some(r.data.day) == DateOrNow(b.day, parseDate, now)
  {
    if !(Truthy(b.stopId) && Truthy(b.activityName)) then Err(400, MissingActivityFields)
    else
      var d := DateOrNow(b.day, parseDate, now);
      var errs := IdCastErrors(b.stopId.value, "stopId") + DateCastErrors(d, "day");
      if errs != [] then Err(400, Join(errs, ". "))
      else Ok(201, Activity(newId, CastId(b.stopId.value), b.activityName.value, CostOrZero(b.cost), d.value))
  }

  function DeleteActivityReply(activities: map<Id, Activity>, activityId: string): (r: Reply<Activity>)
    ensures r.Ok? <==> IsValidId(activityId) && CastId(activityId) in activities
    ensures r.Ok? ==> r == Ok(200, activities[CastId(activityId)])
    ensures !IsValidId(activityId) ==> r == Err(400, InvalidActivityId)
    ensures IsValidId(activityId) && CastId(activityId) !in activities ==> r == Err(404, ActivityNotFound)
  {
    if !IsValidId(activityId) then Err(400, InvalidActivityId)
    else if CastId(activityId) !in activities then Err(404, ActivityNotFound)
    else Ok(200, activities[CastId(activityId)])
  }
}
