/** The backend's trip, stop, activity, budget and activity-log routes acting
    on the MongoDB collections they use. Each collection is a map from id to
    document; each route is a method that replies as the matching decision
    function says and changes exactly the collections that route writes.
    Fresh ids and the current time are parameters. */
module Backend {
  import opened Common
  import opened Records
  import opened Sums
  import opened Sorting
  import opened Collections
  import opened TripSchema
  import opened TripRoutes
  import opened StopRoutes
  import opened Budget
  import opened LogRoutes

  class Database {
    var trips: map<Id, Trip>
    var stops: map<Id, Stop>
    var activities: map<Id, Activity>
    var logs: map<Id, LogEntry>

    /** Every document is filed under its own id, and every stored trip
        satisfies the Trip schema. */
    ghost predicate Valid()
      reads this
    {
      TripsValid(trips) && StopsKeyed(stops) && ActivitiesKeyed(activities) && LogsKeyed(logs)
    }

    constructor ()
      ensures Valid()
      ensures trips == map[] && stops == map[] && activities == map[] && logs == map[]
    {
      trips, stops, activities, logs := map[], map[], map[], map[];
    }

    // -------------------------------------------------------------------
    // Trips

    /** POST /api/trips: stores the trip and an audit entry, or nothing. */
    method CreateTrip(b: TripBody, file: Option<Upload>, parseDate: string -> Option<int>,
                      newId: Id, logId: Id, now: int) returns (r: Reply<Trip>)
      requires Valid() && IsCanonicalId(newId) && newId !in trips && logId !in logs
      modifies this
      ensures Valid()
      ensures r == CreateTripReply(b, file, parseDate, newId, now)
      ensures r.Ok? ==> && trips == old(trips)[newId := r.data]
                        && logs == old(logs)[logId := CreatedTripLog(logId, b, newId, now)]
      ensures r.Err? ==> trips == old(trips) && logs == old(logs)
      ensures stops == old(stops) && activities == old(activities)
    {
      r := CreateTripReply(b, file, parseDate, newId, now);
      if r.Ok? {
        var entry := CreatedTripLog(logId, b, newId, now);
        assert r.data.id == newId && StoredTripValid(r.data) && entry.id == logId;
        PutTrip(r.data);
        PutLog(entry);
      }
    }

    /** GET /api/trips/:userId: the user's trips, earliest start first. */
    method TripsOfUser(userId: string) returns (r: Reply<seq<Trip>>)
      requires Valid()
      ensures !IsValidId(userId) ==> r == Err(400, InvalidUserId)
      ensures IsValidId(userId) ==> && r.Ok? && r.status == 200
                                    && ListsExactly(trips, r.data, OwnedBy(CastId(userId)), TripIdOf)
                                    && SortedBy(r.data, TripStartOf)
    {
      if !IsValidId(userId) {
        return Err(400, InvalidUserId);
      }
      var owner := CastId(userId);
      var found := FindSorted(trips, OwnedBy(owner), TripStartOf, TripIdOf);
      r := Ok(200, found);
    }

    /** PUT /api/trips/:id */
    method UpdateTrip(id: string, b: TripBody, file: Option<Upload>, parseDate: string -> Option<int>, now: int)
      returns (r: Reply<Trip>)
      requires Valid()
      modifies this
      ensures Valid()
      ensures r == UpdateTripReply(old(trips), id, b, file, parseDate, now)
      ensures trips == if r.Ok? then old(trips)[CastId(id) := r.data] else old(trips)
      ensures stops == old(stops) && activities == old(activities) && logs == old(logs)
    {
      r := UpdateTripReply(trips, id, b, file, parseDate, now);
      if r.Ok? {
        UpdateKeepsTripValid(trips, id, b, file, parseDate, now);
        assert r.data.id == CastId(id) by { assert trips[CastId(id)].id == CastId(id); }
        PutTrip(r.data);
      }
    }

    /** Files a schema-valid trip under its id (`save`), leaving the other
        collections as they are. */
    method PutTrip(t: Trip)
      requires Valid() && StoredTripValid(t)
      modifies this
      ensures Valid() && trips == old(trips)[t.id := t]
      ensures stops == old(stops) && activities == old(activities) && logs == old(logs)
    {
      StoreValidTrip(trips, t.id, t);
      trips := trips[t.id := t];
    }

    /** Files an activity-log entry under its id. */
    method PutLog(e: LogEntry)
      requires Valid()
      modifies this
      ensures Valid() && logs == old(logs)[e.id := e]
      ensures trips == old(trips) && stops == old(stops) && activities == old(activities)
    {
      logs := logs[e.id := e];
    }

    /** DELETE /api/trips/:id: the trip only; its stops stay behind. */
    method DeleteTrip(id: string) returns (r: Reply<string>)
      requires Valid()
      modifies this
      ensures Valid()
      ensures r == DeleteTripReply(old(trips), id)
      ensures trips == if r.Ok? then old(trips) - {CastId(id)} else old(trips)
      ensures stops == old(stops) && activities == old(activities) && logs == old(logs)
    {
      r := DeleteTripReply(trips, id);
      if r.Ok? {
        trips := trips - {CastId(id)};
      }
    }

    // -------------------------------------------------------------------
    // Stops

    /** POST /api/stops */
    method CreateStop(b: StopBody, parseDate: string -> Option<int>, newId: Id, now: int) returns (r: Reply<Stop>)
      requires Valid() && IsCanonicalId(newId) && newId !in stops
      modifies this
      ensures Valid()
      ensures r == CreateStopReply(b, parseDate, newId, now)
      ensures stops == if r.Ok? then old(stops)[newId := r.data] else old(stops)
      ensures trips == old(trips) && activities == old(activities) && logs == old(logs)
    {
      r := CreateStopReply(b, parseDate, newId, now);
      if r.Ok? {
        stops := stops[newId := r.data];
      }
    }

    /** GET /api/stops/trip/:tripId: a malformed id fails the query (500). */
    method StopsOfTripQuery(tripId: string) returns (r: Reply<seq<Stop>>)
      requires Valid()
      ensures !IsValidId(tripId) ==> r == Err(500, FetchStopsError)
      ensures IsValidId(tripId) ==> && r.Ok? && r.status == 200
                                    && ListsExactly(stops, r.data, OfTrip(CastId(tripId)), StopIdOf)
                                    && SortedBy(r.data, StopStartOf)
    {
      if !IsValidId(tripId) {
        return Err(500, FetchStopsError);
      }
      var trip := CastId(tripId);
      var found := FindSorted(stops, OfTrip(trip), StopStartOf, StopIdOf);
      r := Ok(200, found);
    }

    /** DELETE /api/stops/:stopId: the stop and every activity of it. */
    method DeleteStop(stopId: string) returns (r: Reply<Stop>)
      requires Valid()
      modifies this
      ensures Valid()
      ensures r == DeleteStopReply(old(stops), stopId)
      ensures stops == if r.Ok? then old(stops) - {CastId(stopId)} else old(stops)
      ensures activities == if r.Ok? then WithoutStop(old(activities), CastId(stopId)) else old(activities)
      ensures trips == old(trips) && logs == old(logs)
    {
      r := DeleteStopReply(stops, stopId);
      if r.Ok? {
        stops := stops - {CastId(stopId)};
        activities := WithoutStop(activities, CastId(stopId));
      }
    }

    // -------------------------------------------------------------------
    // Activities

    /** POST /api/activities */
    method CreateActivity(b: ActivityBody, parseDate: string -> Option<int>, newId: Id, now: int)
      returns (r: Reply<Activity>)
      requires Valid() && IsCanonicalId(newId) && newId !in activities
      modifies this
      ensures Valid()
      ensures r == CreateActivityReply(b, parseDate, newId, now)
      ensures activities == if r.Ok? then old(activities)[newId := r.data] else old(activities)
      ensures trips == old(trips) && stops == old(stops) && logs == old(logs)
    {
      r := CreateActivityReply(b, parseDate, newId, now);
      if r.Ok? {
        activities := activities[newId := r.data];
      }
    }

    /** GET /api/activities/stop/:stopId: earliest day first. */
    method ActivitiesOfStopQuery(stopId: string) returns (r: Reply<seq<Activity>>)
      requires Valid()
      ensures !IsValidId(stopId) ==> r == Err(500, FetchActivitiesError)
      ensures IsValidId(stopId) ==> && r.Ok? && r.status == 200
                                    && ListsExactly(activities, r.data, OfStop(CastId(stopId)),
                                                    ActivityIdOf)
                                    && SortedBy(r.data, ActivityDayOf)
    {
      if !IsValidId(stopId) {
        return Err(500, FetchActivitiesError);
      }
      var stop := CastId(stopId);
      var found := FindSorted(activities, OfStop(stop), ActivityDayOf,
                              ActivityIdOf);
      r := Ok(200, found);
    }

    /** DELETE /api/activities/:activityId */
    method DeleteActivity(activityId: string) returns (r: Reply<Activity>)
      requires Valid()
      modifies this
      ensures Valid()
      ensures r == DeleteActivityReply(old(activities), activityId)
      ensures activities == if r.Ok? then old(activities) - {CastId(activityId)} else old(activities)
      ensures trips == old(trips) && stops == old(stops) && logs == old(logs)
    {
      r := DeleteActivityReply(activities, activityId);
      if r.Ok? {
        activities := activities - {CastId(activityId)};
      }
    }

    // -------------------------------------------------------------------
    // Budget

    /** GET /api/budget/:tripId: the ids of the trip's stops, then the sum of
        the costs of the activities at those stops. */
    method GetBudget(tripId: string) returns (r: Reply<int>)
      requires Valid()
      ensures !IsValidId(tripId) ==> r == Err(400, BudgetCastMessage(tripId))
      ensures IsValidId(tripId) ==> r == Ok(200, TripBudget(stops, activities, CastId(tripId)))
    {
      if !IsValidId(tripId) {
        return Err(400, BudgetCastMessage(tripId));
      }
      var trip := CastId(tripId);
      var stopIds: set<Id> := {};
      var pending := stops.Keys;
      while pending != {}
        invariant pending <= stops.Keys
        invariant forall k :: k in stopIds <==> k in stops && k !in pending && stops[k].tripId == trip
        decreases pending
      {
        var k :| k in pending;
        if stops[k].tripId == trip {
          stopIds := stopIds + {k};
        }
        pending := pending - {k};
      }
      assert stopIds == StopsOfTrip(stops, trip);
      ghost var cost := CostWithin(activities, stopIds);
      var total := 0;
      var rest := activities.Keys;
      while rest != {}
        invariant rest <= activities.Keys
        invariant total + SumSet(rest, cost) == SumSet(activities.Keys, cost)
        decreases rest
      {
        var k :| k in rest;
        SumSetRemove(rest, cost, k);
        if activities[k].stopId in stopIds {
          total := total + activities[k].cost;
        }
        rest := rest - {k};
      }
      r := Ok(200, total);
    }

    // -------------------------------------------------------------------
    // Activity log

    /** GET /api/activity-log/user/:userId?limit=: the user's most recent
        entries, newest first, at most the effective limit of them. */
    method RecentLogs(userId: string, limit: Option<string>) returns (r: Reply<seq<LogEntry>>)
      requires Valid()
      ensures !IsValidId(userId) ==> r == Err(500, FetchLogsError)
      ensures IsValidId(userId) ==> && r.Ok? && r.status == 200
                                    && FirstByKey(logs, r.data, LoggedBy(CastId(userId)),
                                                  NewestFirst, LogIdOf,
                                                  EffectiveLimit(ParseLimit(limit)))
    {
      if !IsValidId(userId) {
        return Err(500, FetchLogsError);
      }
      var owner := CastId(userId);
      var all := FindSorted(logs, LoggedBy(owner), NewestFirst,
                            LogIdOf);
      var n := EffectiveLimit(ParseLimit(limit));
      TakeFirstByKey(logs, all, LoggedBy(owner), NewestFirst,
                     LogIdOf, n);
      r := Ok(200, Take(all, n));
    }

    /** POST /api/activity-log/log */
    method PostLog(b: LogBody, newId: Id, now: int) returns (r: Reply<LogEntry>)
      requires Valid() && IsCanonicalId(newId) && newId !in logs
      modifies this
      ensures Valid()
      ensures r == PostLogReply(b, newId, now)
      ensures logs == if r.Ok? then old(logs)[newId := r.data] else old(logs)
      ensures trips == old(trips) && stops == old(stops) && activities == old(activities)
    {
      r := PostLogReply(b, newId, now);
      if r.Ok? {
        logs := logs[newId := r.data];
      }
    }
  }

  ghost predicate TripsValid(trips: map<Id, Trip>) {
    forall k :: k in trips ==> trips[k].id == k && StoredTripValid(trips[k])
  }

  ghost predicate StopsKeyed(stops: map<Id, Stop>) {
    forall k :: k in stops ==> stops[k].id == k
  }

  ghost predicate ActivitiesKeyed(activities: map<Id, Activity>) {
    forall k :: k in activities ==> activities[k].id == k
  }

  ghost predicate LogsKeyed(logs: map<Id, LogEntry>) {
    forall k :: k in logs ==> logs[k].id == k
  }

  /** An accepted update keeps the trips collection valid. */
  lemma UpdatedTripsValid(trips: map<Id, Trip>, id: string, b: TripBody, file: Option<Upload>,
                          parseDate: string -> Option<int>, now: int)
    requires TripsValid(trips)
    requires UpdateTripReply(trips, id, b, file, parseDate, now).Ok?
    ensures TripsValid(trips[CastId(id) := UpdateTripReply(trips, id, b, file, parseDate, now).data])
  {
    var r := UpdateTripReply(trips, id, b, file, parseDate, now);
    UpdateKeepsTripValid(trips, id, b, file, parseDate, now);
    assert r.data.id == CastId(id);
    StoreValidTrip(trips, CastId(id), r.data);
  }

  /** Storing a valid trip under its own id keeps the collection valid. */
  lemma StoreValidTrip(trips: map<Id, Trip>, key: Id, t: Trip)
    requires TripsValid(trips) && t.id == key && StoredTripValid(t)
    ensures TripsValid(trips[key := t])
  {
    var after := trips[key := t];
    forall k | k in after ensures after[k].id == k && StoredTripValid(after[k]) {
      if k != key {
        assert after[k] == trips[k];
      }
    }
  }
}
