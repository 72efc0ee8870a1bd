/** The decisions of the trip routes (backend/routes/tripRoutes.js): which
    reply a request gets and which document it stores. The routes' effect on
    the collections is `Backend.Database`; this module says what it must be.
    `new Date(text)` is the parameter `parseDate`, `None` meaning an
    Invalid Date. */
module TripRoutes {
  import opened Common
  import opened Records
  import opened TripSchema

  const MissingCreateFields := "Missing required fields. Please provide tripName, startDate, endDate, and userId."
  const MissingUpdateFields := "Missing required fields. Please provide tripName, startDate, and endDate."
  const InvalidUserId := "Invalid user ID format"
  const TripNotFound := "Trip not found"
  const UpdateServerError := "Server error while updating trip"
  const DeleteServerError := "Server error while deleting trip"
  const TripDeleted := "Trip deleted successfully"

  /** The multipart form fields of a create or update request. */
  datatype TripBody = TripBody(
    tripName: Option<string>,
    startDate: Option<string>,
    endDate: Option<string>,
    userId: Option<string>,
    description: Option<string>)

  function DateOf(text: string, parseDate: string -> Option<int>): (d: DateField)
    ensures d != Absent
    ensures d.At? <==> parseDate(text).Some?
    ensures d.At? ==> d.ms == parseDate(text).value
  {
    match parseDate(text)
    case Some(ms) => At(ms)
    case None => InvalidDate
  }

  /** The cover image sub-document built from an uploaded file. */
  function CoverOf(file: Option<Upload>): (c: Option<Image>)
    ensures c.Some? <==> file.Some?
    ensures file.Some? ==> c.value.data == file.value.buffer && c.value.contentType == file.value.mimetype
  {
    match file
    case Some(f) => Some(ImageOf(f))
    case None => None
  }

  /** Every stored trip satisfies the schema's rules. */
  ghost predicate StoredTripValid(t: Trip) {
    && IsValidId(t.userId)
    && TripNameMin <= |t.tripName| <= TripNameMax && IsTrimmed(t.tripName)
    && t.endDate >= t.startDate
    && |t.description| <= DescriptionMax
  }

  // ---------------------------------------------------------------------
  // POST /

  predicate HasCreateFields(b: TripBody) {
    Truthy(b.tripName) && Truthy(b.startDate) && Truthy(b.endDate) && Truthy(b.userId)
  }

  /** The document handed to `Trip.create`; a missing description becomes "". */
  function CreateFields(b: TripBody, parseDate: string -> Option<int>): (f: TripFields)
    requires HasCreateFields(b)
    ensures f.userId == b.userId && f.tripName == b.tripName
    ensures f.description == Some(OrElse(b.description, ""))
  {
    TripFields(b.userId, b.tripName, DateOf(b.startDate.value, parseDate),
               DateOf(b.endDate.value, parseDate), Some(OrElse(b.description, "")))
  }

  /** The reply to a create request: 400 with a fixed text when a required
      field is falsy, 400 with the validation messages joined by ". " when
      the schema refuses the trip, and otherwise 201 with the stored trip. */
  function CreateTripReply(b: TripBody, file: Option<Upload>, parseDate: string -> Option<int>,
                           newId: Id, now: int): (r: Reply<Trip>)
    ensures !HasCreateFields(b) ==> r == Err(400, MissingCreateFields)
    ensures r.Err? ==> r.status == 400
    ensures r.Ok? <==> HasCreateFields(b) && TripAcceptable(CreateFields(b, parseDate))
    ensures r.Err? && HasCreateFields(b) ==> r.error == Join(ValidateTrip(CreateFields(b, parseDate)), ". ")
    ensures r.Ok? ==> r.status == 201 && StoredTripValid(r.data)
    ensures r.Ok? ==> && r.data.id == newId && r.data.userId == CastId(b.userId.value)
                      && r.data.tripName == Trim(b.tripName.value)
                      && parseDate(b.startDate.value) == Some(r.data.startDate)
                      && parseDate(b.endDate.value) == Some(r.data.endDate)
                      && r.data.description == OrElse(b.description, "")
                      && r.data.coverImage == CoverOf(file)
                      && r.data.createdAt == now && r.data.updatedAt == now
  {
    if !HasCreateFields(b) then Err(400, MissingCreateFields)
    else
      var f := CreateFields(b, parseDate);
      var errs := ValidateTrip(f);
      if errs != [] then Err(400, Join(errs, ". "))
      else Ok(201, Trip(newId, CastId(b.userId.value), Trim(b.tripName.value), f.startDate.ms,
                        f.endDate.ms, f.description.value, CoverOf(file), now, now))
  }

  /** The audit record written after a trip is created: the raw form texts,
      not the parsed dates. */
  function CreatedTripLog(logId: Id, b: TripBody, tripId: Id, now: int): (e: LogEntry)
    requires HasCreateFields(b)
    ensures e.id == logId && e.timestamp == now
    ensures e.action == "created_trip" && e.userId == CastId(b.userId.value)
    ensures e.details.Keys == {"tripId", "tripName", "startDate", "endDate"}
    ensures e.details["tripId"] == tripId && e.details["tripName"] == b.tripName.value
  {
    LogEntry(logId, CastId(b.userId.value), "created_trip",
             map["tripId" := tripId, "tripName" := b.tripName.value,
                 "startDate" := b.startDate.value, "endDate" := b.endDate.value], now)
  }

  // ---------------------------------------------------------------------
  // PUT /:id

  predicate HasUpdateFields(b: TripBody) {
    Truthy(b.tripName) && Truthy(b.startDate) && Truthy(b.endDate)
  }

  function UpdateOf(b: TripBody, parseDate: string -> Option<int>): (u: TripUpdate)
    requires HasUpdateFields(b)
    ensures u.tripName == b.tripName.value && u.description == OrElse(b.description, "")
    ensures u.startDate == parseDate(b.startDate.value) && u.endDate == parseDate(b.endDate.value)
  {
    TripUpdate(b.tripName.value, parseDate(b.startDate.value), parseDate(b.endDate.value),
               OrElse(b.description, ""))
  }

  /** The trip after an accepted update: the four fields replaced, the cover
      replaced only when a file came, `updatedAt` refreshed, the rest kept. */
  function ApplyUpdate(t: Trip, u: TripUpdate, file: Option<Upload>, now: int): (r: Trip)
    requires UpdateCastErrors(u) == []
    ensures r.id == t.id && r.userId == t.userId && r.createdAt == t.createdAt && r.updatedAt == now
    ensures r.tripName == Trim(u.tripName) && r.startDate == u.startDate.value && r.endDate == u.endDate.value
    ensures r.description == u.description
    ensures r.coverImage == if file.Some? then CoverOf(file) else t.coverImage
  {
    t.(tripName := Trim(u.tripName), startDate := u.startDate.value, endDate := u.endDate.value,
       description := u.description,
       coverImage := if file.Some? then CoverOf(file) else t.coverImage,
       updatedAt := now)
  }

  /** The reply to an update, in the order the checks happen: the route's own
      check of required fields, the cast of the id (a CastError, so 500), the
      cast of the dates (`findByIdAndUpdate` throws that CastError as is,
      not wrapped in a ValidationError, so 500 as well), the update
      validators, and only then the lookup. */
  function UpdateTripReply(trips: map<Id, Trip>, id: string, b: TripBody, file: Option<Upload>,
                           parseDate: string -> Option<int>, now: int): (r: Reply<Trip>)
    ensures !HasUpdateFields(b) ==> r == Err(400, MissingUpdateFields)
    ensures HasUpdateFields(b) && !IsValidId(id) ==> r == Err(500, UpdateServerError)
    ensures HasUpdateFields(b) && UpdateCastErrors(UpdateOf(b, parseDate)) != [] ==> r == Err(500, UpdateServerError)
    ensures r.Err? && r.status == 404 ==> r.error == TripNotFound && CastId(id) !in trips
    ensures r.Ok? ==> && HasUpdateFields(b) && IsValidId(id)
                      && UpdateCastErrors(UpdateOf(b, parseDate)) == []
                      && UpdateAcceptable(UpdateOf(b, parseDate))
                      && CastId(id) in trips
                      && r == Ok(200, ApplyUpdate(trips[CastId(id)], UpdateOf(b, parseDate), file, now))
    ensures (HasUpdateFields(b) && IsValidId(id) && CastId(id) in trips
             && UpdateCastErrors(UpdateOf(b, parseDate)) == [] && UpdateAcceptable(UpdateOf(b, parseDate)))
            ==> r.Ok?
  {
    if !HasUpdateFields(b) then Err(400, MissingUpdateFields)
    else if !IsValidId(id) then Err(500, UpdateServerError)
    else
      var u := UpdateOf(b, parseDate);
      var castErrs := UpdateCastErrors(u);
      if castErrs != [] then Err(500, UpdateServerError)
      else
        var errs := ValidateUpdate(u);
        if errs != [] then Err(400, Join(errs, ". "))
        else if CastId(id) !in trips then Err(404, TripNotFound)
        else Ok(200, ApplyUpdate(trips[CastId(id)], u, file, now))
  }

  /** The update route with the update validators as the schema is written. */
  function UpdateTripReplyAsWritten(trips: map<Id, Trip>, id: string, b: TripBody, file: Option<Upload>,
                                    parseDate: string -> Option<int>, now: int): (r: Reply<Trip>)
    ensures !HasUpdateFields(b) ==> r == Err(400, MissingUpdateFields)
    ensures HasUpdateFields(b) && !IsValidId(id) ==> r == Err(500, UpdateServerError)
    ensures HasUpdateFields(b) && IsValidId(id) && UpdateCastErrors(UpdateOf(b, parseDate)) != []
            ==> r == Err(500, UpdateServerError)
  {
    if !HasUpdateFields(b) then Err(400, MissingUpdateFields)
    else if !IsValidId(id) then Err(500, UpdateServerError)
    else
      var u := UpdateOf(b, parseDate);
      var castErrs := UpdateCastErrors(u);
      if castErrs != [] then Err(500, UpdateServerError)
      else
        var errs := ValidateUpdateAsWritten(u);
        if errs != [] then Err(400, Join(errs, ". "))
        else if CastId(id) !in trips then Err(404, TripNotFound)
        else Ok(200, ApplyUpdate(trips[CastId(id)], u, file, now))
  }

  /** As written, no update ever succeeds: once the fields are present, the
      id casts and the dates cast, the reply is a 400 whose messages include
      the end-date message, whether or not the trip exists. */
  lemma {:induction false} UpdateAsWrittenNeverSucceeds(trips: map<Id, Trip>, id: string, b: TripBody,
                                                         file: Option<Upload>, parseDate: string -> Option<int>,
                                                         now: int)
    ensures UpdateTripReplyAsWritten(trips, id, b, file, parseDate, now).Err?
    ensures HasUpdateFields(b) && IsValidId(id) && UpdateCastErrors(UpdateOf(b, parseDate)) == []
            ==> && UpdateTripReplyAsWritten(trips, id, b, file, parseDate, now)
                   == Err(400, Join(ValidateUpdateAsWritten(UpdateOf(b, parseDate)), ". "))
                && "End date must be after start date" in ValidateUpdateAsWritten(UpdateOf(b, parseDate))
  {
    if HasUpdateFields(b) && IsValidId(id) && UpdateCastErrors(UpdateOf(b, parseDate)) == [] {
      UpdateAsWrittenAlwaysRefused(UpdateOf(b, parseDate));
    }
  }

  /** The corrected route differs from the one as written only once the
      fields are present, the id casts and the dates cast. */
  lemma UpdateCorrectionOnlyChangesValidation(trips: map<Id, Trip>, id: string, b: TripBody,
                                              file: Option<Upload>, parseDate: string -> Option<int>, now: int)
    ensures !(HasUpdateFields(b) && IsValidId(id) && UpdateCastErrors(UpdateOf(b, parseDate)) == [])
            ==> UpdateTripReply(trips, id, b, file, parseDate, now)
                == UpdateTripReplyAsWritten(trips, id, b, file, parseDate, now)
  {
  }

  /** An accepted update keeps a stored trip valid. */
  lemma UpdateKeepsTripValid(trips: map<Id, Trip>, id: string, b: TripBody, file: Option<Upload>,
                             parseDate: string -> Option<int>, now: int)
    requires forall k :: k in trips ==> StoredTripValid(trips[k])
    requires UpdateTripReply(trips, id, b, file, parseDate, now).Ok?
    ensures StoredTripValid(UpdateTripReply(trips, id, b, file, parseDate, now).data)
  {
    var u := UpdateOf(b, parseDate);
    var t := trips[CastId(id)];
    var r := ApplyUpdate(t, u, file, now);
    assert UpdateTripReply(trips, id, b, file, parseDate, now).data == r;
    assert StoredTripValid(t);
    assert IsValidId(r.userId) && IsTrimmed(r.tripName);
  }

  // ---------------------------------------------------------------------
  // DELETE /:id

  /** A malformed id makes `findByIdAndDelete` throw a CastError, so 500. */
  function DeleteTripReply(trips: map<Id, Trip>, id: string): (r: Reply<string>)
    ensures r.Ok? <==> IsValidId(id) && CastId(id) in trips
    ensures r.Ok? ==> r == Ok(200, TripDeleted)
    ensures !IsValidId(id) ==> r == Err(500, DeleteServerError)
    ensures IsValidId(id) && CastId(id) !in trips ==> r == Err(404, TripNotFound)
  {
    if !IsValidId(id) then Err(500, DeleteServerError)
    else if CastId(id) !in trips then Err(404, TripNotFound)
    else Ok(200, TripDeleted)
  }
}
