/** The Trip schema (backend/models/Trip.js): which field values mongoose accepts
    when a trip is created or updated, and the messages it reports otherwise.
    Mongoose reports at most one error per path: a cast error, or the first
    validator of that path that fails, `required` first. */
module TripSchema {
  import opened Common
  import opened Records

  /** A date field after `new Date(text)`: left out, unparseable, or an instant. */
  datatype DateField = Absent | InvalidDate | At(ms: int)

  /** The fields of a trip document as handed to `Trip.create`. */
  datatype TripFields = TripFields(
    userId: Option<string>,
    tripName: Option<string>,
    startDate: DateField,
    endDate: DateField,
    description: Option<string>)

  const TripNameMin := 3
  const TripNameMax := 100
  const DescriptionMax := 500

  function CastIdMessage(value: string, path: string): string {
    "Cast to ObjectId failed for value \"" + value + "\" (type string) at path \"" + path + "\""
  }

  function CastDateMessage(path: string): string {
    "Cast to date failed for value \"Invalid Date\" (type Date) at path \"" + path + "\""
  }

  /** The error of one path, if any, as a list of zero or one message. */
  function UserIdErrors(userId: Option<string>): (r: seq<string>)
    ensures |r| <= 1
    ensures r == [] <==> userId.Some? && IsValidId(userId.value)
    ensures userId.None? ==> r == ["User ID is required"]
  {
    if userId.None? then ["User ID is required"]
    else if !IsValidId(userId.value) then [CastIdMessage(userId.value, "userId")]
    else []
  }

  /** `tripName` is trimmed before it is validated. */
  function TripNameErrors(tripName: Option<string>): (r: seq<string>)
    ensures |r| <= 1
    ensures r == [] <==> tripName.Some? && TripNameMin <= |Trim(tripName.value)| <= TripNameMax
    ensures (tripName.None? || Trim(tripName.value) == "") ==> r == ["Trip name is required"]
  {
    if tripName.None? || Trim(tripName.value) == "" then ["Trip name is required"]
    else if |Trim(tripName.value)| < TripNameMin then ["Trip name must be at least 3 characters long"]
    else if |Trim(tripName.value)| > TripNameMax then ["Trip name cannot exceed 100 characters"]
    else []
  }

  function StartDateErrors(startDate: DateField): (r: seq<string>)
    ensures |r| <= 1
    ensures r == [] <==> startDate.At?
    ensures startDate.Absent? ==> r == ["Start date is required"]
    ensures startDate.InvalidDate? ==> r == [CastDateMessage("startDate")]
  {
    match startDate
    case Absent => ["Start date is required"]
    case InvalidDate => [CastDateMessage("startDate")]
    case At(_) => []
  }

  /** The custom validator `value >= this.startDate`: a start date that is
      missing or failed to cast compares as `undefined`, so the check fails. */
  predicate EndNotBeforeStart(endMs: int, startDate: DateField) {
    startDate.At? && endMs >= startDate.ms
  }

  function EndDateErrors(endDate: DateField, startDate: DateField): (r: seq<string>)
    ensures |r| <= 1
    ensures r == [] <==> endDate.At? && EndNotBeforeStart(endDate.ms, startDate)
    ensures endDate.Absent? ==> r == ["End date is required"]
    ensures (endDate.At? && !EndNotBeforeStart(endDate.ms, startDate))
              ==> r == ["End date must be after start date"]
  {
    match endDate
    case Absent => ["End date is required"]
    case InvalidDate => [CastDateMessage("endDate")]
    case At(e) => if EndNotBeforeStart(e, startDate) then [] else ["End date must be after start date"]
  }

  function DescriptionErrors(description: Option<string>): (r: seq<string>)
    ensures |r| <= 1
    ensures r == [] <==> description.None? || |description.value| <= DescriptionMax
  {
    if description.Some? && |description.value| > DescriptionMax
    then ["Description cannot exceed 500 characters"] else []
  }

  /** What the schema asks of a new trip, stated field by field. */
  predicate TripAcceptable(f: TripFields) {
    && f.userId.Some? && IsValidId(f.userId.value)
    && f.tripName.Some? && TripNameMin <= |Trim(f.tripName.value)| <= TripNameMax
    && f.startDate.At? && f.endDate.At? && f.endDate.ms >= f.startDate.ms
    && (f.description.None? || |f.description.value| <= DescriptionMax)
  }

  /** The messages of the ValidationError `Trip.create` raises, in schema order. */
  function ValidateTrip(f: TripFields): (errs: seq<string>)
    ensures errs == [] <==> TripAcceptable(f)
    ensures |errs| <= 5
  {
    var u, n, st, en, d := UserIdErrors(f.userId), TripNameErrors(f.tripName),
      StartDateErrors(f.startDate), EndDateErrors(f.endDate, f.startDate), DescriptionErrors(f.description);
    ConcatOfFive(u, n, st, en, d);
    u + n + st + en + d
  }

  /** Each failing rule's own message is among those reported. */
  lemma ValidateTripReportsEachRule(f: TripFields)
    ensures var errs := ValidateTrip(f);
            && (f.userId.None? ==> "User ID is required" in errs)
            && ((f.tripName.None? || Trim(f.tripName.value) == "") ==> "Trip name is required" in errs)
            && (f.startDate.Absent? ==> "Start date is required" in errs)
            && (f.endDate.Absent? ==> "End date is required" in errs)
            && (f.startDate.InvalidDate? ==> CastDateMessage("startDate") in errs)
            && (f.endDate.At? && !f.startDate.At? ==> "End date must be after start date" in errs)
            && ((f.startDate.At? && f.endDate.At? && f.endDate.ms < f.startDate.ms)
                ==> "End date must be after start date" in errs)
  {
    var u, n, st, en, d := UserIdErrors(f.userId), TripNameErrors(f.tripName),
      StartDateErrors(f.startDate), EndDateErrors(f.endDate, f.startDate), DescriptionErrors(f.description);
    assert ValidateTrip(f) == u + n + st + en + d;
    ConcatOfFive(u, n, st, en, d);
  }

  /** Joining the fields' messages loses none and adds none. */
  lemma ConcatOfFive(u: seq<string>, n: seq<string>, st: seq<string>, en: seq<string>, d: seq<string>)
    ensures var all := u + n + st + en + d;
            && |all| == |u| + |n| + |st| + |en| + |d|
            && (all == [] <==> u == [] && n == [] && st == [] && en == [] && d == [])
            && (forall x :: x in u || x in n || x in st || x in en || x in d ==> x in all)
  {
  }

  /** A trip may end on the day it starts. */
  lemma SameDayTripAccepted(userId: string, tripName: string, day: int)
    requires IsValidId(userId)
    requires TripNameMin <= |Trim(tripName)| <= TripNameMax
    ensures ValidateTrip(TripFields(Some(userId), Some(tripName), At(day), At(day), None)) == []
  {
  }

  /** Surrounding whitespace does not count towards the length of a trip name:
      a name that is short once trimmed is refused however it is padded. */
  lemma PaddedShortNameRefused(name: string, pad: string)
    requires 0 < |Trim(name)| < TripNameMin
    requires forall i :: 0 <= i < |pad| ==> IsJsSpace(pad[i])
    ensures TripNameErrors(Some(pad + name + pad)) == ["Trip name must be at least 3 characters long"]
  {
    TrimPadded(name, pad);
  }

  // ---------------------------------------------------------------------
  // Updates (`findByIdAndUpdate` with `runValidators: true`)

  /** The fields the update route always sets; a date that failed to parse is `None`. */
  datatype TripUpdate = TripUpdate(
    tripName: string,
    startDate: Option<int>,
    endDate: Option<int>,
    description: string)

  /** Casting the update: an unparseable date is reported before any validator runs. */
  function UpdateCastErrors(u: TripUpdate): (errs: seq<string>)
    ensures errs == [] <==> u.startDate.Some? && u.endDate.Some?
  {
    (if u.startDate.None? then [CastDateMessage("startDate")] else [])
    + (if u.endDate.None? then [CastDateMessage("endDate")] else [])
  }

  /** The update validators as the schema is written. Mongoose runs an
      update validator with a null scope, so in this non-strict module the
      `endDate` validator sees the global object as `this`: its
      `this.startDate` is `undefined`, exactly as if the start date were
      missing, and `value >= undefined` is false. */
  function ValidateUpdateAsWritten(u: TripUpdate): (errs: seq<string>)
    requires UpdateCastErrors(u) == []
    ensures |errs| <= 3
    ensures Trim(u.tripName) == "" ==> "Trip name is required" in errs
    ensures |u.description| > DescriptionMax ==> "Description cannot exceed 500 characters" in errs
  {
    TripNameErrors(Some(u.tripName)) + EndDateErrors(At(u.endDate.value), Absent)
    + DescriptionErrors(Some(u.description))
  }

  /** As written, no update that carries an end date can pass validation,
      however its dates relate. */
  lemma {:induction false} UpdateAsWrittenAlwaysRefused(u: TripUpdate)
    requires UpdateCastErrors(u) == []
    ensures "End date must be after start date" in ValidateUpdateAsWritten(u)
    ensures ValidateUpdateAsWritten(u) != []
  {
    var n, d := TripNameErrors(Some(u.tripName)), DescriptionErrors(Some(u.description));
    assert EndDateErrors(At(u.endDate.value), Absent) == ["End date must be after start date"];
    assert (n + ["End date must be after start date"] + d)[|n|] == "End date must be after start date";
  }

  /** What the validator evidently means: the update's own end date is not
      before the update's own start date. */
  predicate UpdateAcceptable(u: TripUpdate)
    requires u.startDate.Some? && u.endDate.Some?
  {
    && TripNameMin <= |Trim(u.tripName)| <= TripNameMax
    && u.endDate.value >= u.startDate.value
    && |u.description| <= DescriptionMax
  }

  /** Update validation with the date check made against the update itself. */
  function ValidateUpdate(u: TripUpdate): (errs: seq<string>)
    requires UpdateCastErrors(u) == []
    ensures errs == [] <==> UpdateAcceptable(u)
    ensures u.endDate.value < u.startDate.value ==> "End date must be after start date" in errs
    ensures Trim(u.tripName) == "" ==> "Trip name is required" in errs
  {
    var n, en, d := TripNameErrors(Some(u.tripName)),
      EndDateErrors(At(u.endDate.value), At(u.startDate.value)), DescriptionErrors(Some(u.description));
    n + en + d
  }

  /** An update and a creation with the same fields are judged alike. */
  lemma UpdateAgreesWithCreate(u: TripUpdate, userId: string)
    requires IsValidId(userId)
    requires u.startDate.Some? && u.endDate.Some?
    ensures ValidateUpdate(u) == [] <==>
      ValidateTrip(TripFields(Some(userId), Some(u.tripName), At(u.startDate.value),
                              At(u.endDate.value), Some(u.description))) == []
  {
  }
}
