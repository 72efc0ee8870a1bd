/** The stored documents of the backend: Trip, Stop, Activity and ActivityLog
    (the files under backend/models). Dates are milliseconds since the epoch; a date that
    failed to parse is modelled where it can occur, as `None`. */
module Records {
  import opened Common

  /** The string form of an ObjectId. */
  type Id = string

  newtype byte = x: int | 0 <= x < 256

  /** A stored image: raw bytes with their declared MIME type and file name. */
  datatype Image = Image(data: seq<byte>, contentType: string, filename: string)

  /** A file as the multipart parser hands it to a route handler. */
  datatype Upload = Upload(buffer: seq<byte>, mimetype: string, originalname: string)

  datatype Trip = Trip(
    id: Id,
    userId: Id,
    tripName: string,
    startDate: int,
    endDate: int,
    description: string,
    coverImage: Option<Image>,
    createdAt: int,
    updatedAt: int)

  datatype Stop = Stop(id: Id, tripId: Id, city: string, startDate: int, endDate: int)

  datatype Activity = Activity(id: Id, stopId: Id, activityName: string, cost: int, day: int)

  /** An audit record; `details` is a free-form object, here a map of text fields. */
  datatype LogEntry = LogEntry(
    id: Id,
    userId: Id,
    action: string,
    details: map<string, string>,
    timestamp: int)

  /** Casting a valid id string to an ObjectId and back yields its lower-case form. */
  function CastId(s: string): (r: Id)
    ensures |r| == |s|
    ensures IsValidId(s) ==> IsValidId(r)
  {
    var r := ToLowerAscii(s);
    assert forall i :: 0 <= i < |s| ==> IsHexDigit(s[i]) ==> IsHexDigit(r[i]);
    r
  }

  /** The text of an id the database generates: 24 lower-case hexadecimal digits. */
  predicate IsCanonicalId(s: string) {
    IsValidId(s) && ToLowerAscii(s) == s
  }

  /** A route's JSON reply: a status with the `data` it carries, or a status
      with the `error` text. */
  datatype Reply<T> = Ok(status: int, data: T) | Err(status: int, error: string)

  /** An uploaded image file as stored: buffer, MIME type and name verbatim. */
  function ImageOf(file: Upload): (img: Image)
    ensures img.data == file.buffer && img.contentType == file.mimetype
    ensures img.filename == file.originalname
  {
    Image(file.buffer, file.mimetype, file.originalname)
  }

  // ---------------------------------------------------------------------
  // The fields queries filter and sort on, as named function values, so
  // that every module speaks of the same query.

  function TripIdOf(t: Trip): Id { t.id }
  function TripStartOf(t: Trip): int { t.startDate }
  function OwnedBy(userId: Id): Trip -> bool { (t: Trip) => t.userId == userId }

  function StopIdOf(s: Stop): Id { s.id }
  function StopStartOf(s: Stop): int { s.startDate }
  function OfTrip(tripId: Id): Stop -> bool { (s: Stop) => s.tripId == tripId }

  function ActivityIdOf(a: Activity): Id { a.id }
  function ActivityDayOf(a: Activity): int { a.day }
  function CostOf(a: Activity): int { a.cost }
  function OfStop(stopId: Id): Activity -> bool { (a: Activity) => a.stopId == stopId }

  function LogIdOf(e: LogEntry): Id { e.id }
  function NewestFirst(e: LogEntry): int { -e.timestamp }
  function LoggedBy(userId: Id): LogEntry -> bool { (e: LogEntry) => e.userId == userId }
}
