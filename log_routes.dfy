/** The decisions of the activity-log routes (backend/routes/activityLogRoutes.js)
    and the ActivityLog schema they write (backend/models/ActivityLog.js). */
module LogRoutes {
  import opened Common
  import opened Records
  import opened TripSchema

  const DefaultLimit := 10
  const FetchLogsError := "Failed to fetch activities"
  const LogFailed := "Failed to log activity"

  /** `parseInt(req.query.limit) || 10`: NaN and 0 are falsy, so both give 10. */
  function ParseLimit(query: Option<string>): (n: int)
    ensures n != 0
    ensures query.None? ==> n == DefaultLimit
    ensures query.Some? && ParseIntJs(query.value).None? ==> n == DefaultLimit
    ensures query.Some? && ParseIntJs(query.value).Some? && ParseIntJs(query.value).value != 0
            ==> n == ParseIntJs(query.value).value
  {
    match query
    case None => DefaultLimit
    case Some(text) =>
      match ParseIntJs(text)
      case None => DefaultLimit
      case Some(v) => if v != 0 then v else DefaultLimit
  }

  /** A positive count written in decimal is the limit it names. */
  lemma ParseLimitOfCount(n: nat)
    requires n > 0
    ensures ParseLimit(Some(NatToString(n))) == n
  {
    ParseIntOfNatToString(n);
  }

  /** `.limit(n)`: the server treats a negative limit as its absolute value. */
  function EffectiveLimit(n: int): (k: nat)
    requires n != 0
    ensures k > 0 && (k == n || k == -n)
  {
    if n < 0 then -n else n
  }

  /** A limit of "0", "abc" or none at all fetches ten entries. */
  lemma FallbackLimit(query: Option<string>)
    requires query.None? || ParseIntJs(query.value).None? || ParseIntJs(query.value) == Some(0)
    ensures EffectiveLimit(ParseLimit(query)) == DefaultLimit
  {
  }

  /** The body of POST /log; `details` is any JSON object, if present. */
  datatype LogBody = LogBody(
    userId: Option<string>,
    action: Option<string>,
    details: Option<map<string, string>>)

  /** ActivityLog's validators: `userId`, `action` and `details` are required
      and `userId` must cast to an ObjectId. */
  function LogErrors(b: LogBody): (errs: seq<string>)
    ensures errs == [] <==> b.userId.Some? && IsValidId(b.userId.value) && Truthy(b.action) && b.details.Some?
  {
    (if b.userId.None? then ["Path `userId` is required."]
     else if !IsValidId(b.userId.value) then [CastIdMessage(b.userId.value, "userId")]
     else [])
    + (if !Truthy(b.action) then ["Path `action` is required."] else [])
    + (if b.details.None? then ["Path `details` is required."] else [])
  }

  /** Any failure to save is reported as a 500 with a fixed text; a saved
      entry is stamped with the current time. */
  function PostLogReply(b: LogBody, newId: Id, now: int): (r: Reply<LogEntry>)
    ensures r.Err? <==> LogErrors(b) != []
    ensures r.Err? ==> r == Err(500, LogFailed)
    ensures r.Ok? ==> && r.status == 200 && r.data.id == newId && r.data.timestamp == now
                      && r.data.userId == CastId(b.userId.value)
                      && r.data.action == b.action.value && r.data.details == b.details.value
  {
    if LogErrors(b) != [] then Err(500, LogFailed)
    else Ok(200, LogEntry(newId, CastId(b.userId.value), b.action.value, b.details.value, now))
  }
}
