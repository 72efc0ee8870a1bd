/** The profile page (globetrotter/src/pages/Profile.jsx): the lines of
    the recent-activity feed, the "time ago" labels, the profile picture's
    image source, the avatar upload's checks and the trip count. */
module ProfilePage {
  import opened Common
  import opened Records
  import opened Sums
  import opened Collections
  import opened Calendar
  import opened ClientFiles
  import opened TripRoutes
  import opened UserRoutes

  // ---------------------------------------------------------------------
  // The activity feed

  /** `${details.tripName}`: the text, or "undefined" when the field is absent. */
  function TripNameText(details: map<string, string>): string {
    if "tripName" in details then details["tripName"] else "undefined"
  }

  predicate IsTripAction(action: string) {
    action == "created_trip" || action == "updated_trip" || action == "deleted_trip"
  }

  /** `getActivityInfo(action, details).text` */
  function ActivityText(action: string, details: map<string, string>): (text: string)
    ensures IsTripAction(action) ==> |text| >= |TripNameText(details)|
                                     && text[|text| - |TripNameText(details)|..] == TripNameText(details)
    ensures !IsTripAction(action) <==> text == "Activity recorded"
  {
    var name := TripNameText(details);
    match action
    case "created_trip" => var t := "Created new trip: " + name; assert t[0] == 'C'; t
    case "updated_trip" => var t := "Updated trip: " + name; assert t[0] == 'U'; t
    case "deleted_trip" => var t := "Deleted trip: " + name; assert t[0] == 'D'; t
    case _ => "Activity recorded"
  }

  /** The three trip actions read differently, so the feed line tells them apart. */
  lemma ActivityTextNamesAction(a1: string, d1: map<string, string>, a2: string, d2: map<string, string>)
    requires IsTripAction(a1) && IsTripAction(a2)
    requires ActivityText(a1, d1) == ActivityText(a2, d2)
    ensures a1 == a2
  {
    assert ActivityText(a1, d1)[0] == ActivityText(a2, d2)[0];
  }

  /** The record POST /api/trips writes shows as "Created new trip: " and the name as typed. */
  lemma CreatedTripFeedLine(logId: Id, b: TripBody, tripId: Id, now: int)
    requires HasCreateFields(b)
    ensures var e := CreatedTripLog(logId, b, tripId, now);
            ActivityText(e.action, e.details) == "Created new trip: " + b.tripName.value
  {
  }

  // ---------------------------------------------------------------------
  // Time ago

  /** `formatTimeAgo(timestamp)` at the instant `now`; `dateText` is
      `toLocaleDateString()` of the timestamp. */
  function FormatTimeAgo(now: int, time: int, dateText: string): (r: string)
    ensures now - time < HourMs ==> r == "Just now"
    ensures now - time >= 7 * DayMs ==> r == dateText
  {
    var hours := (now - time) / HourMs;
    var days := hours / 24;
    if hours < 1 then "Just now"
    else if hours < 24 then NatToString(hours) + " hour" + (if hours > 1 then "s" else "") + " ago"
    else if days < 7 then NatToString(days) + " day" + (if days > 1 then "s" else "") + " ago"
    else dateText
  }

  /** Between `n` and `n + 1` hours ago, for `n` from 1 to 23. */
  lemma HoursAgo(now: int, time: int, dateText: string, n: nat)
    requires 1 <= n < 24 && n * HourMs <= now - time < (n + 1) * HourMs
    ensures FormatTimeAgo(now, time, dateText) == NatToString(n) + (if n == 1 then " hour ago" else " hours ago")
  {
    FloorDivOfBounds(now - time, HourMs, n);
    assert NatToString(n) + " hour" + (if n > 1 then "s" else "") + " ago"
        == NatToString(n) + (if n == 1 then " hour ago" else " hours ago");
  }

  /** Between `n` and `n + 1` days ago, for `n` from 1 to 6. */
  lemma DaysAgo(now: int, time: int, dateText: string, n: nat)
    requires 1 <= n < 7 && n * DayMs <= now - time < (n + 1) * DayMs
    ensures FormatTimeAgo(now, time, dateText) == NatToString(n) + (if n == 1 then " day ago" else " days ago")
  {
    var hours := (now - time) / HourMs;
    FloorDivBounds(now - time, HourMs);
    assert 24 * n <= hours < 24 * n + 24;
    FloorDivOfBounds(hours, 24, n);
    assert NatToString(n) + " day" + (if n > 1 then "s" else "") + " ago"
        == NatToString(n) + (if n == 1 then " day ago" else " days ago");
  }

  /** Under an hour (or in the future) is "Just now"; then whole hours up to
      23, then whole days up to 6, each singular only for 1; a week or more
      shows the date. */
  lemma TimeAgoBuckets(now: int, time: int, dateText: string)
    ensures now - time < HourMs ==> FormatTimeAgo(now, time, dateText) == "Just now"
    ensures forall n: nat :: 1 <= n < 24 && n * HourMs <= now - time < (n + 1) * HourMs ==>
              FormatTimeAgo(now, time, dateText) == NatToString(n) + (if n == 1 then " hour ago" else " hours ago")
    ensures forall n: nat :: 1 <= n < 7 && n * DayMs <= now - time < (n + 1) * DayMs ==>
              FormatTimeAgo(now, time, dateText) == NatToString(n) + (if n == 1 then " day ago" else " days ago")
    ensures now - time >= 7 * DayMs ==> FormatTimeAgo(now, time, dateText) == dateText
  {
    var hours := (now - time) / HourMs;
    FloorDivBounds(now - time, HourMs);
    FloorDivBounds(hours, 24);
    forall n: nat | 1 <= n < 24 && n * HourMs <= now - time < (n + 1) * HourMs
      ensures FormatTimeAgo(now, time, dateText) == NatToString(n) + (if n == 1 then " hour ago" else " hours ago")
    {
      HoursAgo(now, time, dateText, n);
    }
    forall n: nat | 1 <= n < 7 && n * DayMs <= now - time < (n + 1) * DayMs
      ensures FormatTimeAgo(now, time, dateText) == NatToString(n) + (if n == 1 then " day ago" else " days ago")
    {
      DaysAgo(now, time, dateText, n);
    }
  }

  // ---------------------------------------------------------------------
  // The profile picture

  /** `profileData.avatar` on the client: a string, or an object whose
      `data` and `contentType` may be missing. */
  datatype ClientAvatar = AvatarText(url: string) | AvatarObject(data: Option<string>, contentType: Option<string>)

  function DataUrl(contentType: string, data: string): string {
    "data:" + contentType + ";base64," + data
  }

  /** The new `profileImage`: a string avatar as is, an object with data and
      type as a data URL, data alone as a JPEG data URL, and otherwise the
      image shown so far. */
  function AvatarSource(current: Option<string>, avatar: Option<ClientAvatar>): (src: Option<string>)
    ensures avatar.Some? && avatar.value.AvatarText? && avatar.value.url != "" ==> src == Some(avatar.value.url)
    ensures avatar.Some? && avatar.value.AvatarObject? && Truthy(avatar.value.data) ==>
              src == Some(DataUrl(if Truthy(avatar.value.contentType) then avatar.value.contentType.value
                                  else "image/jpeg", avatar.value.data.value))
    ensures src != current ==> avatar.Some? && (avatar.value.AvatarText? || Truthy(avatar.value.data))
  {
    match avatar
    case None => current
    case Some(AvatarText(url)) => if url != "" then Some(url) else current
    case Some(AvatarObject(data, contentType)) =>
      if Truthy(data) && Truthy(contentType) then Some(DataUrl(contentType.value, data.value))
      else if Truthy(data) then Some(DataUrl("image/jpeg", data.value))
      else current
  }

  /** The avatar of a profile as the server sends it: `data` is the image's
      bytes in base64 (`encode` here). */
  function ClientAvatarOf(v: UserView, encode: seq<byte> -> string): Option<ClientAvatar> {
    match v.avatar
    case None => None
    case Some(img) => Some(AvatarObject(Some(encode(img.data)), Some(img.contentType)))
  }

  /** The media type and the payload of a `data:<type>;base64,<payload>` URL. */
  function SplitDataUrl(url: string): (r: Option<(string, string)>)
    ensures r.Some? ==> DataUrl(r.value.0, r.value.1) == url && ';' !in r.value.0
  {
    if !StartsWith(url, "data:") then None
    else
      var rest := url[5..];
      var i := IndexOf(rest, ';');
      if i < |rest| && StartsWith(rest[i + 1..], "base64,") then
        DataUrlParts(url, rest, i);
        Some((rest[..i], rest[i + 8..]))
      else None
  }

  /** The pieces around the first `;` of a data URL rebuild it. */
  lemma DataUrlParts(url: string, rest: string, i: nat)
    requires StartsWith(url, "data:") && rest == url[5..]
    requires i < |rest| && rest[i] == ';' && StartsWith(rest[i + 1..], "base64,")
    requires forall j :: 0 <= j < i ==> rest[j] != ';'
    ensures DataUrl(rest[..i], rest[i + 8..]) == url && ';' !in rest[..i]
  {
    assert url == "data:" + rest;
    assert rest == rest[..i] + ";base64," + rest[i + 8..];
    assert forall j :: 0 <= j < i ==> rest[..i][j] == rest[j];
  }

  /** A data URL splits back into the type and the payload it was built from. */
  lemma DataUrlRoundTrip(contentType: string, data: string)
    requires ';' !in contentType
    ensures SplitDataUrl(DataUrl(contentType, data)) == Some((contentType, data))
  {
    var url := DataUrl(contentType, data);
    var rest := url[5..];
    assert rest == contentType + ";base64," + data;
    assert rest[|contentType|] == ';';
    assert forall j :: 0 <= j < |contentType| ==> rest[j] == contentType[j];
    assert IndexOf(rest, ';') == |contentType|;
    assert rest[|contentType| + 1..] == "base64," + data;
    assert rest[..|contentType|] == contentType;
    assert rest[|contentType| + 8..] == data;
  }

  /** A stored picture with a type and non-empty base64 text is shown as the
      data URL of that type and text. */
  lemma StoredAvatarShown(current: Option<string>, v: UserView, encode: seq<byte> -> string)
    requires v.avatar.Some? && v.avatar.value.contentType != "" && encode(v.avatar.value.data) != ""
    ensures AvatarSource(current, ClientAvatarOf(v, encode)) ==
              Some(DataUrl(v.avatar.value.contentType, encode(v.avatar.value.data)))
  {
  }

  // ---------------------------------------------------------------------
  // Avatar upload and trip count

  /** `handleImageUpload`'s checks before anything is sent: nothing without a
      file, then the type, then the size. */
  function AvatarUploadError(file: Option<ClientFile>): (err: Option<string>)
    ensures file.None? ==> err.None?
    ensures file.Some? && !StartsWith(file.value.mimeType, "image/") ==> err == Some("Please select an image file.")
    ensures file.Some? && StartsWith(file.value.mimeType, "image/") ==>
              (err.None? <==> |file.value.contents| <= MaxImageBytes)
  {
    if file.None? then None
    else if !StartsWith(file.value.mimeType, "image/") then Some("Please select an image file.")
    else if |file.value.contents| > MaxImageBytes then Some("Image size should be less than 5MB.")
    else None
  }

  /** A file the page lets through also passes the server's upload filter and limit. */
  lemma ClientCheckedAvatarPassesServer(f: ClientFile)
    requires AvatarUploadError(Some(f)).None?
    ensures UploadFailure(Some(UploadOf(f))).None?
  {
  }

  /** `fetchTripCount`: the number of fetched trips, 0 when the fetch fails. */
  function TripCount(fetched: Option<seq<Trip>>): (c: nat)
    ensures fetched.None? ==> c == 0
    ensures fetched.Some? ==> c == |fetched.value|
  {
    if fetched.Some? then |fetched.value| else 0
  }

  /** With the server's answer to GET /api/trips/:userId, the count is the
      number of that user's trips. */
  lemma TripCountIsUsersTrips(trips: map<Id, Trip>, list: seq<Trip>, userId: Id)
    requires ListsExactly(trips, list, OwnedBy(userId), TripIdOf)
    ensures TripCount(Some(list)) == |Matching(trips, OwnedBy(userId))|
  {
    CountOfListed(trips, list, OwnedBy(userId), TripIdOf);
  }
}
