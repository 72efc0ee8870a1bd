/** The trip form of both front ends (CreateTrip.jsx in globetrotter and
    in globetrotter-your-next-adventure-main): the same zod schema, the
    checks on the cover image, and the multipart body the globetrotter page
    sends. `new Date(text)` is the parameter `parseDate`, `None` meaning an
    Invalid Date. */
module TripForm {
  import opened Common
  import opened Records
  import opened TripSchema
  import opened TripRoutes
  import opened FormErrors
  import opened ClientFiles

  /** The form's text fields as typed. */
  datatype TripFormInput = TripFormInput(tripName: string, startDate: string, endDate: string, description: string)

  const NameTooShort := "Trip name must be at least 3 characters"
  const NameTooLong := "Trip name is too long"
  const StartRequired := "Start date is required"
  const EndRequired := "End date is required"
  const DescriptionTooLong := "Description is too long"
  const EndBeforeStart := "End date must be after start date"

  /** The refinement: with both dates filled in, the end must not be before
      the start; an Invalid Date compares false, so it fails too. */
  predicate DatesInOrder(input: TripFormInput, parseDate: string -> Option<int>) {
    input.startDate != "" && input.endDate != "" ==>
      && parseDate(input.startDate).Some? && parseDate(input.endDate).Some?
      && parseDate(input.endDate).value >= parseDate(input.startDate).value
  }

  /** What the schema asks, stated field by field. */
  predicate FormAcceptable(input: TripFormInput, parseDate: string -> Option<int>) {
    && 3 <= |Trim(input.tripName)| <= 100
    && input.startDate != "" && input.endDate != ""
    && |input.description| <= 500
    && parseDate(input.startDate).Some? && parseDate(input.endDate).Some?
    && parseDate(input.endDate).value >= parseDate(input.startDate).value
  }

  /** `tripSchema.safeParse(...)`'s issues in the order zod reports them:
      the fields in schema order (the name trimmed before its length is
      checked), then the refinement, which runs because every field is a
      string. */
  function TripIssues(input: TripFormInput, parseDate: string -> Option<int>): (issues: seq<Issue>)
    ensures issues == [] <==> FormAcceptable(input, parseDate)
  {
    NameIssues(|Trim(input.tripName)|) + OtherIssues(input, parseDate)
  }

  /** The name's issue, judged on its trimmed length. */
  function NameIssues(length: int): (r: seq<Issue>)
    ensures |r| <= 1 && (r == [] <==> 3 <= length <= 100)
    ensures forall i :: 0 <= i < |r| ==> r[i].path == "tripName"
  {
    if length < 3 then [Issue("tripName", NameTooShort)]
    else IssueIf(length > 100, "tripName", NameTooLong)
  }

  /** No field gets two issues (and every issue names a field), so keeping the first issue of each field
      (react-hook-form's resolver) and keeping the last (the error map of
      the other page) show the same messages. */
  lemma OneIssuePerField(input: TripFormInput, parseDate: string -> Option<int>)
    ensures PathsDistinct(TripIssues(input, parseDate)) && Avoids(TripIssues(input, parseDate), "")
  {
    IssuesDistinctFor(|Trim(input.tripName)|, input, parseDate);
  }

  /** The issues after the name's, in the schema's order. */
  function OtherIssues(input: TripFormInput, parseDate: string -> Option<int>): seq<Issue> {
    IssueIf(input.startDate == "", "startDate", StartRequired)
    + IssueIf(input.endDate == "", "endDate", EndRequired)
    + IssueIf(|input.description| > 500, "description", DescriptionTooLong)
    + IssueIf(!DatesInOrder(input, parseDate), "endDate", EndBeforeStart)
  }

  /** `OneIssuePerField` for any name length. */
  lemma IssuesDistinctFor(length: int, input: TripFormInput, parseDate: string -> Option<int>)
    ensures PathsDistinct(NameIssues(length) + OtherIssues(input, parseDate))
    ensures Avoids(NameIssues(length) + OtherIssues(input, parseDate), "")
  {
    var n := NameIssues(length);
    var s := IssueIf(input.startDate == "", "startDate", StartRequired);
    var e := IssueIf(input.endDate == "", "endDate", EndRequired);
    var d := IssueIf(|input.description| > 500, "description", DescriptionTooLong);
    var o := IssueIf(!DatesInOrder(input, parseDate), "endDate", EndBeforeStart);
    assert OtherIssues(input, parseDate) == s + e + d + o;
    assert n + (s + e + d + o) == n + s + e + d + o;
    PiecesDistinct(n, s, e, d, o);
  }

  /** At most one issue, and on `path`. */
  ghost predicate OnlyOn(issues: seq<Issue>, path: string) {
    |issues| <= 1 && forall i :: 0 <= i < |issues| ==> issues[i].path == path
  }

  /** The schema's pieces: at most one issue each, on the name, the start,
      the end, the description and (the refinement) the end again, the two
      end-date issues never together. */
  lemma PiecesDistinct(n: seq<Issue>, s: seq<Issue>, e: seq<Issue>, d: seq<Issue>, o: seq<Issue>)
    requires OnlyOn(n, "tripName") && OnlyOn(s, "startDate") && OnlyOn(e, "endDate")
             && OnlyOn(d, "description") && OnlyOn(o, "endDate") && (e == [] || o == [])
    ensures PathsDistinct(n + s + e + d + o) && Avoids(n + s + e + d + o, "")
  {
    FieldNamesDistinct();
    assert PathsDistinct([]) && Avoids([], "tripName") && Avoids([], "startDate");
    assert Avoids([], "endDate") && Avoids([], "description") && Avoids([], "");
    AppendOne([], n, "tripName");
    assert [] + n == n;
    AppendOne(n, s, "startDate");
    AppendOne(n + s, e, "endDate");
    AppendOne(n + s + e, d, "description");
    if o != [] {
      assert n + s + e == n + s;
      AppendOne(n + s + e + d, o, "endDate");
    } else {
      assert n + s + e + d + o == n + s + e + d;
    }
  }

  /** The four field names differ (they differ in length) and none is empty. */
  lemma FieldNamesDistinct()
    ensures "tripName" != "startDate" && "tripName" != "endDate" && "tripName" != "description"
    ensures "startDate" != "endDate" && "startDate" != "description" && "endDate" != "description"
    ensures "tripName" != "" && "startDate" != "" && "endDate" != "" && "description" != ""
  {
    assert |"tripName"| == 8 && |"startDate"| == 9 && |"endDate"| == 7 && |"description"| == 11;
  }

  /** Every issue of a refused form is shown under its own field. */
  lemma EveryIssueShown(input: TripFormInput, parseDate: string -> Option<int>)
    ensures var issues := TripIssues(input, parseDate);
            forall i :: 0 <= i < |issues| ==>
              issues[i].path in ErrorMapOf(issues) && ErrorMapOf(issues)[issues[i].path] == issues[i].message
  {
    OneIssuePerField(input, parseDate);
    DistinctPathsAllKept(TripIssues(input, parseDate));
  }

  /** `handleSubmit` of the your-next-adventure page: the form is validated
      into the page's errors, and only a valid form is "created" (the page
      only waits and toasts), the toast quoting the name as typed. */
  method HandleSubmitMock(page: FieldErrors, input: TripFormInput, parseDate: string -> Option<int>)
    returns (toast: Option<string>)
    modifies page
    ensures page.errors == ErrorMapOf(TripIssues(input, parseDate))
    ensures toast.Some? <==> FormAcceptable(input, parseDate)
    ensures toast.Some? ==> toast.value == "\"" + input.tripName + "\" has been added to your trips."
  {
    var ok := page.Validate(TripIssues(input, parseDate));
    if !ok {
      return None;
    }
    toast := Some("\"" + input.tripName + "\" has been added to your trips.");
  }

  /** The values `handleSubmit` passes on: the schema's output, whose name is trimmed. */
  function Submitted(input: TripFormInput): TripFormInput {
    input.(tripName := Trim(input.tripName))
  }

  // ---------------------------------------------------------------------
  // Cover image checks

  const CoverSizeMessage := "File size should be less than 5MB"
  const ImageChangeMessage := "Image size should be less than 5MB"

  /** The 5MB rule, reported with `message`: `register('coverImage').validate.fileSize`
      with CoverSizeMessage, and `handleImageChange`, which then shows no
      preview, with ImageChangeMessage. */
  function SizeError(file: Option<ClientFile>, message: string): (err: Option<string>)
    ensures err.None? <==> file.None? || |file.value.contents| <= MaxImageBytes
    ensures err.Some? ==> err.value == message
  {
    if file.Some? && |file.value.contents| > MaxImageBytes then Some(message) else None
  }

  /** `register('coverImage').validate.fileType` */
  function CoverTypeError(file: Option<ClientFile>): (err: Option<string>)
    ensures err.None? <==> file.None? || file.value.mimeType in ["image/jpeg", "image/png", "image/webp"]
  {
    if file.Some? && file.value.mimeType !in ["image/jpeg", "image/png", "image/webp"]
    then Some("Only JPG, PNG, and WebP images are allowed") else None
  }

  // ---------------------------------------------------------------------
  // The multipart body

  datatype FormValue = Text(text: string) | Attached(file: ClientFile)

  /** A browser `FormData`: its entries in the order they were appended. */
  class FormData {
    var entries: seq<(string, FormValue)>

    constructor ()
      ensures entries == []
    {
      entries := [];
    }

    method Append(name: string, value: FormValue)
      modifies this
      ensures entries == old(entries) + [(name, value)]
    {
      entries := entries + [(name, value)];
    }
  }

  /** The text the server reads for field `name`: the first text entry with that name. */
  function TextField(entries: seq<(string, FormValue)>, name: string): Option<string> {
    if entries == [] then None
    else if entries[0].0 == name && entries[0].1.Text? then Some(entries[0].1.text)
    else TextField(entries[1..], name)
  }

  /** The file the server's parser reads for field `name`. */
  function FileField(entries: seq<(string, FormValue)>, name: string): Option<ClientFile> {
    if entries == [] then None
    else if entries[0].0 == name && entries[0].1.Attached? then Some(entries[0].1.file)
    else FileField(entries[1..], name)
  }

  lemma FieldsOfShort(a: seq<(string, FormValue)>)
    requires |a| <= 1
    ensures forall name :: TextField(a, name) == if a != [] && a[0].0 == name && a[0].1.Text? then Some(a[0].1.text) else None
    ensures forall name :: FileField(a, name) == if a != [] && a[0].0 == name && a[0].1.Attached? then Some(a[0].1.file) else None
  {
    if a != [] {
      assert a[1..] == [];
    }
  }

  /** A field found in the first entries is read from there, otherwise from the rest. */
  lemma {:induction false} FieldsOfAppend(a: seq<(string, FormValue)>, b: seq<(string, FormValue)>)
    ensures forall name :: TextField(a + b, name) == if TextField(a, name).Some? then TextField(a, name) else TextField(b, name)
    ensures forall name :: FileField(a + b, name) == if FileField(a, name).Some? then FileField(a, name) else FileField(b, name)
  {
    if a == [] {
      assert a + b == b;
    } else {
      assert (a + b)[1..] == a[1..] + b;
      FieldsOfAppend(a[1..], b);
    }
  }

  /** The entries `onSubmit` appends: name, dates, description, the user's
      id only when creating, and the picked cover if there is one. */
  function TripFormEntries(data: TripFormInput, editing: bool, userId: Id, cover: Option<ClientFile>)
    : (e: seq<(string, FormValue)>)
    ensures TextField(e, "tripName") == Some(data.tripName)
    ensures TextField(e, "startDate") == Some(data.startDate) && TextField(e, "endDate") == Some(data.endDate)
    ensures TextField(e, "description") == Some(data.description)
    ensures TextField(e, "userId") == if editing then None else Some(userId)
    ensures FileField(e, "coverImage") == cover
  {
    var name, start, end := [("tripName", Text(data.tripName))], [("startDate", Text(data.startDate))], [("endDate", Text(data.endDate))];
    var description := [("description", Text(data.description))];
    var user := if editing then [] else [("userId", Text(userId))];
    var file := if cover.Some? then [("coverImage", Attached(cover.value))] else [];
    FieldsOfShort(name);
    FieldsOfShort(start);
    FieldsOfShort(end);
    FieldsOfShort(description);
    FieldsOfShort(user);
    FieldsOfShort(file);
    FieldsOfAppend(name, start);
    FieldsOfAppend(name + start, end);
    FieldsOfAppend(name + start + end, description);
    FieldsOfAppend(name + start + end + description, user);
    FieldsOfAppend(name + start + end + description + user, file);
    name + start + end + description + user + file
  }

  /** `onSubmit`'s FormData, built by successive appends. */
  method BuildTripFormData(data: TripFormInput, editing: bool, userId: Id, cover: Option<ClientFile>)
    returns (fd: FormData)
    ensures fresh(fd) && fd.entries == TripFormEntries(data, editing, userId, cover)
  {
    fd := new FormData();
    fd.Append("tripName", Text(data.tripName));
    fd.Append("startDate", Text(data.startDate));
    fd.Append("endDate", Text(data.endDate));
    fd.Append("description", Text(data.description));
    if !editing {
      fd.Append("userId", Text(userId));
    }
    if cover.Some? {
      fd.Append("coverImage", Attached(cover.value));
    }
  }

  /** `req.body` and `req.file` as the trip routes read them. */
  function BodyOf(entries: seq<(string, FormValue)>): TripBody {
    TripBody(TextField(entries, "tripName"), TextField(entries, "startDate"), TextField(entries, "endDate"),
             TextField(entries, "userId"), TextField(entries, "description"))
  }

  function UploadIn(entries: seq<(string, FormValue)>): Option<Upload> {
    match FileField(entries, "coverImage")
    case None => None
    case Some(f) => Some(UploadOf(f))
  }

  datatype Outcome = SignInRequired | Saved(title: string, description: string) | SaveFailed(description: string)

  /** The generic failure text of `onSubmit`. */
  function SaveFailedText(editing: bool): string {
    if editing then "Failed to update trip" else "Failed to create trip"
  }

  /** What `onSubmit` shows once the request is answered, as written. The
      response interceptor of services/api.js rejects a refused request with
      a new `Error` that carries no `response`, so the page's
      `error.response?.data?.error` is always undefined and a failure always
      shows the generic text. */
  function SubmitOutcomeAsWritten(signedIn: bool, editing: bool, reply: Reply<Trip>): (o: Outcome)
    ensures o == SignInRequired <==> !signedIn
    ensures signedIn ==> (o.Saved? <==> reply.Ok?)
    ensures o.Saved? ==> o.title == if editing then "Trip updated!" else "Trip created!"
    ensures o.SaveFailed? ==> o.description == SaveFailedText(editing)
  {
    if !signedIn then SignInRequired
    else if reply.Ok? then
      (if editing then Saved("Trip updated!", "Your trip has been updated successfully.")
       else Saved("Trip created!", "Your trip has been created successfully."))
    else SaveFailed(SaveFailedText(editing))
  }

  /** What `onSubmit` evidently means to show: the server's `error` text when
      the reply has one, otherwise the generic text. */
  function SubmitOutcome(signedIn: bool, editing: bool, reply: Reply<Trip>): (o: Outcome)
    ensures o == SignInRequired <==> !signedIn
    ensures signedIn ==> (o.Saved? <==> reply.Ok?)
    ensures o.Saved? ==> o.title == if editing then "Trip updated!" else "Trip created!"
    ensures o.SaveFailed? ==> o.description == if reply.error != "" then reply.error else SaveFailedText(editing)
  {
    if !signedIn then SignInRequired
    else if reply.Ok? then
      (if editing then Saved("Trip updated!", "Your trip has been updated successfully.")
       else Saved("Trip created!", "Your trip has been created successfully."))
    else SaveFailed(if reply.error != "" then reply.error else SaveFailedText(editing))
  }

  /** The two differ only in the text of a failure whose reply carries its
      own error. */
  lemma SubmitCorrectionOnlyChangesFailureText(signedIn: bool, editing: bool, reply: Reply<Trip>)
    ensures SubmitOutcome(signedIn, editing, reply).Saved? == SubmitOutcomeAsWritten(signedIn, editing, reply).Saved?
    ensures !(signedIn && reply.Err? && reply.error != "")
            ==> SubmitOutcome(signedIn, editing, reply) == SubmitOutcomeAsWritten(signedIn, editing, reply)
  {
  }

  /** As written, the server's reason for refusing a save never reaches the
      page: refusing an edit with the end-date message shows only the
      generic text. */
  lemma ServerErrorHiddenAsWritten(editing: bool, reply: Reply<Trip>)
    requires reply.Err? && reply.error != "" && reply.error != SaveFailedText(editing)
    ensures SubmitOutcomeAsWritten(true, editing, reply) == SaveFailed(SaveFailedText(editing))
    ensures SubmitOutcomeAsWritten(true, editing, reply) != SubmitOutcome(true, editing, reply)
    ensures SubmitOutcomeAsWritten(true, true, Err(400, "End date must be after start date"))
            == SaveFailed("Failed to update trip")
  {
  }

  /** As written, saving an edit always ends in the generic failure: the
      update route refuses every update and the page hides its reason. */
  lemma EditAlwaysFailsAsWritten(trips: map<Id, Trip>, id: string, b: TripBody, file: Option<Upload>,
                                 parseDate: string -> Option<int>, now: int)
    ensures SubmitOutcomeAsWritten(true, true, UpdateTripReplyAsWritten(trips, id, b, file, parseDate, now))
            == SaveFailed("Failed to update trip")
  {
    UpdateAsWrittenNeverSucceeds(trips, id, b, file, parseDate, now);
  }

  /** An oversized cover only earns the picker's message: a form the schema
      accepts is still sent with that cover, and POST /api/trips, which has
      no upload limit, stores it with the new trip. */
  lemma OversizedCoverStillCreated(input: TripFormInput, parseDate: string -> Option<int>, userId: Id,
                                   cover: ClientFile, newId: Id, now: int)
    requires TripIssues(input, parseDate) == [] && IsValidId(userId)
    requires |cover.contents| > MaxImageBytes
    ensures SizeError(Some(cover), ImageChangeMessage) == Some(ImageChangeMessage)
    ensures var e := TripFormEntries(Submitted(input), false, userId, Some(cover));
            var r := CreateTripReply(BodyOf(e), UploadIn(e), parseDate, newId, now);
            && UploadIn(e) == Some(UploadOf(cover))
            && r.Ok? && r.data.coverImage == CoverOf(Some(UploadOf(cover)))
  {
    AcceptedFormIsCreated(input, parseDate, userId, Some(cover), newId, now);
  }

  /** The body the server reads from a create-mode submission. */
  lemma SubmittedBody(input: TripFormInput, userId: Id, cover: Option<ClientFile>)
    ensures BodyOf(TripFormEntries(Submitted(input), false, userId, cover))
         == TripBody(Some(Trim(input.tripName)), Some(input.startDate), Some(input.endDate),
                     Some(userId), Some(input.description))
  {
  }

  /** What the form accepts, with a valid user id, passes the route's checks. */
  lemma AcceptedBodyPasses(input: TripFormInput, parseDate: string -> Option<int>, b: TripBody)
    requires FormAcceptable(input, parseDate)
    requires b.userId.Some? && IsValidId(b.userId.value)
    requires b.tripName == Some(Trim(input.tripName)) && b.description == Some(input.description)
    requires b.startDate == Some(input.startDate) && b.endDate == Some(input.endDate)
    ensures HasCreateFields(b) && TripAcceptable(CreateFields(b, parseDate))
  {
    assert Truthy(b.tripName) by { assert |b.tripName.value| >= 3; }
    assert Truthy(b.userId) by { assert |b.userId.value| == 24; }
    var f := CreateFields(b, parseDate);
    assert 3 <= |Trim(f.tripName.value)| <= 100 by { TrimIdempotent(input.tripName); }
    assert f.startDate == At(parseDate(input.startDate).value);
    assert f.endDate == At(parseDate(input.endDate).value);
  }

  /** A form the page accepts, sent in create mode by a user with a valid
      id, is stored by POST /api/trips under the name as trimmed, whatever
      cover was picked. */
  lemma AcceptedFormIsCreated(input: TripFormInput, parseDate: string -> Option<int>, userId: Id,
                              cover: Option<ClientFile>, newId: Id, now: int)
    requires TripIssues(input, parseDate) == []
    requires IsValidId(userId)
    ensures var e := TripFormEntries(Submitted(input), false, userId, cover);
            var r := CreateTripReply(BodyOf(e), UploadIn(e), parseDate, newId, now);
            && r.Ok? && r.data.tripName == Trim(input.tripName) && r.data.description == input.description
            && SubmitOutcome(true, false, r).Saved?
  {
    var e := TripFormEntries(Submitted(input), false, userId, cover);
    var b := BodyOf(e);
    SubmittedBody(input, userId, cover);
    assert FormAcceptable(input, parseDate);
    AcceptedBodyPasses(input, parseDate, b);
    var r := CreateTripReply(b, UploadIn(e), parseDate, newId, now);
    assert r.Ok?;
    assert r.data.tripName == Trim(input.tripName) by {
      TrimIdempotent(input.tripName);
    }
  }
}
