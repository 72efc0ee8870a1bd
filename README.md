# Trip planner: a verified model

This project models the core of a trip-planning web application in Dafny and
proves properties of the model. The application has an Express/MongoDB
backend and two React front ends ("globetrotter" and "globetrotter your next
adventure"). A signed-in traveller builds trips. Each trip holds stops
(cities), and each stop holds activities that have costs. The dashboard
shows the trips' budgets, destination counts and total spend. Sign-up,
sign-in and Google sign-in run through the users' routes and the client's
authentication context.

The model follows the program's own structure, one module per source file
or concern:

- `TripSchema`, `UserSchema`: the Mongoose schemas for trips and users (`models/Trip.js`, `models/User.js`). Their validators are functions that return the messages Mongoose would report.
- `TripRoutes`, `StopRoutes`, `Budget`, `LogRoutes`, `UserRoutes`: the reply each route sends, as a total function of the stored collections and the request.
  - `Reply` is either `Ok(status, data)` or `Err(status, error)`.
  - Every error branch of the route is a case of the result.
- `Backend.Database` holds the trips, stops, activities and activity-log collections. `Accounts.UserDirectory` holds the users.
  - Both are classes whose fields are those collections, with one method per route.
  - Each method is proved to reply as the route's function says and to change exactly the collections that route writes. Where a route's function exists in a corrected form (see Findings), the method implements the corrected one.
  - Each method keeps the class invariant: every stored trip satisfies the schema, every document is filed under its id, and user emails are unique.
- `Sums`, `Sorting`, `Collections`, `Common`, `Records`: helper modules. They cover sums over sets and sequences, sorting by a key, the query helpers, JavaScript's `trim`, `toLowerCase` and `parseInt`, and the stored record types.
- `ClientLists`, `ClientBudget`, `Calendar`: client helpers.
  - the list filter used after a delete;
  - the client-side budget folds, proved equal to the server's budget whenever the fetches return what the server stores;
  - the day arithmetic of trip durations.
- `Itinerary.ItineraryBuilder`, `Dashboard.Dashboard`, `TripsPage.TripsPage`: the pages' React state. Each is a class whose fields are the state variables and whose methods are the handlers; the loops of the source are `while` loops with invariants.
- `ProfilePage`: the profile page's activity feed text, relative times and avatar display.
- `FormErrors`, `TripForm`, `LoginForm`: the zod form schemas, the error maps the pages build, the multipart body of the trip form and the sign-in/sign-up flows of both front ends.
- `AuthContext.AuthProvider`: the authentication context over local and session storage. It covers start-up, login, refresh, logout and error clearing.

Things the program gets from outside are parameters of the functions and methods that need them:

- the current time;
- fresh document ids;
- the server replies a page receives;
- date parsing;
- the email test;
- JWT signing and checking;
- base64 coding.

## Model

| member | source | states |
|---|---|---|
| TripSchema.UserIdErrors | OneDrive/Documents/Hackathon/Hackathon/backend/models/Trip.js:4-8 | no error exactly when the user id is present and casts to an ObjectId; "User ID is required" when it is missing |
| TripSchema.TripNameErrors | OneDrive/Documents/Hackathon/Hackathon/backend/models/Trip.js:9-15 | no error exactly when the trimmed name has 3 to 100 characters; a missing or blank name gets "Trip name is required" |
| TripSchema.StartDateErrors | OneDrive/Documents/Hackathon/Hackathon/backend/models/Trip.js:16-19 | no error exactly when the start date is a date; the required message when missing, the cast message when it does not parse |
| TripSchema.EndDateErrors | OneDrive/Documents/Hackathon/Hackathon/backend/models/Trip.js:20-29 | no error exactly when the end date is a date not before a start date that is one; otherwise exactly one of the required and "End date must be after start date" messages |
| TripSchema.DescriptionErrors | OneDrive/Documents/Hackathon/Hackathon/backend/models/Trip.js:30-33 | no error exactly when the description is absent or at most 500 characters |
| TripSchema.ValidateTrip | OneDrive/Documents/Hackathon/Hackathon/backend/models/Trip.js:4-33 | the document passes exactly when every field rule holds, and there are at most five messages |
| TripSchema.ValidateTripReportsEachRule | OneDrive/Documents/Hackathon/Hackathon/backend/models/Trip.js:4-29 | each failing rule contributes its own message: the required user id, name and dates, the date cast message and "End date must be after start date" |
| TripSchema.SameDayTripAccepted | OneDrive/Documents/Hackathon/Hackathon/backend/models/Trip.js:20-29 | a trip that ends on the day it starts is accepted (the comparison is `>=`) |
| TripSchema.PaddedShortNameRefused | OneDrive/Documents/Hackathon/Hackathon/backend/models/Trip.js:9-15 | whitespace padding does not make a short name long enough: the trim runs before the length check |
| TripSchema.UpdateCastErrors | OneDrive/Documents/Hackathon/Hackathon/backend/routes/tripRoutes.js:160-165 | an update casts exactly when both of its date strings parse |
| TripSchema.UpdateAsWrittenAlwaysRefused | OneDrive/Documents/Hackathon/Hackathon/backend/models/Trip.js:20-29 | as written, every update carrying an end date fails the end-date validator, because `this.startDate` is undefined in an update validator |
| TripSchema.ValidateUpdateAsWritten | OneDrive/Documents/Hackathon/Hackathon/backend/models/Trip.js:4-29 | the update validators as Mongoose runs them: at most three messages, and an empty name or an over-long description is reported |
| TripSchema.ValidateUpdate | OneDrive/Documents/Hackathon/Hackathon/backend/models/Trip.js:20-29 | with the date rule compared against the update's own start date, an update passes exactly when its name, dates and description are acceptable |
| TripSchema.UpdateAgreesWithCreate | OneDrive/Documents/Hackathon/Hackathon/backend/models/Trip.js:9-33 | the corrected update check accepts exactly the field values that trip creation accepts |
| UserSchema.NormalEmail | OneDrive/Documents/Hackathon/Hackathon/backend/models/User.js:11-17 | the stored email is never longer than the input and is already lower-case and trimmed |
| UserSchema.NormalEmailIdempotent | OneDrive/Documents/Hackathon/Hackathon/backend/models/User.js:11-17 | normalising an email twice changes nothing more than normalising it once |
| UserSchema.NormalEmailIgnoresCaseAndPadding | OneDrive/Documents/Hackathon/Hackathon/backend/models/User.js:11-17 | surrounding whitespace and ASCII case do not change the stored email, so differently typed spellings find the same account |
| UserSchema.NameErrors | OneDrive/Documents/Hackathon/Hackathon/backend/models/User.js:4-10 | no error exactly when the trimmed name has 2 to 50 characters |
| UserSchema.EmailErrors | OneDrive/Documents/Hackathon/Hackathon/backend/models/User.js:11-17 | no error exactly when an email is given and is not blank after normalising |
| UserSchema.PasswordErrors | OneDrive/Documents/Hackathon/Hackathon/backend/models/User.js:18-22 | no error exactly when a password hash is present |
| UserSchema.ValidateUser | OneDrive/Documents/Hackathon/Hackathon/backend/models/User.js:4-22 | a new user passes exactly when name, email and password are acceptable; a missing password gets the required message |
| UserSchema.NewUser | OneDrive/Documents/Hackathon/Hackathon/backend/models/User.js:4-65 | a created user has the trimmed name, the normalised email, the given hash and avatar, empty location and bio, zero counters, public visibility, hidden email and shown location |
| UserSchema.NewUserValid | OneDrive/Documents/Hackathon/Hackathon/backend/models/User.js:4-65 | every user created from accepted fields satisfies the schema |
| UserSchema.ValidateProfileUpdate | OneDrive/Documents/Hackathon/Hackathon/backend/models/User.js:4-57 | a profile update passes exactly when each field it sets satisfies that field's rule |
| UserSchema.ApplyProfileUpdate | OneDrive/Documents/Hackathon/Hackathon/backend/routes/userRoutes.js:171-175 | an update changes only the fields it sets (the name trimmed) and never the id, email, password, avatar or counters |
| UserSchema.ProfileUpdatePreservesValid | OneDrive/Documents/Hackathon/Hackathon/backend/routes/userRoutes.js:171-175 | an accepted profile update keeps a valid user valid |
| TripRoutes.DateOf | OneDrive/Documents/Hackathon/Hackathon/backend/routes/tripRoutes.js:31-32 | `new Date(text)` is a date exactly when the text parses, and never a missing value |
| TripRoutes.CoverOf | OneDrive/Documents/Hackathon/Hackathon/backend/routes/tripRoutes.js:38-45 | a cover image is stored exactly when a file was uploaded, with its bytes and type |
| TripRoutes.CreateFields | OneDrive/Documents/Hackathon/Hackathon/backend/routes/tripRoutes.js:29-35 | the document handed to the schema carries the body's user id and name, and an empty description when none was sent |
| TripRoutes.CreateTripReply | OneDrive/Documents/Hackathon/Hackathon/backend/routes/tripRoutes.js:21-78 | 400 with the missing-fields message when a required field is absent; 400 with the joined schema messages when validation fails; otherwise 201 with a schema-valid trip holding the trimmed name, parsed dates and the given id |
| TripRoutes.CreatedTripLog | OneDrive/Documents/Hackathon/Hackathon/backend/routes/tripRoutes.js:51-60 | the log entry written after a creation records "created_trip", the owner, the time and the trip's id and name |
| TripRoutes.UpdateOf | OneDrive/Documents/Hackathon/Hackathon/backend/routes/tripRoutes.js:160-165 | the update carries the body's name and parsed dates, and an empty description when none was sent |
| TripRoutes.ApplyUpdate | OneDrive/Documents/Hackathon/Hackathon/backend/routes/tripRoutes.js:160-182 | an update replaces name, dates and description, replaces the cover only when a file came with it, stamps `updatedAt` and keeps id, owner and creation time |
| TripRoutes.UpdateTripReply | OneDrive/Documents/Hackathon/Hackathon/backend/routes/tripRoutes.js:145-215 | the corrected route (Findings, Trip.js:20-29): 400 without the required fields, 500 on an id that does not cast or a date that does not parse (the update's CastError is not a ValidationError), 404 only for an unknown trip; success exactly when the update casts, validates and finds the trip, with the updated trip as data |
| TripRoutes.UpdateTripReplyAsWritten | OneDrive/Documents/Hackathon/Hackathon/backend/routes/tripRoutes.js:145-215 | the route as written: 400 without the required fields, 500 on an id that does not cast, and 500 when a date does not parse, since the update's CastError is not a ValidationError |
| TripRoutes.UpdateAsWrittenNeverSucceeds | OneDrive/Documents/Hackathon/Hackathon/backend/routes/tripRoutes.js:178-207 | as written, every update is refused; once the fields are present and the id and dates cast, the reply is a 400 carrying the end-date message, whether or not the trip exists |
| TripRoutes.UpdateCorrectionOnlyChangesValidation | OneDrive/Documents/Hackathon/Hackathon/backend/routes/tripRoutes.js:153-207 | the corrected route answers as the route as written whenever a field is missing, the id does not cast or a date does not parse |
| TripRoutes.UpdateKeepsTripValid | OneDrive/Documents/Hackathon/Hackathon/backend/routes/tripRoutes.js:178-182 | a successful update of a valid store returns a trip that satisfies the schema |
| TripRoutes.DeleteTripReply | OneDrive/Documents/Hackathon/Hackathon/backend/routes/tripRoutes.js:223-245 | success exactly when the id casts and names a stored trip; 500 on a bad id, 404 on an unknown one |
| StopRoutes.DateOrNow | OneDrive/Documents/Hackathon/Hackathon/backend/routes/stopRoutes.js:23-24 | a missing or empty date defaults to the current time; otherwise it is the parsed date |
| StopRoutes.CreateStopReply | OneDrive/Documents/Hackathon/Hackathon/backend/routes/stopRoutes.js:13-53 | 400 when trip id or city is missing or a cast fails; otherwise 201 with the stop for that trip and city and its defaulted dates |
| StopRoutes.DeleteStopReply | OneDrive/Documents/Hackathon/Hackathon/backend/routes/stopRoutes.js:85-99 | success with the deleted stop exactly when the id casts and is stored; 400 on a bad id, 404 on an unknown one |
| StopRoutes.WithoutStop | OneDrive/Documents/Hackathon/Hackathon/backend/routes/stopRoutes.js:101-103 | deleting a stop removes exactly the activities of that stop and leaves the others unchanged |
| StopRoutes.CostOrZero | OneDrive/Documents/Hackathon/Hackathon/backend/routes/activityRoutes.js:23 | an activity without a cost costs 0 |
| StopRoutes.CreateActivityReply | OneDrive/Documents/Hackathon/Hackathon/backend/routes/activityRoutes.js:13-53 | 400 when stop id or name is missing or a cast fails; otherwise 201 with the activity, its cost defaulted to 0 and its day to now |
| StopRoutes.DeleteActivityReply | OneDrive/Documents/Hackathon/Hackathon/backend/routes/activityRoutes.js:85-99 | success with the deleted activity exactly when the id casts and is stored; 400 on a bad id, 404 on an unknown one |
| Budget.NoStopsNoBudget | OneDrive/Documents/Hackathon/Hackathon/backend/routes/budgetRoutes.js:17 | a trip without stops has budget 0 |
| Budget.AddActivityBudget | OneDrive/Documents/Hackathon/Hackathon/backend/routes/budgetRoutes.js:9-15 | adding an activity raises the budget of its stop's trip by its cost and leaves other trips' budgets alone |
| Budget.RemoveActivityBudget | OneDrive/Documents/Hackathon/Hackathon/backend/routes/budgetRoutes.js:9-15 | deleting an activity lowers its trip's budget by exactly its cost |
| Budget.DeleteStopBudget | OneDrive/Documents/Hackathon/Hackathon/backend/routes/budgetRoutes.js:9-15 | deleting a stop with its activities lowers its trip's budget by exactly that stop's cost |
| LogRoutes.ParseLimit | OneDrive/Documents/Hackathon/Hackathon/backend/routes/activityLogRoutes.js:9 | `parseInt(limit) \|\| 10`: 10 when the limit is absent or unparseable, the parsed number when it is not 0, and never 0 |
| LogRoutes.ParseLimitOfCount | OneDrive/Documents/Hackathon/Hackathon/backend/routes/activityLogRoutes.js:9 | a positive count written in decimal is read back as itself |
| LogRoutes.FallbackLimit | OneDrive/Documents/Hackathon/Hackathon/backend/routes/activityLogRoutes.js:9 | without a usable limit the query returns at most 10 entries |
| LogRoutes.EffectiveLimit | OneDrive/Documents/Hackathon/Hackathon/backend/routes/activityLogRoutes.js:13 | the number of entries MongoDB returns is the magnitude of the limit, never 0 |
| LogRoutes.LogErrors | OneDrive/Documents/Hackathon/Hackathon/backend/models/ActivityLog.js:4-9 | a log entry passes exactly when it has a castable user id, a non-empty action and details |
| LogRoutes.PostLogReply | OneDrive/Documents/Hackathon/Hackathon/backend/routes/activityLogRoutes.js:30-52 | 500 exactly when the entry fails validation; otherwise 200 with the entry stamped with the given id and time |
| Backend.Database.CreateTrip | OneDrive/Documents/Hackathon/Hackathon/backend/routes/tripRoutes.js:13-95 | replies as CreateTripReply; on success stores the trip and its "created_trip" log entry and nothing else; keeps every stored trip schema-valid |
| Backend.Database.TripsOfUser | OneDrive/Documents/Hackathon/Hackathon/backend/routes/tripRoutes.js:103-114 | 400 on a bad user id; otherwise every trip of that user exactly once, sorted by start date |
| Backend.Database.UpdateTrip | OneDrive/Documents/Hackathon/Hackathon/backend/routes/tripRoutes.js:145-215 | replies as the corrected UpdateTripReply (Findings, Trip.js:20-29), so 500 for an id or a date that does not cast; on success replaces exactly that trip, otherwise changes nothing |
| Backend.Database.DeleteTrip | OneDrive/Documents/Hackathon/Hackathon/backend/routes/tripRoutes.js:219-236 | replies as DeleteTripReply; on success removes exactly that trip; stops and activities stay |
| Backend.Database.CreateStop | OneDrive/Documents/Hackathon/Hackathon/backend/routes/stopRoutes.js:7-34 | replies as CreateStopReply; on success adds exactly that stop |
| Backend.Database.StopsOfTripQuery | OneDrive/Documents/Hackathon/Hackathon/backend/routes/stopRoutes.js:58-68 | 500 on a bad trip id; otherwise every stop of the trip exactly once, sorted by start date |
| Backend.Database.DeleteStop | OneDrive/Documents/Hackathon/Hackathon/backend/routes/stopRoutes.js:81-110 | replies as DeleteStopReply; on success removes the stop and exactly its activities |
| Backend.Database.CreateActivity | OneDrive/Documents/Hackathon/Hackathon/backend/routes/activityRoutes.js:7-34 | replies as CreateActivityReply; on success adds exactly that activity |
| Backend.Database.ActivitiesOfStopQuery | OneDrive/Documents/Hackathon/Hackathon/backend/routes/activityRoutes.js:58-68 | 500 on a bad stop id; otherwise every activity of the stop exactly once, sorted by day |
| Backend.Database.DeleteActivity | OneDrive/Documents/Hackathon/Hackathon/backend/routes/activityRoutes.js:81-106 | replies as DeleteActivityReply; on success removes exactly that activity |
| Backend.Database.GetBudget | OneDrive/Documents/Hackathon/Hackathon/backend/routes/budgetRoutes.js:7-17 | 400 with the cast message on a bad trip id; otherwise 200 with the sum of the costs of all activities of the trip's stops |
| Backend.Database.RecentLogs | OneDrive/Documents/Hackathon/Hackathon/backend/routes/activityLogRoutes.js:6-19 | 500 on a bad user id; otherwise the user's newest entries, as many as the limit allows, newest first, none left out that is newer than one returned |
| Backend.Database.PostLog | OneDrive/Documents/Hackathon/Hackathon/backend/routes/activityLogRoutes.js:30-46 | replies as PostLogReply; on success stores exactly that entry |
| Backend.UpdatedTripsValid | OneDrive/Documents/Hackathon/Hackathon/backend/routes/tripRoutes.js:178-182 | storing the result of a successful update keeps every stored trip schema-valid |
| UserRoutes.ViewOf | OneDrive/Documents/Hackathon/Hackathon/backend/routes/userRoutes.js:53-56 | the user object sent to clients copies every profile field |
| UserRoutes.ViewHidesOnlyPassword | OneDrive/Documents/Hackathon/Hackathon/backend/routes/userRoutes.js:53-56 | two users have the same view exactly when they differ at most in their password |
| UserRoutes.ByEmail | OneDrive/Documents/Hackathon/Hackathon/backend/routes/userRoutes.js:36 | the lookup finds an account exactly when one has that email, and the one it finds has it |
| UserRoutes.SignupFields | OneDrive/Documents/Hackathon/Hackathon/backend/routes/userRoutes.js:46-50 | the stored password is the bcrypt hash of the one sent, and no avatar is set |
| UserRoutes.SignupReplyAsWritten | OneDrive/Documents/Hackathon/Hackathon/backend/routes/userRoutes.js:26-63 | as written, signup succeeds exactly when the fields are present, the email is unused and the schema accepts the hashed fields |
| UserRoutes.SignupAsWrittenIgnoresPasswordLength | OneDrive/Documents/Hackathon/Hackathon/backend/routes/userRoutes.js:41-50 | as written, any non-empty password, however short, is accepted wherever a longer one is |
| UserRoutes.SignupReply | OneDrive/Documents/Hackathon/Hackathon/backend/routes/userRoutes.js:26-63 | 400 for missing fields, a password under 6 characters or a used email; 500 when the schema refuses the fields (e.g. a trimmed name outside 2–50); otherwise 201 with the view of the new user; the corrected route (Findings, userRoutes.js:41-50) |
| UserRoutes.SignupCorrectionOnlyAddsLengthRule | OneDrive/Documents/Hackathon/Hackathon/backend/routes/userRoutes.js:26-63 | the corrected signup differs from the one as written only by refusing passwords under 6 characters |
| UserRoutes.SignedUp | OneDrive/Documents/Hackathon/Hackathon/backend/routes/userRoutes.js:46-50 | the stored account has the new id, the normalised email and the hash of the password |
| UserRoutes.SignupKeepsDirectoryValid | OneDrive/Documents/Hackathon/Hackathon/backend/routes/userRoutes.js:36-50 | a successful signup keeps every user valid, filed under their id, with unique emails |
| UserRoutes.InsertKeepsDirectoryValid | OneDrive/Documents/Hackathon/Hackathon/backend/models/User.js:11-17 | adding a valid user whose email is unused keeps emails unique |
| UserRoutes.LoginReply | OneDrive/Documents/Hackathon/Hackathon/backend/routes/userRoutes.js:67-102 | 400 for missing fields; 400 "Invalid credentials" unless some account has the normalised email and the password matches its hash; otherwise a session with that user's view and a token signed for them |
| UserRoutes.SignupThenLogin | OneDrive/Documents/Hackathon/Hackathon/backend/routes/userRoutes.js:77-86 | after a signup, logging in with the same password and the email in any case and padding returns that user's session |
| UserRoutes.LoginAs | OneDrive/Documents/Hackathon/Hackathon/backend/routes/userRoutes.js:77-102 | the right email and password for a stored account always log in as that account |
| UserRoutes.TokenOf | OneDrive/Documents/Hackathon/Hackathon/backend/routes/userRoutes.js:115 | the token is the second space-separated word of the header; it is never empty and has no space |
| UserRoutes.BearerToken | OneDrive/Documents/Hackathon/Hackathon/backend/routes/userRoutes.js:115 | "Bearer <token>" yields the token |
| UserRoutes.NoSpaceNoToken | OneDrive/Documents/Hackathon/Hackathon/backend/routes/userRoutes.js:115 | a header without a space yields no token |
| UserRoutes.Authenticate | OneDrive/Documents/Hackathon/Hackathon/backend/routes/userRoutes.js:115-120 | no token means anonymous; a token is accepted exactly when it verifies, and yields the user id it carries |
| UserRoutes.AuthFailure | OneDrive/Documents/Hackathon/Hackathon/backend/routes/userRoutes.js:115-145 | 401 without a token; the route's 500 for a token that does not verify or carries an id that does not cast; no failure otherwise |
| UserRoutes.GetProfileReply | OneDrive/Documents/Hackathon/Hackathon/backend/routes/userRoutes.js:113-145 | 401 without a token; success exactly when the token names a stored user, with that user's view; 404 only for a verified id that is not stored |
| UserRoutes.UpdateDataOf | OneDrive/Documents/Hackathon/Hackathon/backend/routes/userRoutes.js:161-167 | name and visibility are set only when non-empty; location, bio and the two flags whenever sent |
| UserRoutes.UpdateProfileReply | OneDrive/Documents/Hackathon/Hackathon/backend/routes/userRoutes.js:149-193 | 401 without a token; success exactly when the token names a stored user and the update is acceptable, with the view of the updated user; 500 for an unacceptable update |
| UserRoutes.ProfileUpdateKeepsDirectoryValid | OneDrive/Documents/Hackathon/Hackathon/backend/routes/userRoutes.js:171-175 | an accepted profile update keeps the directory valid |
| UserRoutes.UploadFailure | OneDrive/Documents/Hackathon/Hackathon/backend/routes/userRoutes.js:11-23 | a file is refused, with a 500, exactly when it is not an image or is larger than 5MB |
| UserRoutes.AvatarReply | OneDrive/Documents/Hackathon/Hackathon/backend/routes/userRoutes.js:197-247 | a refused upload is answered first; success exactly when a file came and the token names a stored user, whose view then shows the new avatar; otherwise 401 without a token, 400 when no file came with any verified token, and only then 500 for a claim that is not an id |
| UserRoutes.ChangePasswordReply | OneDrive/Documents/Hackathon/Hackathon/backend/routes/userRoutes.js:250-296 | 401 without a token; 400 for a new password under 6 characters; success exactly when the user is found, both passwords are given, the new one is long enough and the current one matches |
| UserRoutes.ChangedPasswordLogsIn | OneDrive/Documents/Hackathon/Hackathon/backend/routes/userRoutes.js:280-285 | after a change the new password logs in and the old one no longer does |
| UserRoutes.StripDataUrl | OneDrive/Documents/Hackathon/Hackathon/backend/routes/userRoutes.js:336 | stripping the data-URL prefix leaves a suffix of the picture |
| UserRoutes.StripDataUrlOfPayload | OneDrive/Documents/Hackathon/Hackathon/backend/routes/userRoutes.js:336 | stripping "data:image/<kind>;base64," returns exactly the payload |
| UserRoutes.GoogleAvatar | OneDrive/Documents/Hackathon/Hackathon/backend/routes/userRoutes.js:335-339 | the Google picture becomes a JPEG avatar named google-avatar.jpg holding the decoded payload |
| UserRoutes.ExistingSignIn | OneDrive/Documents/Hackathon/Hackathon/backend/routes/userRoutes.js:341-351 | an existing account fails with auth_failed exactly when it has no avatar and Google sent no picture; otherwise it signs in with its own token and view, gaining the Google picture only when it had no avatar, and no other account changes |
| UserRoutes.ExistingSignInKeepsDirectoryValid | OneDrive/Documents/Hackathon/Hackathon/backend/routes/userRoutes.js:341-351 | signing in an existing account keeps the directory valid |
| UserRoutes.CreateGoogleAccount | OneDrive/Documents/Hackathon/Hackathon/backend/routes/userRoutes.js:330-340 | a new account is created and signed in exactly when picture, name, password and email pass the schema; otherwise nothing changes |
| UserRoutes.GoogleAsWrittenNeverCreates | OneDrive/Documents/Hackathon/Hackathon/backend/routes/userRoutes.js:330-340 | as written, a Google user without an account always ends at auth_failed and no account is created |
| UserRoutes.GoogleCallbackCreates | OneDrive/Documents/Hackathon/Hackathon/backend/routes/userRoutes.js:330-340 | with a hashed random password, a new Google user with a valid name and an email is created and signed in |
| UserRoutes.GoogleCallbackWith | OneDrive/Documents/Hackathon/Hackathon/backend/routes/userRoutes.js:317-380 | no profile means auth_failed; an email with an account signs that account in; any other email goes to account creation |
| UserRoutes.GoogleCallbackAsWritten | OneDrive/Documents/Hackathon/Hackathon/backend/routes/userRoutes.js:317-380 | the callback as written, giving a new account no password: no profile, or an email without an account, ends at auth_failed with the directory unchanged |
| UserRoutes.GoogleCallback | OneDrive/Documents/Hackathon/Hackathon/backend/routes/userRoutes.js:317-380 | the corrected callback: no profile ends at auth_failed; a new account it signs in is stored under the fresh id with the Google email and the hash of the random secret |
| UserRoutes.GoogleCallbackKeepsDirectoryValid | OneDrive/Documents/Hackathon/Hackathon/backend/routes/userRoutes.js:327-351 | the corrected callback keeps the directory valid |
| Accounts.UserDirectory.FindByEmail | OneDrive/Documents/Hackathon/Hackathon/backend/routes/userRoutes.js:36 | the loop finds the account with that email exactly when there is one |
| Accounts.UserDirectory.Signup | OneDrive/Documents/Hackathon/Hackathon/backend/routes/userRoutes.js:26-63 | replies as the corrected SignupReply (Findings, userRoutes.js:41-50) and on success adds exactly the new account; the directory stays valid |
| Accounts.UserDirectory.Login | OneDrive/Documents/Hackathon/Hackathon/backend/routes/userRoutes.js:67-110 | replies as LoginReply |
| Accounts.UserDirectory.Profile | OneDrive/Documents/Hackathon/Hackathon/backend/routes/userRoutes.js:113-146 | replies as GetProfileReply |
| Accounts.UserDirectory.UpdateProfile | OneDrive/Documents/Hackathon/Hackathon/backend/routes/userRoutes.js:149-194 | replies as UpdateProfileReply and on success changes exactly that user |
| Accounts.UserDirectory.UpdateAvatar | OneDrive/Documents/Hackathon/Hackathon/backend/routes/userRoutes.js:197-247 | replies as AvatarReply and on success changes exactly that user's avatar |
| Accounts.UserDirectory.ChangePassword | OneDrive/Documents/Hackathon/Hackathon/backend/routes/userRoutes.js:250-297 | replies as ChangePasswordReply and on success stores exactly the hash of the new password |
| Accounts.UserDirectory.GoogleSignIn | OneDrive/Documents/Hackathon/Hackathon/backend/routes/userRoutes.js:317-381 | redirects and changes the directory as the corrected GoogleCallback (Findings, userRoutes.js:330-340) says |
| UserRoutes.AvatarKeepsDirectoryValid | OneDrive/Documents/Hackathon/Hackathon/backend/routes/userRoutes.js:210-220 | changing an avatar keeps the directory valid |
| UserRoutes.PasswordKeepsDirectoryValid | OneDrive/Documents/Hackathon/Hackathon/backend/routes/userRoutes.js:285 | changing a password hash keeps the directory valid |
| ClientLists.WithoutId | OneDrive/Documents/Hackathon/Hackathon/globetrotter/src/pages/Dashboard.jsx:182 | the filtered list keeps exactly the items with another id |
| ClientLists.WithoutIdIdempotent | OneDrive/Documents/Hackathon/Hackathon/globetrotter/src/pages/Trips.jsx:47 | filtering the same id twice is filtering it once |
| ClientLists.WithoutIdCount | OneDrive/Documents/Hackathon/Hackathon/globetrotter/src/pages/Trips.jsx:47 | every item with another id keeps its multiplicity |
| ClientLists.WithoutAbsentId | OneDrive/Documents/Hackathon/Hackathon/globetrotter/src/pages/Trips.jsx:47 | filtering an id no item has changes nothing |
| ClientBudget.ListTotal | OneDrive/Documents/Hackathon/Hackathon/globetrotter/src/pages/Dashboard.jsx:39-43 | the loop adds up the costs of an activity list |
| ClientBudget.StopsCost | OneDrive/Documents/Hackathon/Hackathon/globetrotter/src/pages/Dashboard.jsx:37-44 | the stops' cost is known exactly when every stop's activities were fetched, and is the sum of their lists |
| ClientBudget.TripCost | OneDrive/Documents/Hackathon/Hackathon/globetrotter/src/pages/Dashboard.jsx:29-50 | no cost when the stops fetch fails; otherwise the cost of the trip's stops |
| ClientBudget.ListCostIsStopCost | OneDrive/Documents/Hackathon/Hackathon/globetrotter/src/pages/Dashboard.jsx:38-43 | summing the list the server returns for a stop gives that stop's cost |
| ClientBudget.SumOfStopCosts | OneDrive/Documents/Hackathon/Hackathon/backend/routes/budgetRoutes.js:12-15 | adding up per stop gives the same total as adding up per activity |
| ClientBudget.TripCostIsServerBudget | OneDrive/Documents/Hackathon/Hackathon/globetrotter/src/pages/Dashboard.jsx:29-46 | when the fetches return what the server stores, the dashboard cost of a trip is the server's budget for it |
| Calendar.CeilDiv | OneDrive/Documents/Hackathon/Hackathon/globetrotter/src/pages/Trips.jsx:90 | `Math.ceil` of a quotient: the least whole number at or above it |
| Calendar.DaysSpanned | OneDrive/Documents/Hackathon/Hackathon/globetrotter/src/pages/Trips.jsx:90 | the day count covers the span, both ends counted, and is at least 1 for dates in order |
| Calendar.SameDayLastsOneDay | OneDrive/Documents/Hackathon/Hackathon/globetrotter/src/pages/Trips.jsx:90 | a one-day trip lasts 1 day; a span up to 24 hours lasts 2 |
| Itinerary.ItineraryBuilder.constructor | OneDrive/Documents/Hackathon/Hackathon/globetrotter/src/components/ItineraryBuilder.jsx:12-18 | the builder starts with no stops, no activities and no selected stop |
| Itinerary.ItineraryBuilder.LoadItinerary | OneDrive/Documents/Hackathon/Hackathon/globetrotter/src/components/ItineraryBuilder.jsx:87-110 | a failed stops fetch keeps the state; otherwise the stops are replaced, and when every activity fetch succeeded the activity map holds exactly each stop's fetched list |
| Itinerary.ItineraryBuilder.AddStop | OneDrive/Documents/Hackathon/Hackathon/globetrotter/src/components/ItineraryBuilder.jsx:121-122 | a created stop is appended and nothing else changes |
| Itinerary.ItineraryBuilder.DeleteStop | OneDrive/Documents/Hackathon/Hackathon/globetrotter/src/components/ItineraryBuilder.jsx:142-153 | once the server reports the deletion, the stop is dropped from the list and its activity entry |
| Itinerary.ItineraryBuilder.SelectStop | OneDrive/Documents/Hackathon/Hackathon/globetrotter/src/components/ItineraryBuilder.jsx:169-173 | selects the stop and changes nothing else |
| Itinerary.ItineraryBuilder.CreateActivity | OneDrive/Documents/Hackathon/Hackathon/globetrotter/src/components/ItineraryBuilder.jsx:177-201 | with a selected stop, a created activity is appended to that stop's list and the selection is cleared; otherwise nothing changes |
| Itinerary.ItineraryBuilder.DeleteActivity | OneDrive/Documents/Hackathon/Hackathon/globetrotter/src/components/ItineraryBuilder.jsx:217-228 | once the server reports the deletion, the activity is dropped from every stop's list |
| Itinerary.ItineraryBuilder.TotalCost | OneDrive/Documents/Hackathon/Hackathon/globetrotter/src/components/ItineraryBuilder.jsx:41-59 | the loop adds up the costs of all loaded activities |
| Itinerary.LoadedCostIsServerBudget | OneDrive/Documents/Hackathon/Hackathon/globetrotter/src/components/ItineraryBuilder.jsx:41-59 | after a complete load, the builder's total is the server's budget for the trip |
| Itinerary.ActivityRequestOf | OneDrive/Documents/Hackathon/Hackathon/globetrotter/src/components/ItineraryBuilder.jsx:181-186 | the request names the selected stop and the activity, dates it now, and sends cost 0 when the cost field is empty |
| Itinerary.UnpricedActivityCostsNothing | OneDrive/Documents/Hackathon/Hackathon/globetrotter/src/components/ItineraryBuilder.jsx:184 | an activity sent without a usable cost is stored with cost 0 |
| Itinerary.ValidSpans | OneDrive/Documents/Hackathon/Hackathon/globetrotter/src/components/ItineraryBuilder.jsx:72-77 | keeps exactly the stops whose two dates are valid |
| Itinerary.MinStart | OneDrive/Documents/Hackathon/Hackathon/globetrotter/src/components/ItineraryBuilder.jsx:81 | the earliest start among the stops |
| Itinerary.MaxEnd | OneDrive/Documents/Hackathon/Hackathon/globetrotter/src/components/ItineraryBuilder.jsx:82 | the latest end among the stops |
| Itinerary.TotalDays | OneDrive/Documents/Hackathon/Hackathon/globetrotter/src/components/ItineraryBuilder.jsx:69-85 | 0 without a valid stop; otherwise the day count from the earliest start to the latest end |
| Itinerary.OneStopTotalDays | OneDrive/Documents/Hackathon/Hackathon/globetrotter/src/components/ItineraryBuilder.jsx:69-85 | a single stop lasts as many days as its own dates span |
| Dashboard.TripsCost | OneDrive/Documents/Hackathon/Hackathon/globetrotter/src/pages/Dashboard.jsx:95-122 | the total is known exactly when every trip's cost is, and is their sum |
| Dashboard.PerTripEntries | OneDrive/Documents/Hackathon/Hackathon/globetrotter/src/pages/Dashboard.jsx:65-74 | the map has one entry per trip id, holding the last value computed for that id |
| Dashboard.StopsTotal | OneDrive/Documents/Hackathon/Hackathon/globetrotter/src/pages/Dashboard.jsx:37-44 | the loop computes the stops' cost, failing when any activities fetch fails |
| Dashboard.CalculateTripBudget | OneDrive/Documents/Hackathon/Hackathon/globetrotter/src/pages/Dashboard.jsx:29-51 | the trip's cost, or 0 when any fetch fails |
| Dashboard.CalculateTripDestinations | OneDrive/Documents/Hackathon/Hackathon/globetrotter/src/pages/Dashboard.jsx:54-62 | the number of stops fetched, or 0 when the fetch fails |
| Dashboard.AllTripBudgets | OneDrive/Documents/Hackathon/Hackathon/globetrotter/src/pages/Dashboard.jsx:65-78 | the loop builds the map from each trip id to that trip's budget |
| Dashboard.AllTripDestinations | OneDrive/Documents/Hackathon/Hackathon/globetrotter/src/pages/Dashboard.jsx:81-94 | the loop builds the map from each trip id to its stop count |
| Dashboard.TotalBudget | OneDrive/Documents/Hackathon/Hackathon/globetrotter/src/pages/Dashboard.jsx:95-122 | the loop adds up all trip costs, or gives 0 when any fetch fails |
| Dashboard.Dashboard.constructor | OneDrive/Documents/Hackathon/Hackathon/globetrotter/src/pages/Dashboard.jsx:16-21 | the dashboard starts with no trips, total 0 and empty maps |
| Dashboard.Dashboard.FetchTrips | OneDrive/Documents/Hackathon/Hackathon/globetrotter/src/pages/Dashboard.jsx:125-177 | without a user or on a failed fetch nothing changes; otherwise the trips are stored, with total, budgets and destinations computed from them (all zero and empty for no trips) |
| Dashboard.Dashboard.HandleDeleteTrip | OneDrive/Documents/Hackathon/Hackathon/globetrotter/src/pages/Dashboard.jsx:179-195 | removes the trip from the list and leaves total and maps as they were |
| Dashboard.DashboardTotalIsServerTotal | OneDrive/Documents/Hackathon/Hackathon/globetrotter/src/pages/Dashboard.jsx:95-115 | when the fetches return what the server stores, each trip's dashboard budget is its server budget and the total is their sum |
| Dashboard.DestinationsAreStopCount | OneDrive/Documents/Hackathon/Hackathon/globetrotter/src/pages/Dashboard.jsx:54-62 | the destination count is the number of stops the server stores for the trip |
| TripsPage.TripsPage.constructor | OneDrive/Documents/Hackathon/Hackathon/globetrotter/src/pages/Trips.jsx:14 | the page starts with no trips |
| TripsPage.TripsPage.FetchTrips | OneDrive/Documents/Hackathon/Hackathon/globetrotter/src/pages/Trips.jsx:19-40 | with a user and a successful fetch the trips are replaced; otherwise they stay |
| TripsPage.TripsPage.HasTrips | OneDrive/Documents/Hackathon/Hackathon/globetrotter/src/pages/Trips.jsx:42 | true exactly when some trip is listed |
| TripsPage.TripsPage.HandleDeleteTrip | OneDrive/Documents/Hackathon/Hackathon/globetrotter/src/pages/Trips.jsx:44-60 | once the server reports the deletion, that trip is removed from the list |
| TripsPage.Duration | OneDrive/Documents/Hackathon/Hackathon/globetrotter/src/pages/Trips.jsx:88-90 | a trip with dates in order lasts at least one day |
| TripsPage.DurationCountsBothEnds | OneDrive/Documents/Hackathon/Hackathon/globetrotter/src/pages/Trips.jsx:90 | a trip spanning k whole days lasts k + 1 days |
| TripsPage.TimelineOrder | OneDrive/Documents/Hackathon/Hackathon/globetrotter/src/pages/Trips.jsx:140 | the timeline holds the same trips, ordered by start date |
| TripsPage.ExactlyOnePhase | OneDrive/Documents/Hackathon/Hackathon/globetrotter/src/pages/Trips.jsx:151-153 | a trip with dates in order is exactly one of past, current and upcoming |
| TripsPage.PhaseOf | OneDrive/Documents/Hackathon/Hackathon/globetrotter/src/pages/Trips.jsx:159-163 | the badge says past exactly for past trips, current for current ones, upcoming for future ones |
| ProfilePage.ActivityText | OneDrive/Documents/Hackathon/Hackathon/globetrotter/src/pages/Profile.jsx:17-44 | an unknown action reads "Activity recorded"; a trip action ends with the trip name |
| ProfilePage.ActivityTextNamesAction | OneDrive/Documents/Hackathon/Hackathon/globetrotter/src/pages/Profile.jsx:17-44 | two trip actions with the same text are the same action |
| ProfilePage.CreatedTripFeedLine | OneDrive/Documents/Hackathon/Hackathon/globetrotter/src/pages/Profile.jsx:19-24 | the entry the server logs for a new trip reads "Created new trip: <name>" |
| ProfilePage.FormatTimeAgo | OneDrive/Documents/Hackathon/Hackathon/globetrotter/src/pages/Profile.jsx:46-62 | under an hour (or in the future) reads "Just now"; a week or more reads the date text |
| ProfilePage.HoursAgo | OneDrive/Documents/Hackathon/Hackathon/globetrotter/src/pages/Profile.jsx:55-56 | an event n hours ago (n under 24) reads "n hour(s) ago" |
| ProfilePage.DaysAgo | OneDrive/Documents/Hackathon/Hackathon/globetrotter/src/pages/Profile.jsx:57-58 | an event n days ago (n under 7) reads "n day(s) ago" |
| ProfilePage.TimeAgoBuckets | OneDrive/Documents/Hackathon/Hackathon/globetrotter/src/pages/Profile.jsx:46-62 | under an hour reads "Just now", then hours, then days, and from a week on the date itself |
| ProfilePage.AvatarSource | OneDrive/Documents/Hackathon/Hackathon/globetrotter/src/pages/Profile.jsx:97-110 | a URL avatar is shown as is, a stored image as a data URL (JPEG by default); the current picture changes only for one of these |
| ProfilePage.SplitDataUrl | OneDrive/Documents/Hackathon/Hackathon/globetrotter/src/pages/Profile.jsx:104 | a split data URL puts back together into the same URL |
| ProfilePage.DataUrlRoundTrip | OneDrive/Documents/Hackathon/Hackathon/globetrotter/src/pages/Profile.jsx:104 | splitting a data URL returns its content type and data |
| ProfilePage.StoredAvatarShown | OneDrive/Documents/Hackathon/Hackathon/globetrotter/src/pages/Profile.jsx:102-106 | an avatar stored by the server is shown as the data URL of its type and bytes |
| ProfilePage.AvatarUploadError | OneDrive/Documents/Hackathon/Hackathon/globetrotter/src/pages/Profile.jsx:209-230 | no error without a file; a non-image gets "Please select an image file."; an image passes exactly when it is at most 5MB |
| ProfilePage.ClientCheckedAvatarPassesServer | OneDrive/Documents/Hackathon/Hackathon/globetrotter/src/pages/Profile.jsx:214-230 | a file the page lets through is accepted by the server's upload filter |
| ProfilePage.TripCount | OneDrive/Documents/Hackathon/Hackathon/globetrotter/src/pages/Profile.jsx:130-141 | 0 when the fetch fails, otherwise the number of trips fetched |
| ProfilePage.TripCountIsUsersTrips | OneDrive/Documents/Hackathon/Hackathon/globetrotter/src/pages/Profile.jsx:130-141 | the trip count shown is the number of the user's stored trips |
| FormErrors.ErrorMapEntries | OneDrive/Documents/Hackathon/Hackathon/globetrotter-your-next-adventure-main/src/pages/CreateTrip.jsx:37-48 | a field has an error exactly when some issue names it, and shows the last such issue's message |
| FormErrors.FieldErrors.constructor | OneDrive/Documents/Hackathon/Hackathon/globetrotter-your-next-adventure-main/src/pages/CreateTrip.jsx:34 | the form starts with no errors |
| FormErrors.FieldErrors.Validate | OneDrive/Documents/Hackathon/Hackathon/globetrotter-your-next-adventure-main/src/pages/CreateTrip.jsx:37-51 | reports success exactly when the parse found no issues, and sets the error map the issues give |
| FormErrors.FieldErrors.Clear | OneDrive/Documents/Hackathon/Hackathon/globetrotter-your-next-adventure-main/src/pages/Login.jsx:247-250 | clears every error |
| FormErrors.DistinctPathsAllKept | OneDrive/Documents/Hackathon/Hackathon/globetrotter-your-next-adventure-main/src/pages/CreateTrip.jsx:41-45 | issues on distinct, non-empty fields are all shown with their own messages |
| TripForm.TripIssues | OneDrive/Documents/Hackathon/Hackathon/globetrotter-your-next-adventure-main/src/pages/CreateTrip.jsx:12-25 | no issue exactly when the form is acceptable |
| TripForm.OneIssuePerField | OneDrive/Documents/Hackathon/Hackathon/globetrotter-your-next-adventure-main/src/pages/CreateTrip.jsx:12-25 | the form schema raises at most one issue per field, and every issue names a field |
| TripForm.EveryIssueShown | OneDrive/Documents/Hackathon/Hackathon/globetrotter-your-next-adventure-main/src/pages/CreateTrip.jsx:37-48 | every issue of a rejected form is shown under its field with its own message |
| TripForm.HandleSubmitMock | OneDrive/Documents/Hackathon/Hackathon/globetrotter-your-next-adventure-main/src/pages/CreateTrip.jsx:53-67 | the errors shown are the parse's; the toast appears exactly when the form is acceptable and quotes the name as typed |
| TripForm.SizeError | OneDrive/Documents/Hackathon/Hackathon/globetrotter/src/pages/CreateTrip.jsx:221-233 | no size error exactly when there is no file or it is at most 5MB, otherwise the given message; the image picker (lines 87-99) applies the same rule with its own message |
| TripForm.CoverTypeError | OneDrive/Documents/Hackathon/Hackathon/globetrotter/src/pages/CreateTrip.jsx:221-233 | no type error exactly when there is no file or it is JPEG, PNG or WebP |
| TripForm.OversizedCoverStillCreated | OneDrive/Documents/Hackathon/Hackathon/globetrotter/src/pages/CreateTrip.jsx:87-99 | a cover over 5MB only earns the picker's message: a form the schema accepts is still sent with it, and the create route stores it as the new trip's cover |
| TripForm.FormData.constructor | OneDrive/Documents/Hackathon/Hackathon/globetrotter/src/pages/CreateTrip.jsx:115 | a new form body is empty |
| TripForm.FormData.Append | OneDrive/Documents/Hackathon/Hackathon/globetrotter/src/pages/CreateTrip.jsx:116-129 | appends exactly one entry |
| TripForm.TripFormEntries | OneDrive/Documents/Hackathon/Hackathon/globetrotter/src/pages/CreateTrip.jsx:115-132 | the body carries name, dates and description, the user id only when creating, and the cover only when one was picked |
| TripForm.BuildTripFormData | OneDrive/Documents/Hackathon/Hackathon/globetrotter/src/pages/CreateTrip.jsx:114-132 | the loop of appends builds exactly those entries |
| TripForm.SubmitOutcomeAsWritten | OneDrive/Documents/Hackathon/Hackathon/globetrotter/src/pages/CreateTrip.jsx:101-157 | as written: a sign-in request exactly when signed out; otherwise saved exactly when the server accepts, with the create or update title, and on failure always the generic text |
| TripForm.SubmitOutcome | OneDrive/Documents/Hackathon/Hackathon/globetrotter/src/pages/CreateTrip.jsx:101-157 | the corrected page (Findings, CreateTrip.jsx:149-155): as above, but a failure shows the server's error text when the reply has one |
| TripForm.SubmitCorrectionOnlyChangesFailureText | OneDrive/Documents/Hackathon/Hackathon/globetrotter/src/pages/CreateTrip.jsx:149-155 | both agree on whether the save succeeded, and on everything unless a signed-in save fails with an error text |
| TripForm.ServerErrorHiddenAsWritten | OneDrive/Documents/Hackathon/Hackathon/globetrotter/src/services/api.js:51-62 | as written, a refusal with its own reason shows only the generic text, where the corrected page shows the reason |
| TripForm.EditAlwaysFailsAsWritten | OneDrive/Documents/Hackathon/Hackathon/globetrotter/src/pages/CreateTrip.jsx:136-155 | as written, every edit submitted to the update route ends in "Failed to update trip" |
| TripForm.SubmittedBody | OneDrive/Documents/Hackathon/Hackathon/globetrotter/src/pages/CreateTrip.jsx:115-123 | the server reads from the body the trimmed name, the dates, the user id and the description |
| TripForm.AcceptedBodyPasses | OneDrive/Documents/Hackathon/Hackathon/globetrotter/src/pages/CreateTrip.jsx:15-29 | a body built from an accepted form passes the server's trip schema |
| TripForm.AcceptedFormIsCreated | OneDrive/Documents/Hackathon/Hackathon/globetrotter/src/pages/CreateTrip.jsx:101-149 | an accepted form is created by the server with the trimmed name and its description, and the page reports it saved |
| LoginForm.LoginIssues | OneDrive/Documents/Hackathon/Hackathon/globetrotter/src/pages/Login.jsx:15-19 | the sign-in form passes exactly when the email is an email and the password has at least 6 characters |
| LoginForm.SignupIssues | OneDrive/Documents/Hackathon/Hackathon/globetrotter/src/pages/Login.jsx:22-28 | the sign-up form passes exactly when the sign-in rules hold, the name has 2 characters and the passwords match; a mismatch is reported on confirmPassword |
| LoginForm.RequestOf | OneDrive/Documents/Hackathon/Hackathon/globetrotter/src/pages/Login.jsx:71-74 | sign-in mode sends a login request, sign-up mode a signup request |
| LoginForm.AcceptedRequestPassesServerChecks | OneDrive/Documents/Hackathon/Hackathon/globetrotter/src/pages/Login.jsx:71-74 | what an accepted form sends passes the server's field-presence and password-length checks |
| LoginForm.LoginResponse | OneDrive/Documents/Hackathon/Hackathon/backend/routes/userRoutes.js:71-102 | a login reply is a success exactly when the server accepted, carrying user and token; an error reply carries `error` and no `message` |
| LoginForm.SignupResponse | OneDrive/Documents/Hackathon/Hackathon/backend/routes/userRoutes.js:26-63 | a signup reply is a success exactly when the server accepted, and it carries neither user nor token |
| LoginForm.ErrorTextAsWritten | OneDrive/Documents/Hackathon/Hackathon/globetrotter/src/pages/Login.jsx:82-85 | as written, the text shown is the reply's `message` when set, else "Authentication failed" |
| LoginForm.ServerErrorHiddenAsWritten | OneDrive/Documents/Hackathon/Hackathon/globetrotter/src/pages/Login.jsx:82-85 | as written, every server error is shown as "Authentication failed" |
| LoginForm.ErrorText | OneDrive/Documents/Hackathon/Hackathon/globetrotter/src/pages/Login.jsx:82-85 | the corrected text is the server's `error`, else its `message`, never empty |
| LoginForm.ServerErrorShown | OneDrive/Documents/Hackathon/Hackathon/globetrotter/src/pages/Login.jsx:82-85 | the corrected text shows the server's own error |
| LoginForm.HandleAuthAsWrittenStep | OneDrive/Documents/Hackathon/Hackathon/globetrotter/src/pages/Login.jsx:67-124 | as written, a failure leaves the auth state and shows an error; any success shows the success toast |
| LoginForm.HandleAuthStep | OneDrive/Documents/Hackathon/Hackathon/globetrotter/src/pages/Login.jsx:67-124 | a failure leaves the state and shows the server's error; a success carrying user and token shows the success toast |
| LoginForm.SignupToastsWithoutSessionAsWritten | OneDrive/Documents/Hackathon/Hackathon/globetrotter/src/pages/Login.jsx:87-109 | as written, a successful signup says "Account created!" while storing token "undefined" and no login, and a reload signs out |
| LoginForm.SuccessMeansSignedIn | OneDrive/Documents/Hackathon/Hackathon/globetrotter/src/pages/Login.jsx:87-109 | after the correction, a success toast means the user is signed in and stays signed in across a reload |
| LoginForm.LoginHandledAlike | OneDrive/Documents/Hackathon/Hackathon/globetrotter/src/pages/Login.jsx:87-101 | a successful login is handled the same as written and corrected, and signs the user in |
| LoginForm.HandleAuthAsWritten | OneDrive/Documents/Hackathon/Hackathon/globetrotter/src/pages/Login.jsx:67-124 | the page's handler changes auth state and toasts as the as-written step says |
| LoginForm.HandleAuth | OneDrive/Documents/Hackathon/Hackathon/globetrotter/src/pages/Login.jsx:67-124 | the corrected handler changes auth state and toasts as the corrected step says |
| LoginForm.SignInChecks | OneDrive/Documents/Hackathon/Hackathon/globetrotter-your-next-adventure-main/src/pages/Login.jsx:9-12 | sign-in passes exactly when the email is an email and the password has 6 characters; at most one issue per field, none on the name |
| LoginForm.RegisterChecks | OneDrive/Documents/Hackathon/Hackathon/globetrotter-your-next-adventure-main/src/pages/Login.jsx:14-16 | registration also needs a name of 2 to 50 characters; at most one issue per field |
| LoginForm.ModeAcceptance | OneDrive/Documents/Hackathon/Hackathon/globetrotter-your-next-adventure-main/src/pages/Login.jsx:30-47 | the form passes exactly when the trimmed email is an email, the password is long enough and, when registering, the trimmed name has 2 to 50 characters |
| LoginForm.LoginModeIgnoresName | OneDrive/Documents/Hackathon/Hackathon/globetrotter-your-next-adventure-main/src/pages/Login.jsx:31-32 | in sign-in mode the name field does not matter |
| LoginForm.ModeIssuesShown | OneDrive/Documents/Hackathon/Hackathon/globetrotter-your-next-adventure-main/src/pages/Login.jsx:36-45 | every issue is shown under its field with its own message |
| LoginForm.SignInPage.constructor | OneDrive/Documents/Hackathon/Hackathon/globetrotter-your-next-adventure-main/src/pages/Login.jsx:20 | the page is in sign-in mode unless opened at /signup, with no errors |
| LoginForm.SignInPage.ValidateForm | OneDrive/Documents/Hackathon/Hackathon/globetrotter-your-next-adventure-main/src/pages/Login.jsx:30-47 | passes exactly when the mode's checks find nothing, and shows their errors |
| LoginForm.SignInPage.HandleSubmit | OneDrive/Documents/Hackathon/Hackathon/globetrotter-your-next-adventure-main/src/pages/Login.jsx:71-80 | navigates to /dashboard exactly when the form passes |
| LoginForm.SignInPage.ToggleMode | OneDrive/Documents/Hackathon/Hackathon/globetrotter-your-next-adventure-main/src/pages/Login.jsx:247-250 | flips the mode and clears the errors |
| AuthContext.StoredAuth | OneDrive/Documents/Hackathon/Hackathon/globetrotter/src/contexts/AuthContext.jsx:18-23 | the record in local storage wins over the one in session storage; none when neither is set |
| AuthContext.InitStep | OneDrive/Documents/Hackathon/Hackathon/globetrotter/src/contexts/AuthContext.jsx:14-77 | loading ends; with nothing stored nothing else changes; from a signed-out state, a user is restored exactly when the stored record is JSON with a user and a token, and otherwise the three stored keys are removed; the error is set to the start-up failure when the stored record does not parse, and is otherwise unchanged |
| AuthContext.LoginStep | OneDrive/Documents/Hackathon/Hackathon/globetrotter/src/contexts/AuthContext.jsx:79-109 | login succeeds exactly when both user data and a token are given; session storage is untouched |
| AuthContext.RefreshStep | OneDrive/Documents/Hackathon/Hackathon/globetrotter/src/contexts/AuthContext.jsx:112-137 | without a stored token it throws "No token found" and changes nothing; a thrown refresh changes nothing; with a token and a fetched profile it returns that profile and signs it in with the stored token |
| AuthContext.LogoutStep | OneDrive/Documents/Hackathon/Hackathon/globetrotter/src/contexts/AuthContext.jsx:139-149 | logout clears user, error and the two auth keys and keeps every other stored key |
| AuthContext.AuthProvider.constructor | OneDrive/Documents/Hackathon/Hackathon/globetrotter/src/contexts/AuthContext.jsx:9-11 | the provider starts with no user, no error and loading |
| AuthContext.AuthProvider.InitializeAuth | OneDrive/Documents/Hackathon/Hackathon/globetrotter/src/contexts/AuthContext.jsx:14-77 | changes the state as the start-up step says |
| AuthContext.AuthProvider.Login | OneDrive/Documents/Hackathon/Hackathon/globetrotter/src/contexts/AuthContext.jsx:79-109 | changes the state and answers as the login step says |
| AuthContext.AuthProvider.RefreshUserData | OneDrive/Documents/Hackathon/Hackathon/globetrotter/src/contexts/AuthContext.jsx:112-137 | changes the state and answers as the refresh step says |
| AuthContext.AuthProvider.Logout | OneDrive/Documents/Hackathon/Hackathon/globetrotter/src/contexts/AuthContext.jsx:139-149 | changes the state as the logout step says |
| AuthContext.AuthProvider.ClearError | OneDrive/Documents/Hackathon/Hackathon/globetrotter/src/contexts/AuthContext.jsx:152-154 | clears the error and nothing else |
| AuthContext.LoginAuthenticates | OneDrive/Documents/Hackathon/Hackathon/globetrotter/src/contexts/AuthContext.jsx:89-99 | a login with a user and a non-empty token signs in, clears the error, authenticates and keeps other storage keys |
| AuthContext.LoginRefusesIncomplete | OneDrive/Documents/Hackathon/Hackathon/globetrotter/src/contexts/AuthContext.jsx:84-87 | a login missing user or token only records "Invalid login data" |
| AuthContext.LogoutDeauthenticates | OneDrive/Documents/Hackathon/Hackathon/globetrotter/src/contexts/AuthContext.jsx:139-149 | after logout the user is not authenticated and a refresh finds no token |
| AuthContext.ReloadRestoresLogin | OneDrive/Documents/Hackathon/Hackathon/globetrotter/src/contexts/AuthContext.jsx:18-52 | a reload after login restores the user (refreshed when the refresh succeeds) and the token |
| AuthContext.RefreshAdoptsFetched | OneDrive/Documents/Hackathon/Hackathon/globetrotter/src/contexts/AuthContext.jsx:112-137 | a successful refresh makes the fetched profile the user, with the stored token; the stored record names it and still authenticates; other local keys stay; a later reload restores it, or the profile fetched then |
| AuthContext.RefreshFailureKeepsUser | OneDrive/Documents/Hackathon/Hackathon/globetrotter/src/contexts/AuthContext.jsx:40-56 | a failed refresh at start-up keeps the stored user |
| AuthContext.InitClearsIncomplete | OneDrive/Documents/Hackathon/Hackathon/globetrotter/src/contexts/AuthContext.jsx:57-62 | a stored record without user or token is cleared and nobody is signed in |
| AuthContext.InitReportsUnparseable | OneDrive/Documents/Hackathon/Hackathon/globetrotter/src/contexts/AuthContext.jsx:64-70 | an unparseable stored record is cleared and reported |
| AuthContext.InitWithNothingStored | OneDrive/Documents/Hackathon/Hackathon/globetrotter/src/contexts/AuthContext.jsx:18-26 | with nothing stored, start-up only stops loading |

## Left out

- I/O is not modelled: HTTP transport, MongoDB itself, logging with `console.log`, toasts rendering, navigation, and React rendering and hook ordering. The model starts from the values these deliver.
- Time and ids: `Date.now()`, `new Date()` and MongoDB's fresh ObjectIds are parameters. Trips.jsx's three `new Date()` calls are taken as one instant.
- Dates: date-string parsing (`new Date(text)`) is a parameter, and so is `toLocaleDateString`. Stop dates coming back from the server are taken to parse.
- Passwords: bcrypt is idealised as an injective hash (`BcryptOf`) with `HashMatches` true exactly on the original password. Salting and cost are not modelled.
- JWT signing and verification are parameters. Expiry is not modelled.
- Records.IsValidId: an id casts to an ObjectId exactly when it is 24 hexadecimal characters. Mongoose also accepts 12-character strings; those are not modelled.
- Cast and validation error texts are abbreviated. Mongoose is taken to report errors in the order of the schema's fields.
- Multer errors: the HTML error page Express sends for a rejected upload is modelled only as a 500.
- Base64: encoding and decoding of images are parameters. The base64 map the trip list applies to cover images is not modelled.
- Costs are integers rather than floating-point numbers. `parseFloat` on the activity form is the `parseNumber` parameter.
- Text length: JavaScript string lengths count UTF-16 code units; the model counts characters. `toLowerCase` is modelled for ASCII letters only.
- Promise.all in the dashboard is modelled as a sequential loop; the state each task writes is disjoint.
- Unreachable paths are not modelled:
  - the dashboard's `calcError` branch;
  - the duplicate-key (11000) branch of POST /api/trips (tripRoutes.js:80-85), since the trip schema declares no unique index;
  - the `stops ? stops.length : 0` and `trips ? trips.length : 0` null cases.
- Profile updates with non-boolean `showEmail` or `showLocation` values are not modelled.
- Sort ties: the order MongoDB gives documents with equal keys is not modelled. The queries are proved sorted and complete, not stable.
- Google sign-in: the OAuth code exchange and the call that fetches the Google profile are a parameter (the profile, or none when any step fails). Google's email is taken to be present.
- The `/test` endpoint and the `/auth/google` URL generation are not modelled.
- ActivityLog timestamps: the schema's default timestamp is the `now` parameter.
- `populate` and Mongoose timestamps are not modelled beyond the `createdAt`/`updatedAt` fields of a trip.
- React Hook Form: whether RHF runs the `register` validate rules for the cover image alongside the zod resolver is not modelled. The rules are functions of their own.
  - An oversized cover picked in the globetrotter form only sets an error message, and the file is still submitted. This is modelled as written and stated by TripForm.OversizedCoverStillCreated.
- The globetrotter `toggleAuthMode` (a form reset, Login.jsx:61-64) and the "remember me" box are not modelled; the box is never read.
- The next-adventure Google button (`handleGoogleSignIn`) only redirects the browser, so it is not modelled.
- The mock submits' timers are left out: a timer only delays the toast.
- Client fetch failures: `fetch` rejecting on a network error is not modelled separately. The page receives either a reply or nothing.
- ItineraryBuilder: the object key order of the activity map is irrelevant to every result, so it is not modelled. The builder's toasts and form resets are not modelled.
- `loadTripData` in the globetrotter CreateTrip page is a stub: the edit mode loads nothing. It is not modelled.
- Profile's `fetchRecentActivities` request plumbing and the profile form's default values are not modelled. The feed text it renders is.
- The `getProfile` error message is not modelled.
- Auth storage:
  - Raw text under the auth key that is not JSON counts as unparseable; a JSON scalar is not told apart from it.
  - A JSON record stored under the token key counts as no token.
- Loading flags: the pages' `isLoading` and `isBudgetLoading` flags are left out. The authentication context's `isLoading` is kept.
- Dashboard.Dashboard.HandleDeleteTrip: the total and the per-trip maps are not updated after a delete. The source does not update them either, and the model follows the source.
- TripRoutes.UpdateTripReply: models the route with the corrected update validator (Findings, Trip.js:20-29). The route as written is TripRoutes.UpdateTripReplyAsWritten, which never succeeds.
- Backend.Database.UpdateTrip: implements the corrected route, so an update the source always refuses is stored here. The source's own behaviour is TripRoutes.UpdateAsWrittenNeverSucceeds.
- Accounts.UserDirectory.Signup: implements the corrected SignupReply (Findings, userRoutes.js:41-50), which refuses passwords under 6 characters that the source accepts. The route as written is UserRoutes.SignupReplyAsWritten.
- Accounts.UserDirectory.GoogleSignIn: implements the corrected GoogleCallback (Findings, userRoutes.js:330-340), which gives a new account a hashed random password. The callback as written is UserRoutes.GoogleCallbackAsWritten, which never creates an account.

## Findings

| source | as written | input that shows it | evidently intended | confidence | as-written member | corrected member |
|---|---|---|---|---|---|---|
| OneDrive/Documents/Hackathon/Hackathon/backend/models/Trip.js:20-29 | The `endDate` validator compares with `this.startDate`. `PUT /trips/:id` runs it as an update validator (`runValidators`, tripRoutes.js:178-182), and Mongoose then calls it without the document. So `this.startDate` is undefined and the comparison is false. | Any update with a valid name and dates, e.g. start 2025-01-01 and end 2025-01-05: the reply is a 400 with "End date must be after start date". | Compare the update's end date with the update's own start date. | not executed | TripRoutes.UpdateAsWrittenNeverSucceeds | TripSchema.ValidateUpdate |
| OneDrive/Documents/Hackathon/Hackathon/globetrotter/src/pages/Login.jsx:82-85 | On a failed request the page shows `errorData.message`; the server's error replies carry `error` and no `message`. | Sign in with a wrong password: the server says "Invalid credentials", the page says "Authentication failed". | Show the server's `error` text. | not executed | LoginForm.ServerErrorHiddenAsWritten | LoginForm.ServerErrorShown |
| OneDrive/Documents/Hackathon/Hackathon/globetrotter/src/pages/Login.jsx:87-109 | After any successful reply the page stores `{user, token}` and toasts success. The signup route (userRoutes.js:56) replies with the user only, without `user` or `token` keys. | Sign up with valid fields. The toast says "Account created!", "undefined" is stored as the token, and the context records "Invalid login data". The next page load clears the stored data, so nobody is signed in. | Report success only when the reply carries a user and a token. | not executed | LoginForm.SignupToastsWithoutSessionAsWritten | LoginForm.SuccessMeansSignedIn |
| OneDrive/Documents/Hackathon/Hackathon/backend/routes/userRoutes.js:330-340 | A first-time Google user is created without a password, and the user schema requires one. | A Google profile with a name, email and picture whose email has no account: the redirect is `error=auth_failed` and no account is created. | Create the account with a hashed random password. | not executed | UserRoutes.GoogleAsWrittenNeverCreates | UserRoutes.GoogleCallbackCreates |
| OneDrive/Documents/Hackathon/Hackathon/backend/routes/userRoutes.js:41-50 | The password's `minlength: 6` (User.js:18-22) is checked on the bcrypt hash, so the plaintext length is never checked at signup. | Sign up with password "a": the account is created. | Refuse passwords under 6 characters, as the password-change route does. | not executed | UserRoutes.SignupAsWrittenIgnoresPasswordLength | UserRoutes.SignupReply |
| OneDrive/Documents/Hackathon/Hackathon/globetrotter/src/pages/CreateTrip.jsx:149-155 | On a failed save the page shows `error.response?.data?.error`. The response interceptor (services/api.js:51-62) rejects every refused request with a new `Error` that has no `response`, so the server's reason is never shown. | Edit a trip: the update route answers 400 "End date must be after start date" and the page shows "Failed to update trip". | Show the server's `error` text when the reply carries one. | not executed | TripForm.ServerErrorHiddenAsWritten | TripForm.SubmitOutcome |
