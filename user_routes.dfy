/** The decisions of the account routes (backend/routes/userRoutes.js):
    signup, login, the token-protected profile, avatar and password routes,
    and the Google sign-in callback. The collection of accounts is a map from
    id to `User`; `Accounts.UserDirectory` applies these decisions to it.
    Signing and verifying tokens, hashing salts and the Google exchange are
    parameters: `sign` builds a token for an id and an address, `verify`
    yields the `userId` claim of a token it accepts. */
module UserRoutes {
  import opened Common
  import opened Records
  import opened UserSchema

  const MissingSignupFields := "Please provide all required fields"
  const UserExists := "User already exists"
  const SignupServerError := "Server error during signup"
  const ShortPassword := "Password must be at least 6 characters long"
  const MissingLoginFields := "Please provide email and password"
  const InvalidCredentials := "Invalid credentials"
  const NoToken := "No token provided"
  const UserNotFound := "User not found"
  const ProfileFetchError := "Server error while fetching profile"
  const ProfileUpdateError := "Server error while updating profile"
  const NoFileUploaded := "No file uploaded"
  const OnlyImages := "Only image files are allowed"
  const FileTooLarge := "File too large"
  const AvatarUpdateError := "Server error while updating avatar"
  const MissingPasswords := "Current password and new password are required"
  const ShortNewPassword := "New password must be at least 6 characters long"
  const WrongCurrentPassword := "Current password is incorrect"
  const PasswordChangeError := "Server error while changing password"
  const PasswordChanged := "Password changed successfully"

  /** multer's `fileSize` limit: 5 MB. */
  const MaxAvatarBytes := 5 * 1024 * 1024

  /** An account as the routes send it: everything but the password hash. */
  datatype UserView = UserView(
    id: Id,
    name: string,
    email: string,
    avatar: Option<Image>,
    location: string,
    bio: string,
    trips: int,
    countries: int,
    friends: int,
    profileVisibility: string,
    showEmail: bool,
    showLocation: bool)

  /** `user.toObject()` with `password` deleted. */
  function ViewOf(u: User): (v: UserView)
    ensures v.id == u.id && v.name == u.name && v.email == u.email && v.avatar == u.avatar
    ensures v.location == u.location && v.bio == u.bio && v.profileVisibility == u.profileVisibility
  {
    UserView(u.id, u.name, u.email, u.avatar, u.location, u.bio, u.trips, u.countries, u.friends,
             u.profileVisibility, u.showEmail, u.showLocation)
  }

  /** Two accounts look the same in a reply exactly when they differ at most
      in their password: the reply hides the hash and nothing else. */
  lemma ViewHidesOnlyPassword(u: User, w: User)
    ensures ViewOf(u) == ViewOf(w) <==> u == w.(password := u.password)
  {
  }

  /** The unique index on `email`. */
  predicate EmailsUnique(users: map<Id, User>) {
    forall j, k :: j in users && k in users && users[j].email == users[k].email ==> j == k
  }

  /** Every account is filed under its own id and satisfies the schema, and
      no two share an address. */
  ghost predicate DirectoryValid(users: map<Id, User>) {
    && (forall k :: k in users ==> users[k].id == k && UserValid(users[k]))
    && EmailsUnique(users)
  }

  predicate HasAccount(users: map<Id, User>, email: string) {
    exists k :: k in users && users[k].email == email
  }

  /** `User.findOne({ email })` for a normalised address. */
  function ByEmail(users: map<Id, User>, email: string): (r: Option<Id>)
    requires EmailsUnique(users)
    ensures r.Some? <==> HasAccount(users, email)
    ensures r.Some? ==> r.value in users && users[r.value].email == email
  {
    if HasAccount(users, email) then
      var k :| k in users && users[k].email == email;
      Some(k)
    else None
  }

  // ---------------------------------------------------------------------
  // POST /signup

  datatype SignupBody = SignupBody(name: Option<string>, email: Option<string>, password: Option<string>)

  predicate HasSignupFields(b: SignupBody) {
    Truthy(b.name) && Truthy(b.email) && Truthy(b.password)
  }

  /** What `User.create` receives: the plain name and address and the hash. */
  function SignupFields(b: SignupBody): (f: UserFields)
    requires HasSignupFields(b)
    ensures f.password == Some(BcryptOf(b.password.value)) && f.avatar.None?
  {
    UserFields(b.name, b.email, Some(BcryptOf(b.password.value)), None)
  }

  /** The route as written: the only check of the password's length is the
      schema's `minlength`, which sees the 60-character hash. */
  function SignupReplyAsWritten(users: map<Id, User>, b: SignupBody, newId: Id): (r: Reply<UserView>)
    ensures !HasSignupFields(b) ==> r == Err(400, MissingSignupFields)
    ensures r.Ok? <==> && HasSignupFields(b) && !HasAccount(users, NormalEmail(b.email.value))
                       && UserAcceptable(SignupFields(b))
  {
    if !HasSignupFields(b) then Err(400, MissingSignupFields)
    else if HasAccount(users, NormalEmail(b.email.value)) then Err(400, UserExists)
    else if ValidateUser(SignupFields(b)) != [] then Err(500, SignupServerError)
    else Ok(201, ViewOf(NewUser(newId, SignupFields(b))))
  }

  /** As written, any accepted signup is still accepted when its password
      is replaced by any other non-empty one, however short. */
  lemma SignupAsWrittenIgnoresPasswordLength(users: map<Id, User>, b: SignupBody, newId: Id, p: string)
    requires SignupReplyAsWritten(users, b, newId).Ok? && p != ""
    ensures SignupReplyAsWritten(users, b.(password := Some(p)), newId).Ok?
  {
    var b' := b.(password := Some(p));
    assert SignupFields(b').name == SignupFields(b).name && SignupFields(b').email == SignupFields(b).email;
  }

  /** The route with the schema's six-character rule applied to the password
      that was typed, before it is hashed. */
  function SignupReply(users: map<Id, User>, b: SignupBody, newId: Id): (r: Reply<UserView>)
    ensures !HasSignupFields(b) ==> r == Err(400, MissingSignupFields)
    ensures HasSignupFields(b) && |b.password.value| < PasswordMin ==> r == Err(400, ShortPassword)
    ensures HasSignupFields(b) && |b.password.value| >= PasswordMin && HasAccount(users, NormalEmail(b.email.value))
            ==> r == Err(400, UserExists)
    ensures r.Ok? <==> && HasSignupFields(b) && |b.password.value| >= PasswordMin
                       && !HasAccount(users, NormalEmail(b.email.value)) && UserAcceptable(SignupFields(b))
    ensures r.Ok? ==> r == Ok(201, ViewOf(NewUser(newId, SignupFields(b))))
  {
    if !HasSignupFields(b) then Err(400, MissingSignupFields)
    else if |b.password.value| < PasswordMin then Err(400, ShortPassword)
    else if HasAccount(users, NormalEmail(b.email.value)) then Err(400, UserExists)
    else if ValidateUser(SignupFields(b)) != [] then Err(500, SignupServerError)
    else Ok(201, ViewOf(NewUser(newId, SignupFields(b))))
  }

  /** The corrected route accepts exactly what the route as written accepts
      among passwords of six characters or more, and refuses every shorter one. */
  lemma SignupCorrectionOnlyAddsLengthRule(users: map<Id, User>, b: SignupBody, newId: Id)
    ensures HasSignupFields(b) && |b.password.value| >= PasswordMin
            ==> SignupReply(users, b, newId) == SignupReplyAsWritten(users, b, newId)
    ensures SignupReply(users, b, newId).Ok? && HasSignupFields(b) ==> |b.password.value| >= PasswordMin
  {
  }

  /** The account a successful signup stores. */
  function SignedUp(b: SignupBody, newId: Id): (u: User)
    requires HasSignupFields(b) && UserAcceptable(SignupFields(b))
    ensures u.id == newId && u.email == NormalEmail(b.email.value) && u.password == BcryptOf(b.password.value)
  {
    NewUser(newId, SignupFields(b))
  }

  /** Signup keeps the directory valid: the new address is not in use. */
  lemma SignupKeepsDirectoryValid(users: map<Id, User>, b: SignupBody, newId: Id)
    requires DirectoryValid(users) && newId !in users
    requires SignupReply(users, b, newId).Ok?
    ensures DirectoryValid(users[newId := SignedUp(b, newId)])
  {
    assert HasSignupFields(b) && UserAcceptable(SignupFields(b));
    assert !HasAccount(users, NormalEmail(b.email.value));
    var u := SignedUp(b, newId);
    NewUserValid(newId, SignupFields(b));
    InsertKeepsDirectoryValid(users, u);
  }

  /** Replacing an account by a valid one with the same id and address
      keeps the directory valid. */
  lemma ReplaceKeepsDirectoryValid(users: map<Id, User>, k: Id, u: User)
    requires DirectoryValid(users) && k in users
    requires u.id == k && u.email == users[k].email && UserValid(u)
    ensures DirectoryValid(users[k := u])
  {
    var after := users[k := u];
    forall j | j in after ensures after[j].id == j && UserValid(after[j]) {
      if j != k {
        assert after[j] == users[j];
      }
    }
    forall i, j | i in after && j in after && after[i].email == after[j].email ensures i == j {
      assert after[i].email == users[i].email && after[j].email == users[j].email;
    }
  }

  /** Replacing an account's avatar keeps the directory valid. */
  lemma AvatarKeepsDirectoryValid(users: map<Id, User>, k: Id, avatar: Option<Image>)
    requires DirectoryValid(users) && k in users
    ensures DirectoryValid(users[k := users[k].(avatar := avatar)])
  {
    ReplaceKeepsDirectoryValid(users, k, users[k].(avatar := avatar));
  }

  /** Replacing an account's password keeps the directory valid. */
  lemma PasswordKeepsDirectoryValid(users: map<Id, User>, k: Id, h: PasswordHash)
    requires DirectoryValid(users) && k in users
    ensures DirectoryValid(users[k := users[k].(password := h)])
  {
    ReplaceKeepsDirectoryValid(users, k, users[k].(password := h));
  }

  /** Filing a valid account under its own fresh id, with an address no
      account has, keeps the directory valid. */
  lemma InsertKeepsDirectoryValid(users: map<Id, User>, u: User)
    requires DirectoryValid(users) && u.id !in users && UserValid(u) && !HasAccount(users, u.email)
    ensures DirectoryValid(users[u.id := u])
  {
    var after := users[u.id := u];
    forall k | k in after ensures after[k].id == k && UserValid(after[k]) {
      if k != u.id {
        assert after[k] == users[k];
      }
    }
    assert forall k :: k in users ==> users[k].email != u.email;
    forall i, j | i in after && j in after && after[i].email == after[j].email ensures i == j {
      if i != u.id && j != u.id {
        assert after[i] == users[i] && after[j] == users[j];
      }
    }
  }

  // ---------------------------------------------------------------------
  // POST /login

  datatype LoginBody = LoginBody(email: Option<string>, password: Option<string>)

  /** A signed-in reply: the account and its token. */
  datatype Session = Session(user: UserView, token: string)

  /** The address is normalised by the query's setters, so case and
      surrounding spaces do not matter. An unknown address and a wrong
      password get the same answer. */
  function LoginReply(users: map<Id, User>, b: LoginBody, sign: (Id, string) -> string): (r: Reply<Session>)
    requires EmailsUnique(users)
    ensures !(Truthy(b.email) && Truthy(b.password)) ==> r == Err(400, MissingLoginFields)
    ensures r.Err? ==> r.status == 400
    ensures r.Err? && Truthy(b.email) && Truthy(b.password) ==> r.error == InvalidCredentials
    ensures r.Ok? <==> && Truthy(b.email) && Truthy(b.password)
                       && exists k :: k in users && users[k].email == NormalEmail(b.email.value)
                                      && HashMatches(b.password.value, users[k].password)
    ensures r.Ok? ==> exists k :: && k in users && users[k].email == NormalEmail(b.email.value)
                                  && r == Ok(200, Session(ViewOf(users[k]), sign(users[k].id, users[k].email)))
  {
    if !(Truthy(b.email) && Truthy(b.password)) then Err(400, MissingLoginFields)
    else
      match ByEmail(users, NormalEmail(b.email.value))
      case None => Err(400, InvalidCredentials)
      case Some(k) =>
        var u := users[k];
        if !HashMatches(b.password.value, u.password) then Err(400, InvalidCredentials)
        else Ok(200, Session(ViewOf(u), sign(u.id, u.email)))
  }

  /** Whoever has just signed up can log in with the same address, written
      in any letter case and with any surrounding spaces, and password. */
  lemma SignupThenLogin(users: map<Id, User>, b: SignupBody, newId: Id, pad: string, sign: (Id, string) -> string)
    requires DirectoryValid(users) && newId !in users
    requires SignupReply(users, b, newId).Ok?
    requires forall i :: 0 <= i < |pad| ==> IsJsSpace(pad[i])
    ensures EmailsUnique(users[newId := SignedUp(b, newId)])
    ensures var typed := pad + ToLowerAscii(b.email.value) + pad;
            var u := SignedUp(b, newId);
            LoginReply(users[newId := u], LoginBody(Some(typed), b.password), sign)
            == Ok(200, Session(ViewOf(u), sign(newId, u.email)))
  {
    assert HasSignupFields(b) && UserAcceptable(SignupFields(b));
    var u := SignedUp(b, newId);
    SignupKeepsDirectoryValid(users, b, newId);
    var e := b.email.value;
    var typed := pad + ToLowerAscii(e) + pad;
    assert NormalEmail(typed) == u.email by {
      NormalEmailIgnoresCaseAndPadding(ToLowerAscii(e), pad);
      NormalEmailIgnoresCaseAndPadding(e, pad);
    }
    var after := users[newId := u];
    assert u.email != "" by {
      NewUserValid(newId, SignupFields(b));
    }
    LoginAs(after, newId, typed, b.password.value, sign);
  }

  /** Logging in with a text that normalises to an account's address and the
      password that account's hash was made from signs in as that account. */
  lemma LoginAs(users: map<Id, User>, k: Id, typed: string, password: string, sign: (Id, string) -> string)
    requires DirectoryValid(users) && k in users
    requires NormalEmail(typed) == users[k].email && users[k].email != ""
    requires password != "" && HashMatches(password, users[k].password)
    ensures LoginReply(users, LoginBody(Some(typed), Some(password)), sign)
            == Ok(200, Session(ViewOf(users[k]), sign(k, users[k].email)))
  {
    assert typed != "" by {
      assert |NormalEmail(typed)| <= |typed|;
    }
    assert users[k].id == k;
    LoginFindsOwner(users, k, typed, password, sign);
  }

  /** The reply to a login whose address finds account `k` and whose password matches. */
  lemma LoginFindsOwner(users: map<Id, User>, k: Id, typed: string, password: string, sign: (Id, string) -> string)
    requires EmailsUnique(users) && k in users && users[k].id == k
    requires typed != "" && NormalEmail(typed) == users[k].email
    requires password != "" && HashMatches(password, users[k].password)
    ensures LoginReply(users, LoginBody(Some(typed), Some(password)), sign)
            == Ok(200, Session(ViewOf(users[k]), sign(k, users[k].email)))
  {
    ByEmailFindsOwner(users, k);
  }

  /** An account's own address finds that account. */
  lemma ByEmailFindsOwner(users: map<Id, User>, k: Id)
    requires EmailsUnique(users) && k in users
    ensures ByEmail(users, users[k].email) == Some(k)
  {
    assert HasAccount(users, users[k].email);
    var found := ByEmail(users, users[k].email);
    assert found.value in users && users[found.value].email == users[k].email;
  }

  // ---------------------------------------------------------------------
  // Tokens

  /** The index of the first `c` in `s`, or `|s|` when there is none. */
  function IndexOf(s: string, c: char): (i: nat)
    ensures i <= |s|
    ensures i < |s| ==> s[i] == c
    ensures forall j :: 0 <= j < i ==> s[j] != c
  {
    if s == [] then 0
    else if s[0] == c then 0
    else 1 + IndexOf(s[1..], c)
  }

  /** `req.headers.authorization?.split(' ')[1]` when it is truthy: the text
      between the first and the second space of the header. */
  function TokenOf(header: Option<string>): (t: Option<string>)
    ensures t.Some? ==> t.value != "" && ' ' !in t.value
    ensures header.None? ==> t.None?
  {
    match header
    case None => None
    case Some(h) =>
      var i := IndexOf(h, ' ');
      if i == |h| then None
      else
        var rest := h[i + 1..];
        var word := rest[..IndexOf(rest, ' ')];
        if word == "" then None else Some(word)
  }

  /** A header written the usual way yields its token. */
  lemma BearerToken(scheme: string, token: string)
    requires ' ' !in scheme
    requires token != "" && ' ' !in token
    ensures TokenOf(Some(scheme + " " + token)) == Some(token)
  {
    var h := scheme + " " + token;
    assert h[|scheme|] == ' ';
    assert forall j :: 0 <= j < |scheme| ==> h[j] == scheme[j] && scheme[j] != ' ';
    var i := IndexOf(h, ' ');
    assert i == |scheme|;
    assert h[i + 1..] == token;
    assert forall j :: 0 <= j < |token| ==> token[j] != ' ';
    assert IndexOf(token, ' ') == |token|;
    assert token[..|token|] == token;
  }

  /** A header without a space carries no token. */
  lemma NoSpaceNoToken(h: string)
    requires ' ' !in h
    ensures TokenOf(Some(h)) == None
  {
    assert IndexOf(h, ' ') == |h|;
  }

  /** Who is asking: no token (401), a token `jwt.verify` throws on, or the
      `userId` claim of an accepted one. */
  datatype Auth = Anonymous | Rejected | Claimed(userId: string)

  function Authenticate(header: Option<string>, verify: string -> Option<string>): (a: Auth)
    ensures a.Anonymous? <==> TokenOf(header).None?
    ensures a.Claimed? <==> TokenOf(header).Some? && verify(TokenOf(header).value).Some?
    ensures a.Claimed? ==> a.userId == verify(TokenOf(header).value).value
  {
    match TokenOf(header)
    case None => Anonymous
    case Some(t) =>
      match verify(t)
      case None => Rejected
      case Some(id) => Claimed(id)
  }

  /** The account a token names: `None` when the claim is not an id (a
      CastError) or names no account. */
  predicate Found(users: map<Id, User>, a: Auth) {
    a.Claimed? && IsValidId(a.userId) && CastId(a.userId) in users
  }

  /** The reply every protected route gives before its own work, if any:
      401 without a token, 500 with the route's text for a rejected token or
      a claim that is not an id. */
  function AuthFailure(a: Auth, serverError: string): (r: Option<Reply<UserView>>)
    ensures r.None? <==> a.Claimed? && IsValidId(a.userId)
    ensures a.Anonymous? ==> r == Some(Err(401, NoToken))
    ensures r.Some? && !a.Anonymous? ==> r == Some(Err(500, serverError))
  {
    if a.Anonymous? then Some(Err(401, NoToken))
    else if !a.Claimed? || !IsValidId(a.userId) then Some(Err(500, serverError))
    else None
  }

  // ---------------------------------------------------------------------
  // GET /profile

  function GetProfileReply(users: map<Id, User>, header: Option<string>, verify: string -> Option<string>)
    : (r: Reply<UserView>)
    ensures TokenOf(header).None? ==> r == Err(401, NoToken)
    ensures r.Ok? <==> Found(users, Authenticate(header, verify))
    ensures r.Ok? ==> r == Ok(200, ViewOf(users[CastId(Authenticate(header, verify).userId)]))
    ensures r.Err? && r.status == 404 ==> && Authenticate(header, verify).Claimed?
                                          && CastId(Authenticate(header, verify).userId) !in users
  {
    var a := Authenticate(header, verify);
    match AuthFailure(a, ProfileFetchError)
    case Some(e) => e
    case None =>
      var k := CastId(a.userId);
      if k !in users then Err(404, UserNotFound) else Ok(200, ViewOf(users[k]))
  }

  // ---------------------------------------------------------------------
  // PUT /profile

  /** The body of a profile update; `None` is a field the client left out. */
  datatype ProfileBody = ProfileBody(
    name: Option<string>,
    location: Option<string>,
    bio: Option<string>,
    profileVisibility: Option<string>,
    showEmail: Option<bool>,
    showLocation: Option<bool>)

  /** `updateData`: a falsy name or visibility is dropped; location, bio and
      the two flags are kept whenever they were sent, even when empty. */
  function UpdateDataOf(b: ProfileBody): (p: ProfileUpdate)
    ensures p.name.Some? <==> Truthy(b.name)
    ensures p.name.Some? ==> p.name == b.name
    ensures p.profileVisibility.Some? <==> Truthy(b.profileVisibility)
    ensures p.profileVisibility.Some? ==> p.profileVisibility == b.profileVisibility
    ensures p.location == b.location && p.bio == b.bio
    ensures p.showEmail == b.showEmail && p.showLocation == b.showLocation
  {
    ProfileUpdate(if Truthy(b.name) then b.name else None, b.location, b.bio,
                  if Truthy(b.profileVisibility) then b.profileVisibility else None,
                  b.showEmail, b.showLocation)
  }

  /** A refused update, like any other failure, is a 500; the lookup comes
      after the validators. */
  function UpdateProfileReply(users: map<Id, User>, header: Option<string>, verify: string -> Option<string>,
                              b: ProfileBody): (r: Reply<UserView>)
    ensures TokenOf(header).None? ==> r == Err(401, NoToken)
    ensures r.Ok? <==> Found(users, Authenticate(header, verify)) && ProfileUpdateAcceptable(UpdateDataOf(b))
    ensures r.Ok? ==> var k := CastId(Authenticate(header, verify).userId);
                      r == Ok(200, ViewOf(ApplyProfileUpdate(users[k], UpdateDataOf(b))))
    ensures r.Err? && !ProfileUpdateAcceptable(UpdateDataOf(b)) && TokenOf(header).Some?
            ==> r == Err(500, ProfileUpdateError)
  {
    var a := Authenticate(header, verify);
    match AuthFailure(a, ProfileUpdateError)
    case Some(e) => e
    case None =>
      var k := CastId(a.userId);
      var p := UpdateDataOf(b);
      if ValidateProfileUpdate(p) != [] then Err(500, ProfileUpdateError)
      else if k !in users then Err(404, UserNotFound)
      else Ok(200, ViewOf(ApplyProfileUpdate(users[k], p)))
  }

  /** An accepted profile update keeps the directory valid. */
  lemma ProfileUpdateKeepsDirectoryValid(users: map<Id, User>, k: Id, p: ProfileUpdate)
    requires DirectoryValid(users) && k in users && ProfileUpdateAcceptable(p)
    ensures DirectoryValid(users[k := ApplyProfileUpdate(users[k], p)])
  {
    ProfileUpdatePreservesValid(users[k], p);
    ReplaceKeepsDirectoryValid(users, k, ApplyProfileUpdate(users[k], p));
  }

  // ---------------------------------------------------------------------
  // PUT /avatar

  /** The upload filter and size limit run before the route; either failure
      goes to the default error handler (500). */
  function UploadFailure(file: Option<Upload>): (r: Option<Reply<UserView>>)
    ensures r.None? <==> file.None? || (StartsWith(file.value.mimetype, "image/")
                                        && |file.value.buffer| <= MaxAvatarBytes)
    ensures r.Some? ==> r.value.Err? && r.value.status == 500
  {
    match file
    case None => None
    case Some(f) =>
      if !StartsWith(f.mimetype, "image/") then Some(Err(500, OnlyImages))
      else if |f.buffer| > MaxAvatarBytes then Some(Err(500, FileTooLarge))
      else None
  }

  function AvatarReply(users: map<Id, User>, header: Option<string>, verify: string -> Option<string>,
                       file: Option<Upload>): (r: Reply<UserView>)
    ensures UploadFailure(file).Some? ==> r == UploadFailure(file).value
    ensures r.Ok? <==> && UploadFailure(file).None? && file.Some?
                       && Found(users, Authenticate(header, verify))
    ensures r.Ok? ==> var k := CastId(Authenticate(header, verify).userId);
                      r == Ok(200, ViewOf(users[k].(avatar := Some(ImageOf(file.value)))))
    ensures UploadFailure(file).None? && TokenOf(header).None? ==> r == Err(401, NoToken)
    ensures (UploadFailure(file).None? && Authenticate(header, verify).Claimed? && file.None?)
            ==> r == Err(400, NoFileUploaded)
    ensures (file.Some? && UploadFailure(file).None? && Authenticate(header, verify).Claimed?
             && !IsValidId(Authenticate(header, verify).userId)) ==> r == Err(500, AvatarUpdateError)
  {
    match UploadFailure(file)
    case Some(e) => e
    case None =>
      var a := Authenticate(header, verify);
      if a.Anonymous? then Err(401, NoToken)
      else if a.Rejected? then Err(500, AvatarUpdateError)
      else if file.None? then Err(400, NoFileUploaded)
      else if !IsValidId(a.userId) then Err(500, AvatarUpdateError)
      else
        var k := CastId(a.userId);
        if k !in users then Err(404, UserNotFound)
        else Ok(200, ViewOf(users[k].(avatar := Some(ImageOf(file.value)))))
  }

  // ---------------------------------------------------------------------
  // PUT /password

  datatype PasswordBody = PasswordBody(currentPassword: Option<string>, newPassword: Option<string>)

  /** The route's checks in order: token, both fields present, the new
      password's length, the account, the current password. */
  function ChangePasswordReply(users: map<Id, User>, header: Option<string>, verify: string -> Option<string>,
                               b: PasswordBody): (r: Reply<string>)
    ensures TokenOf(header).None? ==> r == Err(401, NoToken)
    ensures r.Ok? <==> && Found(users, Authenticate(header, verify))
                       && Truthy(b.currentPassword) && Truthy(b.newPassword)
                       && |b.newPassword.value| >= PasswordMin
                       && HashMatches(b.currentPassword.value,
                                      users[CastId(Authenticate(header, verify).userId)].password)
    ensures r.Ok? ==> r == Ok(200, PasswordChanged)
    ensures (Authenticate(header, verify).Claimed? && Truthy(b.currentPassword) && Truthy(b.newPassword)
             && |b.newPassword.value| < PasswordMin) ==> r == Err(400, ShortNewPassword)
  {
    match Authenticate(header, verify)
    case Anonymous => Err(401, NoToken)
    case Rejected => Err(500, PasswordChangeError)
    case Claimed(id) =>
      if !(Truthy(b.currentPassword) && Truthy(b.newPassword)) then Err(400, MissingPasswords)
      else if |b.newPassword.value| < PasswordMin then Err(400, ShortNewPassword)
      else if !IsValidId(id) then Err(500, PasswordChangeError)
      else if CastId(id) !in users then Err(404, UserNotFound)
      else if !HashMatches(b.currentPassword.value, users[CastId(id)].password) then Err(400, WrongCurrentPassword)
      else Ok(200, PasswordChanged)
  }

  /** After a change the new password logs in, and the old one no longer
      does unless it was the same. */
  lemma ChangedPasswordLogsIn(users: map<Id, User>, k: Id, current: string, next: string,
                              sign: (Id, string) -> string)
    requires DirectoryValid(users) && k in users && next != "" && current != ""
    requires HashMatches(current, users[k].password)
    ensures EmailsUnique(users[k := users[k].(password := BcryptOf(next))])
    ensures var after := users[k := users[k].(password := BcryptOf(next))];
            && LoginReply(after, LoginBody(Some(users[k].email), Some(next)), sign).Ok?
            && (current != next ==> LoginReply(after, LoginBody(Some(users[k].email), Some(current)), sign)
                                    == Err(400, InvalidCredentials))
  {
    var u := users[k];
    var after := users[k := u.(password := BcryptOf(next))];
    PasswordKeepsDirectoryValid(users, k, BcryptOf(next));
    assert UserValid(u);
    StoredEmailIsNormal(u.email);
    assert EmailsUnique(after);
    assert k in after && after[k].email == u.email;
    var found := ByEmail(after, u.email);
    assert found.Some? && found.value == k;
    assert u.email != "";
  }

  // ---------------------------------------------------------------------
  // GET /auth/google/callback

  /** What Google's userinfo endpoint reports; `picture` may be missing. */
  datatype GoogleProfile = GoogleProfile(name: Option<string>, email: string, picture: Option<string>)

  /** Where the callback sends the browser: the client with a token and the
      account, or the client with `error=auth_failed`. */
  datatype Redirect = SignedIn(token: string, user: UserView) | AuthFailed

  /** The callback's effect: where it redirects and the accounts afterwards. */
  datatype Callback = Callback(redirect: Redirect, users: map<Id, User>)

  /** `picture.replace(/^data:image\/[a-z]+;base64,/, '')` */
  function StripDataUrl(s: string): (r: string)
    ensures |r| <= |s| && r == s[|s| - |r|..]
  {
    var head := "data:image/";
    if !StartsWith(s, head) then s
    else
      var rest := s[|head|..];
      var n := LowerRun(rest);
      var tail := rest[n..];
      if n > 0 && StartsWith(tail, ";base64,") then tail[8..] else s
  }

  /** The length of the run of lower-case ASCII letters `s` starts with. */
  function LowerRun(s: string): (n: nat)
    ensures n <= |s|
    ensures forall i :: 0 <= i < n ==> 'a' <= s[i] <= 'z'
    ensures n < |s| ==> !('a' <= s[n] <= 'z')
  {
    if s != [] && 'a' <= s[0] <= 'z' then 1 + LowerRun(s[1..]) else 0
  }

  /** A data URL's payload is what is decoded; any other text is decoded whole. */
  lemma StripDataUrlOfPayload(kind: string, payload: string)
    requires kind != [] && forall i :: 0 <= i < |kind| ==> 'a' <= kind[i] <= 'z'
    ensures StripDataUrl("data:image/" + kind + ";base64," + payload) == payload
  {
    var head, marker := "data:image/", ";base64,";
    var tail := marker + payload;
    var s := head + kind + marker + payload;
    assert s == head + (kind + tail);
    StartsWithConcat(head, kind + tail);
    LowerRunOf(kind, tail);
    StartsWithConcat(kind, tail);
    StartsWithConcat(marker, payload);
  }

  /** `a + b` starts with `a`, and cutting `a` off leaves `b`. */
  lemma StartsWithConcat(a: string, b: string)
    ensures StartsWith(a + b, a) && (a + b)[|a|..] == b
  {
    assert (a + b)[..|a|] == a;
  }

  lemma {:induction false} LowerRunOf(kind: string, tail: string)
    requires forall i :: 0 <= i < |kind| ==> 'a' <= kind[i] <= 'z'
    requires tail != [] && !('a' <= tail[0] <= 'z')
    ensures LowerRun(kind + tail) == |kind|
    decreases |kind|
  {
    if kind == [] {
      assert kind + tail == tail;
    } else {
      assert (kind + tail)[1..] == kind[1..] + tail;
      LowerRunOf(kind[1..], tail);
    }
  }

  /** The avatar built from Google's picture; `decode` is base64 decoding. */
  function GoogleAvatar(picture: string, decode: string -> seq<byte>): (img: Image)
    ensures img.contentType == "image/jpeg" && img.filename == "google-avatar.jpg"
    ensures img.data == decode(StripDataUrl(picture))
  {
    Image(decode(StripDataUrl(picture)), "image/jpeg", "google-avatar.jpg")
  }

  /** An existing account signs in; a missing avatar is filled from the
      picture first (reading a missing picture throws). */
  function ExistingSignIn(users: map<Id, User>, k: Id, g: GoogleProfile, decode: string -> seq<byte>,
                          sign: (Id, string) -> string): (c: Callback)
    requires k in users && users[k].id == k
    ensures c.redirect.AuthFailed? <==> users[k].avatar.None? && g.picture.None?
    ensures c.redirect.AuthFailed? ==> c.users == users
    ensures c.redirect.SignedIn? ==>
              var u := if users[k].avatar.Some? then users[k]
                       else users[k].(avatar := Some(GoogleAvatar(g.picture.value, decode)));
              c.users == users[k := u] && c.redirect == SignedIn(sign(k, users[k].email), ViewOf(u))
  {
    var u := users[k];
    if u.avatar.Some? then Callback(SignedIn(sign(u.id, u.email), ViewOf(u)), users)
    else if g.picture.None? then Callback(AuthFailed, users)
    else
      var u' := u.(avatar := Some(GoogleAvatar(g.picture.value, decode)));
      Callback(SignedIn(sign(u.id, u.email), ViewOf(u')), users[k := u'])
  }

  /** Filling in the avatar of a signed-in account keeps the directory valid. */
  lemma ExistingSignInKeepsDirectoryValid(users: map<Id, User>, k: Id, g: GoogleProfile,
                                          decode: string -> seq<byte>, sign: (Id, string) -> string)
    requires DirectoryValid(users) && k in users
    ensures DirectoryValid(ExistingSignIn(users, k, g, decode, sign).users)
  {
    var c := ExistingSignIn(users, k, g, decode, sign);
    if c.redirect.SignedIn? && users[k].avatar.None? {
      AvatarKeepsDirectoryValid(users, k, c.users[k].avatar);
    }
  }

  /** `User.create` for an address the directory does not know, with the
      given password path; reading a missing picture throws first. */
  function CreateGoogleAccount(users: map<Id, User>, g: GoogleProfile, newId: Id, password: Option<PasswordHash>,
                               decode: string -> seq<byte>, sign: (Id, string) -> string): (c: Callback)
    ensures c.redirect.SignedIn? <==> && g.picture.Some? && g.name.Some? && password.Some?
                                      && NameMin <= |Trim(g.name.value)| <= NameMax
                                      && NormalEmail(g.email) != ""
    ensures c.redirect.AuthFailed? ==> c.users == users
    ensures c.redirect.SignedIn? ==>
              var f := UserFields(g.name, Some(g.email), password, Some(GoogleAvatar(g.picture.value, decode)));
              && c.users == users[newId := NewUser(newId, f)]
              && c.redirect == SignedIn(sign(newId, NormalEmail(g.email)), ViewOf(NewUser(newId, f)))
  {
    if g.picture.None? then Callback(AuthFailed, users)
    else
      var f := UserFields(g.name, Some(g.email), password, Some(GoogleAvatar(g.picture.value, decode)));
      if ValidateUser(f) != [] then Callback(AuthFailed, users)
      else Callback(SignedIn(sign(newId, NormalEmail(g.email)), ViewOf(NewUser(newId, f))),
                    users[newId := NewUser(newId, f)])
  }

  /** The callback, for the password path a new account gets. */
  function GoogleCallbackWith(users: map<Id, User>, profile: Option<GoogleProfile>, newId: Id,
                              password: Option<PasswordHash>, decode: string -> seq<byte>,
                              sign: (Id, string) -> string): (c: Callback)
    requires DirectoryValid(users)
    ensures profile.None? ==> c == Callback(AuthFailed, users)
    ensures profile.Some? && HasAccount(users, NormalEmail(profile.value.email))
            ==> c == ExistingSignIn(users, ByEmail(users, NormalEmail(profile.value.email)).value,
                                    profile.value, decode, sign)
    ensures profile.Some? && !HasAccount(users, NormalEmail(profile.value.email))
            ==> c == CreateGoogleAccount(users, profile.value, newId, password, decode, sign)
  {
    match profile
    case None => Callback(AuthFailed, users)
    case Some(g) =>
      match ByEmail(users, NormalEmail(g.email))
      case Some(k) => ExistingSignIn(users, k, g, decode, sign)
      case None => CreateGoogleAccount(users, g, newId, password, decode, sign)
  }

  /** The callback as written: a new account is created without a password. */
  function GoogleCallbackAsWritten(users: map<Id, User>, profile: Option<GoogleProfile>, newId: Id,
                                   decode: string -> seq<byte>, sign: (Id, string) -> string): (c: Callback)
    requires DirectoryValid(users)
    ensures c == GoogleCallbackWith(users, profile, newId, None, decode, sign)
    ensures profile.None? ==> c == Callback(AuthFailed, users)
    ensures profile.Some? && !HasAccount(users, NormalEmail(profile.value.email)) ==> c == Callback(AuthFailed, users)
  {
    GoogleCallbackWith(users, profile, newId, None, decode, sign)
  }

  /** As written, a Google account the directory does not know never gets
      in, and nothing is stored for it. */
  lemma GoogleAsWrittenNeverCreates(users: map<Id, User>, g: GoogleProfile, newId: Id,
                                    decode: string -> seq<byte>, sign: (Id, string) -> string)
    requires DirectoryValid(users) && !HasAccount(users, NormalEmail(g.email))
    ensures GoogleCallbackAsWritten(users, Some(g), newId, decode, sign) == Callback(AuthFailed, users)
  {
  }

  /** The callback with a new account given a password: the hash of a random
      secret nobody knows, so the account is usable only through Google. */
  function GoogleCallback(users: map<Id, User>, profile: Option<GoogleProfile>, newId: Id, secret: string,
                          decode: string -> seq<byte>, sign: (Id, string) -> string): (c: Callback)
    requires DirectoryValid(users)
    ensures c == GoogleCallbackWith(users, profile, newId, Some(BcryptOf(secret)), decode, sign)
    ensures profile.None? ==> c == Callback(AuthFailed, users)
    ensures profile.Some? && !HasAccount(users, NormalEmail(profile.value.email)) && c.redirect.SignedIn?
            ==> newId in c.users && c.users[newId].password == BcryptOf(secret)
                && c.users[newId].email == NormalEmail(profile.value.email)
  {
    GoogleCallbackWith(users, profile, newId, Some(BcryptOf(secret)), decode, sign)
  }

  /** With the correction, a new Google user with a usable name and a
      picture gets an account and is signed in with it. */
  lemma GoogleCallbackCreates(users: map<Id, User>, g: GoogleProfile, newId: Id, secret: string,
                              decode: string -> seq<byte>, sign: (Id, string) -> string)
    requires DirectoryValid(users) && !HasAccount(users, NormalEmail(g.email))
    requires g.picture.Some? && g.name.Some? && NameMin <= |Trim(g.name.value)| <= NameMax
    requires NormalEmail(g.email) != ""
    ensures var c := GoogleCallback(users, Some(g), newId, secret, decode, sign);
            && c.redirect.SignedIn? && newId in c.users
            && c.users[newId].email == NormalEmail(g.email) && c.users[newId].password == BcryptOf(secret)
            && c.redirect.user == ViewOf(c.users[newId])
  {
  }

  /** The corrected callback keeps the directory valid. */
  lemma GoogleCallbackKeepsDirectoryValid(users: map<Id, User>, profile: Option<GoogleProfile>, newId: Id,
                                          secret: string, decode: string -> seq<byte>, sign: (Id, string) -> string)
    requires DirectoryValid(users) && newId !in users
    ensures DirectoryValid(GoogleCallback(users, profile, newId, secret, decode, sign).users)
  {
    if profile.Some? {
      var g := profile.value;
      var e := NormalEmail(g.email);
      if HasAccount(users, e) {
        ExistingSignInKeepsDirectoryValid(users, ByEmail(users, e).value, g, decode, sign);
      } else {
        var c := CreateGoogleAccount(users, g, newId, Some(BcryptOf(secret)), decode, sign);
        if c.redirect.SignedIn? {
          var f := UserFields(g.name, Some(g.email), Some(BcryptOf(secret)),
                              Some(GoogleAvatar(g.picture.value, decode)));
          NewUserValid(newId, f);
          InsertKeepsDirectoryValid(users, NewUser(newId, f));
        }
      }
    }
  }
}
