/** The account routes acting on the `users` collection: each route is a
    method on the directory whose reply is the one `UserRoutes` decides and
    whose effect on the collection is exactly the route's write. */
module Accounts {
  import opened Common
  import opened Records
  import opened UserSchema
  import opened UserRoutes

  class UserDirectory {
    var users: map<Id, User>

    ghost predicate Valid()
      reads this
    {
      DirectoryValid(users)
    }

    constructor ()
      ensures Valid() && users == map[]
    {
      users := map[];
    }

    /** `User.findOne({ email })`: a scan for the one account with that address. */
    method FindByEmail(email: string) returns (found: Option<Id>)
      requires Valid()
      ensures found == ByEmail(users, email)
    {
      found := None;
      var pending := users.Keys;
      while pending != {} && found.None?
        invariant pending <= users.Keys
        invariant found.None? ==> forall k :: k in users && k !in pending ==> users[k].email != email
        invariant found.Some? ==> found.value in users && users[found.value].email == email
        decreases pending
      {
        var k :| k in pending;
        if users[k].email == email {
          found := Some(k);
        }
        pending := pending - {k};
      }
      var expected := ByEmail(users, email);
      if found.Some? {
        assert HasAccount(users, email);
        assert expected.Some? && users[expected.value].email == email;
      } else {
        assert !HasAccount(users, email);
      }
    }

    /** POST /signup */
    method Signup(b: SignupBody, newId: Id) returns (r: Reply<UserView>)
      requires Valid() && IsCanonicalId(newId) && newId !in users
      modifies this
      ensures Valid()
      ensures r == SignupReply(old(users), b, newId)
      ensures users == if r.Ok? then old(users)[newId := SignedUp(b, newId)] else old(users)
    {
      if !HasSignupFields(b) {
        return Err(400, MissingSignupFields);
      }
      if |b.password.value| < PasswordMin {
        return Err(400, ShortPassword);
      }
      var existing := FindByEmail(NormalEmail(b.email.value));
      if existing.Some? {
        return Err(400, UserExists);
      }
      var fields := SignupFields(b);
      if ValidateUser(fields) != [] {
        return Err(500, SignupServerError);
      }
      SignupKeepsDirectoryValid(users, b, newId);
      var u := NewUser(newId, fields);
      users := users[newId := u];
      r := Ok(201, ViewOf(u));
    }

    /** POST /login */
    method Login(b: LoginBody, sign: (Id, string) -> string) returns (r: Reply<Session>)
      requires Valid()
      ensures r == LoginReply(users, b, sign)
    {
      if !(Truthy(b.email) && Truthy(b.password)) {
        return Err(400, MissingLoginFields);
      }
      var found := FindByEmail(NormalEmail(b.email.value));
      match found
      case None =>
        r := Err(400, InvalidCredentials);
      case Some(k) =>
        var u := users[k];
        if !HashMatches(b.password.value, u.password) {
          r := Err(400, InvalidCredentials);
        } else {
          r := Ok(200, Session(ViewOf(u), sign(u.id, u.email)));
        }
    }

    /** GET /profile */
    method Profile(header: Option<string>, verify: string -> Option<string>) returns (r: Reply<UserView>)
      requires Valid()
      ensures r == GetProfileReply(users, header, verify)
    {
      var a := Authenticate(header, verify);
      var failure := AuthFailure(a, ProfileFetchError);
      if failure.Some? {
        return failure.value;
      }
      var k := CastId(a.userId);
      if k !in users {
        return Err(404, UserNotFound);
      }
      r := Ok(200, ViewOf(users[k]));
    }

    /** PUT /profile */
    method UpdateProfile(header: Option<string>, verify: string -> Option<string>, b: ProfileBody)
      returns (r: Reply<UserView>)
      requires Valid()
      modifies this
      ensures Valid()
      ensures r == UpdateProfileReply(old(users), header, verify, b)
      ensures users == if r.Ok? then var k := CastId(Authenticate(header, verify).userId);
                                     old(users)[k := ApplyProfileUpdate(old(users)[k], UpdateDataOf(b))]
                       else old(users)
    {
      var a := Authenticate(header, verify);
      var failure := AuthFailure(a, ProfileUpdateError);
      if failure.Some? {
        return failure.value;
      }
      var k := CastId(a.userId);
      var p := UpdateDataOf(b);
      if ValidateProfileUpdate(p) != [] {
        return Err(500, ProfileUpdateError);
      }
      if k !in users {
        return Err(404, UserNotFound);
      }
      ProfileUpdateKeepsDirectoryValid(users, k, p);
      var u := ApplyProfileUpdate(users[k], p);
      users := users[k := u];
      r := Ok(200, ViewOf(u));
    }

    /** PUT /avatar */
    method UpdateAvatar(header: Option<string>, verify: string -> Option<string>, file: Option<Upload>)
      returns (r: Reply<UserView>)
      requires Valid()
      modifies this
      ensures Valid()
      ensures r == AvatarReply(old(users), header, verify, file)
      ensures users == if r.Ok? then var k := CastId(Authenticate(header, verify).userId);
                                     old(users)[k := old(users)[k].(avatar := Some(ImageOf(file.value)))]
                       else old(users)
    {
      var rejected := UploadFailure(file);
      if rejected.Some? {
        return rejected.value;
      }
      var a := Authenticate(header, verify);
      if a.Anonymous? {
        return Err(401, NoToken);
      }
      if a.Rejected? {
        return Err(500, AvatarUpdateError);
      }
      if file.None? {
        return Err(400, NoFileUploaded);
      }
      if !IsValidId(a.userId) {
        return Err(500, AvatarUpdateError);
      }
      var k := CastId(a.userId);
      if k !in users {
        return Err(404, UserNotFound);
      }
      var u := users[k].(avatar := Some(ImageOf(file.value)));
      AvatarKeepsDirectoryValid(users, k, Some(ImageOf(file.value)));
      users := users[k := u];
      r := Ok(200, ViewOf(u));
    }

    /** PUT /password */
    method ChangePassword(header: Option<string>, verify: string -> Option<string>, b: PasswordBody)
      returns (r: Reply<string>)
      requires Valid()
      modifies this
      ensures Valid()
      ensures r == ChangePasswordReply(old(users), header, verify, b)
      ensures users == if r.Ok? then var k := CastId(Authenticate(header, verify).userId);
                                     old(users)[k := old(users)[k].(password := BcryptOf(b.newPassword.value))]
                       else old(users)
    {
      r := ChangePasswordReply(users, header, verify, b);
      if r.Ok? {
        var k := CastId(Authenticate(header, verify).userId);
        PasswordKeepsDirectoryValid(users, k, BcryptOf(b.newPassword.value));
        users := users[k := users[k].(password := BcryptOf(b.newPassword.value))];
      }
    }

    /** GET /auth/google/callback; `profile` is what the code exchange and
        the userinfo call yield, `None` when either fails. */
    method GoogleSignIn(profile: Option<GoogleProfile>, newId: Id, secret: string,
                        decode: string -> seq<byte>, sign: (Id, string) -> string) returns (redirect: Redirect)
      requires Valid() && IsCanonicalId(newId) && newId !in users
      modifies this
      ensures Valid()
      ensures Callback(redirect, users) == GoogleCallback(old(users), profile, newId, secret, decode, sign)
    {
      GoogleCallbackKeepsDirectoryValid(users, profile, newId, secret, decode, sign);
      var c := GoogleCallback(users, profile, newId, secret, decode, sign);
      redirect, users := c.redirect, c.users;
    }
  }
}
