/** The User schema (backend/models/User.js): the stored account, its defaults,
    the normalisation applied to `name` and `email`, and the validators that
    run when an account is created or its profile is updated. */
module UserSchema {
  import opened Common
  import opened Records

  /** A bcrypt hash. Only what the routes rely on is modelled: comparing a
      candidate with the hash succeeds exactly for the secret that was hashed,
      and the stored text is 60 characters long whatever the secret. */
  datatype PasswordHash = BcryptOf(secret: string)

  const BcryptHashLength := 60

  /** `bcrypt.compare(candidate, hash)` */
  predicate HashMatches(candidate: string, h: PasswordHash) {
    candidate == h.secret
  }

  /** The values the `profileVisibility` enum admits. */
  predicate IsVisibility(s: string) {
    s == "public" || s == "friends" || s == "private"
  }

  datatype User = User(
    id: Id,
    name: string,
    email: string,
    password: PasswordHash,
    avatar: Option<Image>,
    location: string,
    bio: string,
    trips: int,
    countries: int,
    friends: int,
    profileVisibility: string,
    showEmail: bool,
    showLocation: bool)

  const NameMin := 2
  const NameMax := 50
  const PasswordMin := 6
  const LocationMax := 100
  const BioMax := 500

  /** The `email` path's setters: trimmed and lower-cased, when it is stored
      and when it is used in a query. */
  function NormalEmail(email: string): (r: string)
    ensures |r| <= |email|
    ensures IsNormalEmail(r)
  {
    var t := Trim(email);
    LowerOfTrimmed(t);
    ToLowerAscii(t)
  }

  /** Lower-casing trimmed text gives a stored address. */
  lemma LowerOfTrimmed(t: string)
    requires IsTrimmed(t)
    ensures IsNormalEmail(ToLowerAscii(t))
  {
    var l := ToLowerAscii(t);
    if t != [] {
      LowerCharFacts(t[0]);
      LowerCharFacts(t[|t| - 1]);
    }
    forall i | 0 <= i < |l| ensures !('A' <= l[i] <= 'Z') {
      LowerCharFacts(t[i]);
    }
  }

  /** A stored address: trimmed, with no upper-case ASCII letter. */
  predicate IsNormalEmail(s: string) {
    IsTrimmed(s) && forall i :: 0 <= i < |s| ==> !('A' <= s[i] <= 'Z')
  }

  /** Normalising twice is normalising once, so a stored address finds itself. */
  lemma NormalEmailIdempotent(email: string)
    ensures NormalEmail(NormalEmail(email)) == NormalEmail(email)
  {
    StoredEmailIsNormal(NormalEmail(email));
  }

  /** A stored address is its own normal form. */
  lemma StoredEmailIsNormal(s: string)
    requires IsNormalEmail(s)
    ensures NormalEmail(s) == s
  {
    TrimOfTrimmed(s);
    assert ToLowerAscii(s) == s by {
      assert forall i :: 0 <= i < |s| ==> ToLowerAscii(s)[i] == LowerChar(s[i]) == s[i];
    }
  }

  /** Addresses that differ only in letter case or surrounding spaces are the
      same account. */
  lemma NormalEmailIgnoresCaseAndPadding(email: string, pad: string)
    requires forall i :: 0 <= i < |pad| ==> IsJsSpace(pad[i])
    ensures NormalEmail(pad + email + pad) == NormalEmail(email)
    ensures NormalEmail(ToLowerAscii(email)) == NormalEmail(email)
  {
    TrimPadded(email, pad);
    LowerThenTrim(email);
  }

  /** Lower-casing and trimming commute, since no ASCII letter is whitespace. */
  lemma LowerThenTrim(s: string)
    ensures ToLowerAscii(Trim(ToLowerAscii(s))) == ToLowerAscii(Trim(s))
  {
    LowerTrimStart(s);
    LowerTrimEnd(TrimStart(s));
    ToLowerIdempotent(Trim(s));
  }

  lemma {:induction false} LowerTrimStart(s: string)
    ensures TrimStart(ToLowerAscii(s)) == ToLowerAscii(TrimStart(s))
    decreases |s|
  {
    var l := ToLowerAscii(s);
    if s != [] {
      assert l[0] == LowerChar(s[0]);
      assert IsJsSpace(l[0]) <==> IsJsSpace(s[0]);
      if IsJsSpace(s[0]) {
        assert l[1..] == ToLowerAscii(s[1..]);
        LowerTrimStart(s[1..]);
      }
    }
  }

  lemma {:induction false} LowerTrimEnd(s: string)
    ensures TrimEnd(ToLowerAscii(s)) == ToLowerAscii(TrimEnd(s))
    decreases |s|
  {
    if s != [] {
      var l := ToLowerAscii(s);
      var init := s[..|s| - 1];
      LowerOfInit(s);
      LowerCharFacts(s[|s| - 1]);
      TrimEndStep(s);
      TrimEndStep(l);
      LowerTrimEnd(init);
    }
  }

  /** One step of `trimEnd`. */
  lemma TrimEndStep(s: string)
    requires s != []
    ensures TrimEnd(s) == if IsJsSpace(s[|s| - 1]) then TrimEnd(s[..|s| - 1]) else s
  {
  }

  lemma LowerOfInit(s: string)
    requires s != []
    ensures ToLowerAscii(s)[..|s| - 1] == ToLowerAscii(s[..|s| - 1])
  {
  }

  // ---------------------------------------------------------------------
  // Creation

  /** The fields handed to `User.create`. */
  datatype UserFields = UserFields(
    name: Option<string>,
    email: Option<string>,
    password: Option<PasswordHash>,
    avatar: Option<Image>)

  function NameErrors(name: Option<string>): (r: seq<string>)
    ensures |r| <= 1
    ensures r == [] <==> name.Some? && NameMin <= |Trim(name.value)| <= NameMax
  {
    if name.None? || Trim(name.value) == "" then ["Path `name` is required."]
    else if |Trim(name.value)| < NameMin then ["Name must be at least 2 characters long"]
    else if |Trim(name.value)| > NameMax then ["Name cannot exceed 50 characters"]
    else []
  }

  function EmailErrors(email: Option<string>): (r: seq<string>)
    ensures r == [] <==> email.Some? && NormalEmail(email.value) != ""
  {
    if email.None? || NormalEmail(email.value) == "" then ["Path `email` is required."] else []
  }

  /** `minlength` is checked on the stored text, which is always a hash. */
  function PasswordErrors(password: Option<PasswordHash>): (r: seq<string>)
    ensures r == [] <==> password.Some?
  {
    if password.None? then ["Path `password` is required."]
    else if BcryptHashLength < PasswordMin then ["Password must be at least 6 characters long"]
    else []
  }

  predicate UserAcceptable(f: UserFields) {
    && f.name.Some? && NameMin <= |Trim(f.name.value)| <= NameMax
    && f.email.Some? && NormalEmail(f.email.value) != ""
    && f.password.Some?
  }

  /** The messages of the ValidationError `User.create` raises; the defaulted
      fields always satisfy their validators. */
  function ValidateUser(f: UserFields): (errs: seq<string>)
    ensures errs == [] <==> UserAcceptable(f)
    ensures f.password.None? ==> "Path `password` is required." in errs
  {
    var n, e, p := NameErrors(f.name), EmailErrors(f.email), PasswordErrors(f.password);
    n + e + p
  }

  /** The document `User.create` stores for acceptable fields: normalised name
      and email, and every other field at its schema default. */
  function NewUser(id: Id, f: UserFields): (u: User)
    requires UserAcceptable(f)
    ensures u.id == id && u.password == f.password.value && u.avatar == f.avatar
    ensures u.name == Trim(f.name.value) && u.email == NormalEmail(f.email.value)
    ensures u.location == "" && u.bio == ""
    ensures u.trips == 0 && u.countries == 0 && u.friends == 0
    ensures u.profileVisibility == "public" && !u.showEmail && u.showLocation
  {
    User(id, Trim(f.name.value), NormalEmail(f.email.value), f.password.value, f.avatar,
         "", "", 0, 0, 0, "public", false, true)
  }

  /** Every stored account satisfies the schema. */
  ghost predicate UserValid(u: User) {
    && NameMin <= |u.name| <= NameMax && IsTrimmed(u.name)
    && u.email != "" && IsNormalEmail(u.email)
    && |u.location| <= LocationMax && |u.bio| <= BioMax
    && IsVisibility(u.profileVisibility)
  }

  lemma NewUserValid(id: Id, f: UserFields)
    requires UserAcceptable(f)
    ensures UserValid(NewUser(id, f))
  {
  }

  // ---------------------------------------------------------------------
  // Profile updates (`findByIdAndUpdate` with `runValidators: true`)

  /** The paths a profile update sets; `None` leaves a path alone. */
  datatype ProfileUpdate = ProfileUpdate(
    name: Option<string>,
    location: Option<string>,
    bio: Option<string>,
    profileVisibility: Option<string>,
    showEmail: Option<bool>,
    showLocation: Option<bool>)

  /** Update validators run only on the paths the update sets. */
  function ValidateProfileUpdate(p: ProfileUpdate): (errs: seq<string>)
    ensures errs == [] <==> ProfileUpdateAcceptable(p)
  {
    var n := if p.name.Some? then NameErrors(p.name) else [];
    var l := if p.location.Some? && |p.location.value| > LocationMax
             then ["Location cannot exceed 100 characters"] else [];
    var b := if p.bio.Some? && |p.bio.value| > BioMax then ["Bio cannot exceed 500 characters"] else [];
    var v := if p.profileVisibility.Some? && !IsVisibility(p.profileVisibility.value)
             then ["`" + p.profileVisibility.value + "` is not a valid enum value for path `profileVisibility`."]
             else [];
    n + l + b + v
  }

  predicate ProfileUpdateAcceptable(p: ProfileUpdate) {
    && (p.name.Some? ==> NameMin <= |Trim(p.name.value)| <= NameMax)
    && (p.location.Some? ==> |p.location.value| <= LocationMax)
    && (p.bio.Some? ==> |p.bio.value| <= BioMax)
    && (p.profileVisibility.Some? ==> IsVisibility(p.profileVisibility.value))
  }

  /** The stored account after an update: each set path replaced (the name
      trimmed), every other field kept. */
  function ApplyProfileUpdate(u: User, p: ProfileUpdate): (r: User)
    ensures r.id == u.id && r.email == u.email && r.password == u.password && r.avatar == u.avatar
    ensures r.trips == u.trips && r.countries == u.countries && r.friends == u.friends
    ensures r.name == (if p.name.Some? then Trim(p.name.value) else u.name)
    ensures r.location == p.location.GetOr(u.location) && r.bio == p.bio.GetOr(u.bio)
    ensures r.profileVisibility == p.profileVisibility.GetOr(u.profileVisibility)
    ensures r.showEmail == p.showEmail.GetOr(u.showEmail)
    ensures r.showLocation == p.showLocation.GetOr(u.showLocation)
  {
    u.(name := if p.name.Some? then Trim(p.name.value) else u.name,
       location := p.location.GetOr(u.location),
       bio := p.bio.GetOr(u.bio),
       profileVisibility := p.profileVisibility.GetOr(u.profileVisibility),
       showEmail := p.showEmail.GetOr(u.showEmail),
       showLocation := p.showLocation.GetOr(u.showLocation))
  }

  /** An update that passes its validators keeps a valid account valid. */
  lemma ProfileUpdatePreservesValid(u: User, p: ProfileUpdate)
    requires UserValid(u) && ProfileUpdateAcceptable(p)
    ensures UserValid(ApplyProfileUpdate(u, p))
  {
  }
}
