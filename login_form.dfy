/** The sign-in pages of both front ends (Login.jsx in globetrotter and in
    globetrotter-your-next-adventure-main): their zod schemas, the request
    body the globetrotter page sends, how it handles the reply, and the
    your-next-adventure page's validation and mode toggle. zod's email
    check is the parameter `isEmail`. */
module LoginForm {
  import opened Common
  import opened Records
  import opened UserSchema
  import opened UserRoutes
  import opened FormErrors
  import opened AuthContext

  // ---------------------------------------------------------------------
  // globetrotter: schemas

  /** The globetrotter form's text fields. */
  datatype Credentials = Credentials(name: string, email: string, password: string, confirmPassword: string)

  const InvalidEmailAddress := "Please enter a valid email address"
  const PasswordTooShort := "Password must be at least 6 characters"
  const NameTooShortText := "Name must be at least 2 characters"
  const PasswordsDiffer := "Passwords don't match"

  /** `loginSchema`'s issues, in field order. */
  function LoginIssues(c: Credentials, isEmail: string -> bool): (issues: seq<Issue>)
    ensures issues == [] <==> isEmail(c.email) && |c.password| >= PasswordMin
    ensures forall i :: 0 <= i < |issues| ==> issues[i].path in {"email", "password"}
  {
    (if !isEmail(c.email) then [Issue("email", InvalidEmailAddress)] else [])
    + (if |c.password| < PasswordMin then [Issue("password", PasswordTooShort)] else [])
  }

  /** `signupSchema`'s issues: the login fields, the name (not trimmed),
      then the refinement, reported on `confirmPassword`. */
  function SignupIssues(c: Credentials, isEmail: string -> bool): (issues: seq<Issue>)
    ensures issues == [] <==> && LoginIssues(c, isEmail) == [] && |c.name| >= NameMin
                              && c.password == c.confirmPassword
    ensures c.password != c.confirmPassword ==> Issue("confirmPassword", PasswordsDiffer) in issues
  {
    var issues := LoginIssues(c, isEmail)
      + (if |c.name| < NameMin then [Issue("name", NameTooShortText)] else [])
      + (if c.password != c.confirmPassword then [Issue("confirmPassword", PasswordsDiffer)] else []);
    assert c.password != c.confirmPassword ==> issues[|issues| - 1] == Issue("confirmPassword", PasswordsDiffer);
    issues
  }

  // ---------------------------------------------------------------------
  // globetrotter: the request

  /** The JSON body `handleAuth` posts: never the confirmation. */
  datatype AuthRequest = LoginRequest(login: LoginBody) | SignupRequest(signup: SignupBody)

  function RequestOf(isLogin: bool, c: Credentials): (r: AuthRequest)
    ensures r.LoginRequest? <==> isLogin
  {
    if isLogin then LoginRequest(LoginBody(Some(c.email), Some(c.password)))
    else SignupRequest(SignupBody(Some(c.name), Some(c.email), Some(c.password)))
  }

  /** What the form accepts passes the server's first checks: a login is
      never refused for a missing field, and a signup is never refused for a
      missing field or a short password. */
  lemma AcceptedRequestPassesServerChecks(c: Credentials, isEmail: string -> bool)
    requires !isEmail("")
    ensures LoginIssues(c, isEmail) == [] ==>
              var b := RequestOf(true, c).login;
              Truthy(b.email) && Truthy(b.password) && b.email.value == c.email && b.password.value == c.password
    ensures SignupIssues(c, isEmail) == [] ==>
              var b := RequestOf(false, c).signup;
              && HasSignupFields(b) && |b.password.value| >= PasswordMin
              && b == SignupBody(Some(c.name), Some(c.email), Some(c.password))
  {
  }

  // ---------------------------------------------------------------------
  // globetrotter: the reply

  /** An error reply's JSON: the server sends `{ error }`. */
  datatype ErrorBody = ErrorBody(message: Option<string>, error: Option<string>)

  /** What `handleAuth` finds in a reply: on success the `user` and `token`
      fields destructured from the body, otherwise the error body. */
  datatype AuthResponse = Success(user: Option<UserView>, token: Option<string>) | Failure(body: ErrorBody)

  /** POST /login's reply as the page reads it. */
  function LoginResponse(r: Reply<Session>): (a: AuthResponse)
    ensures r.Ok? <==> a.Success?
    ensures r.Ok? ==> a == Success(Some(r.data.user), Some(r.data.token))
    ensures r.Err? ==> a.body.error == Some(r.error) && a.body.message.None?
  {
    match r
    case Ok(_, session) => Success(Some(session.user), Some(session.token))
    case Err(_, e) => Failure(ErrorBody(None, Some(e)))
  }

  /** POST /signup's reply as the page reads it: the body is the account
      itself, with neither a `user` nor a `token` field. */
  function SignupResponse(r: Reply<UserView>): (a: AuthResponse)
    ensures r.Ok? <==> a.Success?
    ensures r.Ok? ==> a == Success(None, None)
    ensures r.Err? ==> a.body.error == Some(r.error) && a.body.message.None?
  {
    match r
    case Ok(_, _) => Success(None, None)
    case Err(_, e) => Failure(ErrorBody(None, Some(e)))
  }

  datatype Toast = Toast(title: string, description: string, destructive: bool)

  function SuccessToast(isLogin: bool): (t: Toast)
    ensures !t.destructive
  {
    if isLogin then Toast("Welcome back!", "You have successfully logged in.", false)
    else Toast("Account created!", "Your account has been created successfully.", false)
  }

  /** The thrown error's message as written: the body's `message`. */
  function ErrorTextAsWritten(b: ErrorBody): (m: string)
    ensures m != ""
    ensures Truthy(b.message) ==> m == b.message.value
  {
    if Truthy(b.message) then b.message.value else "Authentication failed"
  }

  /** As written, no error the server sends reaches the user. */
  lemma ServerErrorHiddenAsWritten(r: Reply<Session>, s: Reply<UserView>)
    requires r.Err? && s.Err?
    ensures ErrorTextAsWritten(LoginResponse(r).body) == "Authentication failed"
    ensures ErrorTextAsWritten(SignupResponse(s).body) == "Authentication failed"
  {
  }

  /** The error text as intended: the server's `error`, then `message`. */
  function ErrorText(b: ErrorBody): (m: string)
    ensures m != ""
    ensures Truthy(b.error) ==> m == b.error.value
    ensures !Truthy(b.error) && Truthy(b.message) ==> m == b.message.value
  {
    if Truthy(b.error) then b.error.value
    else if Truthy(b.message) then b.message.value
    else "Authentication failed"
  }

  /** The server's error text is what the user is shown. */
  lemma ServerErrorShown(r: Reply<Session>, s: Reply<UserView>)
    ensures r.Err? && r.error != "" ==> ErrorText(LoginResponse(r).body) == r.error
    ensures s.Err? && s.error != "" ==> ErrorText(SignupResponse(s).body) == s.error
  {
  }

  /** `localStorage.setItem("token", token)`: an undefined token is stored as the text "undefined". */
  function TokenText(token: Option<string>): string {
    if token.Some? then token.value else "undefined"
  }

  /** `handleAuth` as written: on any successful reply it stores the record
      and the token, calls `login` without awaiting it, and toasts success. */
  function HandleAuthAsWrittenStep(s: AuthState, isLogin: bool, response: AuthResponse, now: string)
    : (r: (AuthState, Toast))
    ensures response.Failure? ==> r.0 == s && r.1.destructive
    ensures response.Success? ==> r.1 == SuccessToast(isLogin)
  {
    match response
    case Failure(b) => (s, Toast("Error", ErrorTextAsWritten(b), true))
    case Success(u, token) =>
      var stored := s.(local := s.local[AuthKey := Json(AuthRecord(u, token, now))][TokenKey := Text(TokenText(token))]);
      (LoginStep(stored, u, token, now).0, SuccessToast(isLogin))
  }

  /** A successful signup, as written, toasts "Account created!" while
      nobody is signed in: the stored record lacks user and token, the token
      key holds "undefined", and `login` has failed. A reload then clears it all. */
  lemma SignupToastsWithoutSessionAsWritten(s: AuthState, r: Reply<UserView>, now: string,
                                            refreshed: Option<UserView>, later: string)
    requires r.Ok?
    ensures var (t, toast) := HandleAuthAsWrittenStep(s, false, SignupResponse(r), now);
            && toast == Toast("Account created!", "Your account has been created successfully.", false)
            && t.user == s.user && t.error == Some(InvalidLoginData) && !IsAuthenticated(t.local)
            && TokenKey in t.local && t.local[TokenKey] == Text("undefined")
            && var u := InitStep(Reloaded(t), refreshed, later);
               AuthKey !in u.local && TokenKey !in u.local && u.user.None?
  {
    var t := HandleAuthAsWrittenStep(s, false, SignupResponse(r), now).0;
    assert t.local[AuthKey] == Json(AuthRecord(None, None, now));
    InitClearsIncomplete(Reloaded(t), AuthRecord(None, None, now), refreshed, later);
  }

  /** `handleAuth` as intended: the server's error text is shown, and a reply
      without a user and a token is a failure that stores nothing. */
  function HandleAuthStep(s: AuthState, isLogin: bool, response: AuthResponse, now: string)
    : (r: (AuthState, Toast))
    ensures response.Failure? ==> r == (s, Toast("Error", ErrorText(response.body), true))
    ensures response.Success? && response.user.Some? && Truthy(response.token) ==> r.1 == SuccessToast(isLogin)
  {
    match response
    case Failure(b) => (s, Toast("Error", ErrorText(b), true))
    case Success(u, token) =>
      if u.None? || !Truthy(token) then (s, Toast("Error", "Authentication failed", true))
      else
        var stored := s.(local := s.local[AuthKey := Json(AuthRecord(u, token, now))][TokenKey := Text(token.value)]);
        (LoginStep(stored, u, token, now).0, SuccessToast(isLogin))
  }

  /** With the intended handling a success toast means the user is signed in
      with the reply's account and token, and a reload keeps them signed in. */
  lemma SuccessMeansSignedIn(s: AuthState, isLogin: bool, response: AuthResponse, now: string,
                             refreshed: Option<UserView>, later: string)
    requires !HandleAuthStep(s, isLogin, response, now).1.destructive
    ensures response.Success? && response.user.Some? && Truthy(response.token)
    ensures var t := HandleAuthStep(s, isLogin, response, now).0;
            && t.user == Some(SignedInUser(response.user.value, response.token.value))
            && IsAuthenticated(t.local)
            && InitStep(Reloaded(t), refreshed, later).user.Some?
  {
    var u, token := response.user.value, response.token.value;
    var stored := s.(local := s.local[AuthKey := Json(AuthRecord(response.user, response.token, now))][TokenKey := Text(token)]);
    LoginAuthenticates(stored, u, token, now);
    ReloadRestoresLogin(stored, u, token, now, refreshed, later);
  }

  /** A successful login reply with a non-empty token signs the user in
      both as written and as intended, in the same state. */
  lemma LoginHandledAlike(s: AuthState, r: Reply<Session>, now: string)
    requires r.Ok? && r.data.token != ""
    ensures HandleAuthAsWrittenStep(s, true, LoginResponse(r), now) == HandleAuthStep(s, true, LoginResponse(r), now)
    ensures HandleAuthStep(s, true, LoginResponse(r), now).0.user == Some(SignedInUser(r.data.user, r.data.token))
  {
  }

  /** The page's `handleAuth` over the provider, as written. */
  method HandleAuthAsWritten(auth: AuthProvider, isLogin: bool, response: AuthResponse, now: string)
    returns (toast: Toast)
    modifies auth
    ensures (auth.State(), toast) == HandleAuthAsWrittenStep(old(auth.State()), isLogin, response, now)
  {
    match response
    case Failure(b) => toast := Toast("Error", ErrorTextAsWritten(b), true);
    case Success(u, token) =>
      auth.local := auth.local[AuthKey := Json(AuthRecord(u, token, now))];
      auth.local := auth.local[TokenKey := Text(TokenText(token))];
      var _ := auth.Login(u, token, now);
      toast := SuccessToast(isLogin);
  }

  /** The page's `handleAuth` over the provider, as intended. */
  method HandleAuth(auth: AuthProvider, isLogin: bool, response: AuthResponse, now: string)
    returns (toast: Toast)
    modifies auth
    ensures (auth.State(), toast) == HandleAuthStep(old(auth.State()), isLogin, response, now)
  {
    match response
    case Failure(b) => toast := Toast("Error", ErrorText(b), true);
    case Success(u, token) =>
      if u.None? || !Truthy(token) {
        return Toast("Error", "Authentication failed", true);
      }
      auth.local := auth.local[AuthKey := Json(AuthRecord(u, token, now))];
      auth.local := auth.local[TokenKey := Text(token.value)];
      var _ := auth.Login(u, token, now);
      toast := SuccessToast(isLogin);
  }

  // ---------------------------------------------------------------------
  // your-next-adventure: schemas, validation and the mode toggle

  /** The your-next-adventure form's text fields. */
  datatype SignInInput = SignInInput(email: string, password: string, name: string)

  const InvalidEmailShort := "Please enter a valid email"
  const NameTooLongText := "Name is too long"

  /** The values zod checks: the address and the name trimmed. */
  function Parsed(f: SignInInput): SignInInput {
    f.(email := Trim(f.email), name := Trim(f.name))
  }

  /** `loginSchema`'s checks on the parsed values. */
  function SignInChecks(p: SignInInput, isEmail: string -> bool): (issues: seq<Issue>)
    ensures issues == [] <==> isEmail(p.email) && |p.password| >= PasswordMin
    ensures PathsDistinct(issues) && Avoids(issues, "") && Avoids(issues, "name")
  {
    (if !isEmail(p.email) then [Issue("email", InvalidEmailShort)] else [])
    + (if |p.password| < PasswordMin then [Issue("password", PasswordTooShort)] else [])
  }

  /** `signupSchema`'s checks: also a name of 2 to 50 characters. */
  function RegisterChecks(p: SignInInput, isEmail: string -> bool): (issues: seq<Issue>)
    ensures issues == [] <==> SignInChecks(p, isEmail) == [] && NameMin <= |p.name| <= NameMax
    ensures PathsDistinct(issues) && Avoids(issues, "")
  {
    SignInChecks(p, isEmail)
    + (if |p.name| < NameMin then [Issue("name", NameTooShortText)]
       else if |p.name| > NameMax then [Issue("name", NameTooLongText)] else [])
  }

  /** The current mode's schema. */
  function ModeChecks(isLogin: bool, p: SignInInput, isEmail: string -> bool): seq<Issue> {
    if isLogin then SignInChecks(p, isEmail) else RegisterChecks(p, isEmail)
  }

  /** The form is accepted exactly when the trimmed address is an email, the
      password has six characters, and, in signup mode only, the trimmed name
      has 2 to 50. */
  lemma ModeAcceptance(isLogin: bool, f: SignInInput, isEmail: string -> bool)
    ensures ModeChecks(isLogin, Parsed(f), isEmail) == [] <==>
              && isEmail(Trim(f.email)) && |f.password| >= PasswordMin
              && (!isLogin ==> NameMin <= |Trim(f.name)| <= NameMax)
  {
  }

  /** The name is checked only in signup mode. */
  lemma LoginModeIgnoresName(f: SignInInput, isEmail: string -> bool, name: string)
    ensures ModeChecks(true, Parsed(f), isEmail) == ModeChecks(true, Parsed(f.(name := name)), isEmail)
  {
  }

  /** Each field gets at most one message, so every message of the current mode is shown. */
  lemma ModeIssuesShown(isLogin: bool, p: SignInInput, isEmail: string -> bool)
    ensures var issues := ModeChecks(isLogin, p, isEmail);
            forall i :: 0 <= i < |issues| ==>
              issues[i].path in ErrorMapOf(issues) && ErrorMapOf(issues)[issues[i].path] == issues[i].message
  {
    DistinctPathsAllKept(ModeChecks(isLogin, p, isEmail));
  }

  class SignInPage {
    var isLogin: bool
    const form: FieldErrors

    /** The page starts in login mode unless it was opened at /signup. */
    constructor (path: string)
      ensures isLogin == (path != "/signup")
      ensures fresh(form) && form.errors == map[]
    {
      isLogin := path != "/signup";
      form := new FieldErrors();
    }

    /** `validateForm` with the current mode's schema. */
    method ValidateForm(f: SignInInput, isEmail: string -> bool) returns (ok: bool)
      modifies form
      ensures ok <==> ModeChecks(isLogin, Parsed(f), isEmail) == []
      ensures form.errors == ErrorMapOf(ModeChecks(isLogin, Parsed(f), isEmail))
    {
      ok := form.Validate(ModeChecks(isLogin, Parsed(f), isEmail));
    }

    /** `handleSubmit`: nothing is sent, the page only moves on to the
      dashboard, and only when the form is valid. */
    method HandleSubmit(f: SignInInput, isEmail: string -> bool) returns (navigateTo: Option<string>)
      modifies form
      ensures navigateTo.Some? <==> ModeChecks(isLogin, Parsed(f), isEmail) == []
      ensures navigateTo.Some? ==> navigateTo.value == "/dashboard"
      ensures form.errors == ErrorMapOf(ModeChecks(isLogin, Parsed(f), isEmail))
    {
      var ok := ValidateForm(f, isEmail);
      if !ok {
        return None;
      }
      navigateTo := Some("/dashboard");
    }

    /** The "Sign up" / "Sign in" link: flips the mode and clears every error. */
    method ToggleMode()
      modifies this, form
      ensures isLogin == !old(isLogin) && form.errors == map[]
    {
      isLogin := !isLogin;
      form.Clear();
    }
  }
}
