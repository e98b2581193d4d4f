/** `AuthController`: `check-login`, `login` and `verify-credentials`,
    and `GlobalExceptionHandler`, which turns the controller's
    `AuthenticationException` into a 401 with the message as body. What
    the `AuthenticationManager` decides about a pair of credentials is a
    parameter. */
module Auth {
  import opened Common
  import opened Http
  import opened Security
  import opened Jwt
  import opened Users
  import SecurityRules
  import Roles

  /** `AuthRequest`; `rememberMe` is a boxed `Boolean` and may be `null`. */
  datatype AuthRequest = AuthRequest(email: Option<string>, password: Option<string>, rememberMe: Option<bool>)

  /** `AuthResponse(userEmail, role)`. */
  datatype AuthResponse = AuthResponse(email: Option<string>, role: Option<string>)

  /** What `authenticationManager.authenticate` did with the request's
      credentials: returned an authentication whose principal is the given
      `UserDetails`, or threw `DisabledException` or
      `BadCredentialsException`. */
  datatype AuthOutcome = Authenticated(principal: UserDetails) | Disabled | BadCredentials

  /** Cookie lifetimes of `login`, in seconds. */
  const OneDaySeconds: int := 24 * 60 * 60
  const SevenDaysSeconds: int := 7 * 24 * 60 * 60

  /** `GlobalExceptionHandler.handleAuthenticationException`. */
  function HandleAuthenticationException(message: string): (r: HttpReply<string>)
    ensures r.status == 401 && r.body == Some(message)
  {
    HttpReply(401, Some(message))
  }

  /** The message `login` wraps a failed authentication in. */
  function FailureMessage(o: AuthOutcome): (m: string)
    requires !o.Authenticated?
    ensures m == "USER_DISABLED" <==> o.Disabled?
    ensures m == "Invalid credentials" <==> o.BadCredentials?
  {
    if o.Disabled? then "USER_DISABLED" else "Invalid credentials"
  }

  /** `checkLogin`: the principal is the authentication's `UserDetails`,
      or `null` for a request nobody authenticated. */
  function CheckLogin(auth: Option<Authentication>, users: seq<UserRecord>): (r: HttpReply<AuthResponse>)
    ensures r.status == 401 <==> auth.None?
    ensures r.status == 401 ==> r.body.None?
    ensures r.status != 401 ==>
      r.status == 200 && r.body == Some(AuthResponse(Some(auth.value.Name()), GetUserRole(users, auth.value.Name())))
  {
    match auth
    case None => HttpReply(401, None)
    case Some(a) =>
      var email := a.principal.username;
      HttpReply(200, Some(AuthResponse(Some(email), GetUserRole(users, email))))
  }

  /** The cookie max-age of `login`: seven days only when `rememberMe` is
      literally `true`; one day when it is `false` or `null`. */
  function LoginMaxAge(rememberMe: Option<bool>): (s: int)
    ensures s == SevenDaysSeconds <==> rememberMe == Some(true)
    ensures s == OneDaySeconds <==> rememberMe != Some(true)
  {
    if rememberMe.Some? && rememberMe.value then 7 * 24 * 60 * 60 else 24 * 60 * 60
  }

  /** The `token` cookie `login` sets. */
  function LoginCookie(token: string, rememberMe: Option<bool>): (c: ResponseCookie)
    ensures c.name == "token" && c.value == token && c.maxAge == LoginMaxAge(rememberMe)
    ensures c.httpOnly && c.secure && c.sameSite == "None" && c.path == "/"
  {
    ResponseCookie("token", token, true, true, "None", "/", LoginMaxAge(rememberMe))
  }

  /** `login`. `outcome` is what the authentication manager decided,
      `sign` stands for JJWT's signing with the configured key and
      `nowMillis` for the clock. An authenticated request names a stored
      user: the manager loads users from the same table. On success the
      authentication goes into the context, a token for the user loaded
      afresh goes into the `token` cookie, and the body carries the e-mail
      as sent and the stored role. On failure the `AuthenticationException`
      message comes back as `Failure`, and neither the context nor the
      response is touched. */
  method Login(req: AuthRequest, outcome: AuthOutcome, users: seq<UserRecord>, ctx: SecurityContext,
               res: ServletResponse, sign: Claims -> string, nowMillis: int)
    returns (r: Result<HttpReply<AuthResponse>, string>)
    requires outcome.Authenticated? ==> req.email.Some? && LoadUserByUsername(users, req.email.value).Some?
    modifies ctx, res
    ensures outcome.Authenticated? ==>
      && ctx.authentication == Some(Authentication(outcome.principal, true))
      && res.setCookie == Some(LoginCookie(sign(IssueClaims(LoadUserByUsername(users, req.email.value).value, nowMillis)),
                                           req.rememberMe))
      && r == Success(HttpReply(200, Some(AuthResponse(req.email, GetUserRole(users, req.email.value)))))
    ensures !outcome.Authenticated? ==>
      && r == Failure(FailureMessage(outcome))
      && ctx.authentication == old(ctx.authentication)
      && res.setCookie == old(res.setCookie)
    ensures res.status == old(res.status)
  {
    match outcome {
      case Disabled =>
        r := Failure("USER_DISABLED");
      case BadCredentials =>
        r := Failure("Invalid credentials");
      case Authenticated(principal) =>
        ctx.authentication := Some(Authentication(principal, true));
        var details := LoadUserByUsername(users, req.email.value).value;
        var token := sign(IssueClaims(details, nowMillis));
        var role := GetUserRole(users, req.email.value);
        var maxAge := if req.rememberMe.Some? && req.rememberMe.value then 7 * 24 * 60 * 60 else 24 * 60 * 60;
        res.setCookie := Some(ResponseCookie("token", token, true, true, "None", "/", maxAge));
        r := Success(HttpReply(200, Some(AuthResponse(req.email, role))));
    }
  }

  /** `verifyCredentials`: 200 on every path, `true` exactly when the
      manager authenticated; nothing else is touched. */
  function VerifyCredentials(outcome: AuthOutcome): (r: HttpReply<bool>)
    ensures r.status == 200
    ensures r.body == Some(true) <==> outcome.Authenticated?
    ensures r.body == Some(false) <==> !outcome.Authenticated?
  {
    match outcome
    case Authenticated(_) => HttpReply(200, Some(true))
    case Disabled => HttpReply(200, Some(false))
    case BadCredentials => HttpReply(200, Some(false))
  }

  // ---------------------------------------------------------------------
  // Properties
  // ---------------------------------------------------------------------

  /** The logout cookie is the login cookie, whatever its token and
      lifetime, emptied and expired: same name, path and attributes, so the
      browser replaces it. */
  lemma LogoutReplacesLoginCookie(token: string, rememberMe: Option<bool>)
    ensures SecurityRules.LogoutCookie() == LoginCookie(token, rememberMe).(value := "", maxAge := 0)
  {
  }
}
