/** `JwtRequestFilter`: per-request identity resolution. A bypassed
    request passes straight on; otherwise the token is taken from the
    `token` cookie or, only when there is no such cookie, from an
    `Authorization: Bearer ` header, and an authentication is written into
    the context only when the context is empty, the token parses, its
    subject names a stored user and the token validates. Every failure
    leaves the context as it was, and the rest of the chain runs exactly
    once. */
module RequestFilter {
  import opened Common
  import opened Http
  import opened Security
  import opened Jwt
  import Users
  import Roles

  /** `shouldNotFilter`'s URI prefixes. */
  const BypassPrefixes: seq<string> := ["/login", "/auth/refresh", "/public/", "/assets/", "/health"]

  /** `"OPTIONS".equalsIgnoreCase(request.getMethod())`. */
  predicate IsPreflight(req: HttpRequest): (b: bool)
    ensures b <==> |req.verb| == 7 && forall i :: 0 <= i < 7 ==> UpperChar(req.verb[i]) == "OPTIONS"[i]
  {
    EqualsIgnoreCase(req.verb, "OPTIONS")
  }

  /** `shouldNotFilter`: pre-flight requests and a raw prefix test on the URI. */
  predicate ShouldNotFilter(req: HttpRequest): (b: bool)
    ensures b <==> IsPreflight(req) || StartsWith(req.uri, "/login") || StartsWith(req.uri, "/auth/refresh")
                   || StartsWith(req.uri, "/public/") || StartsWith(req.uri, "/assets/") || StartsWith(req.uri, "/health")
  {
    assert BypassPrefixes[0] == "/login" && BypassPrefixes[1] == "/auth/refresh" && BypassPrefixes[2] == "/public/"
      && BypassPrefixes[3] == "/assets/" && BypassPrefixes[4] == "/health";
    IsPreflight(req) || exists i :: 0 <= i < |BypassPrefixes| && StartsWith(req.uri, BypassPrefixes[i])
  }

  /** The value of the first cookie called `name`. */
  function FirstCookie(cookies: seq<Cookie>, name: string): (r: Option<string>)
    ensures r.None? <==> forall i :: 0 <= i < |cookies| ==> cookies[i].name != name
    ensures r.Some? ==>
      exists i :: (0 <= i < |cookies| && cookies[i].name == name && cookies[i].value == r.value
                   && forall j :: 0 <= j < i ==> cookies[j].name != name)
  {
    if cookies == [] then None
    else if cookies[0].name == name then Some(cookies[0].value)
    else
      var r := FirstCookie(cookies[1..], name);
      assert forall i :: 1 <= i < |cookies| ==> cookies[i] == cookies[1..][i - 1];
      r
  }

  /** `readCookie`: no cookies at all reads as no such cookie. */
  function ReadCookie(req: HttpRequest, name: string): (r: Option<string>)
    ensures r.None? <==> req.cookies.None? || forall i :: 0 <= i < |req.cookies.value| ==> req.cookies.value[i].name != name
    ensures r.Some? ==>
      exists i :: (0 <= i < |req.cookies.value| && req.cookies.value[i].name == name && req.cookies.value[i].value == r.value
                   && forall j :: 0 <= j < i ==> req.cookies.value[j].name != name)
  {
    if req.cookies.None? then None else FirstCookie(req.cookies.value, name)
  }

  /** The header branch: `authz.startsWith("Bearer ")` (case-sensitive),
      then `authz.substring(7)`. */
  function BearerToken(authorization: Option<string>): (r: Option<string>)
    ensures r.Some? <==> authorization.Some? && StartsWith(authorization.value, "Bearer ")
    ensures r.Some? ==> authorization.value == "Bearer " + r.value
  {
    if authorization.Some? && StartsWith(authorization.value, "Bearer ") then
      var t := authorization.value[7..];
      assert authorization.value == authorization.value[..7] + t;
      Some(t)
    else None
  }

  /** The token `doFilterInternal` works with: the `token` cookie when there
      is one, whatever it holds; only otherwise the bearer header. */
  function ResolveToken(req: HttpRequest): (r: Option<string>)
    ensures ReadCookie(req, "token").Some? ==> r == ReadCookie(req, "token")
    ensures ReadCookie(req, "token").None? ==> r == BearerToken(req.authorization)
  {
    var jwt := ReadCookie(req, "token");
    if jwt.None? then BearerToken(req.authorization) else jwt
  }

  /** What `doFilterInternal` leaves in the context that held `current`.
      `parse` stands for JJWT; `None` from it, or from the user lookup, is
      an exception the filter swallows. */
  function ResolveAuthentication(req: HttpRequest, current: Option<Authentication>, users: seq<Users.UserRecord>,
                                 parse: TokenParser, nowMillis: int): (r: Option<Authentication>)
    ensures current.Some? || IsPreflight(req) ==> r == current
    ensures r != current <==>
      && !IsPreflight(req) && current.None? && ResolveToken(req).Some?
      && parse(ResolveToken(req).value).Some? && parse(ResolveToken(req).value).value.subject.Some?
      && Users.LoadUserByUsername(users, parse(ResolveToken(req).value).value.subject.value).Some?
      && ValidateToken(parse(ResolveToken(req).value).value,
                       Users.LoadUserByUsername(users, parse(ResolveToken(req).value).value.subject.value).value, nowMillis)
    ensures r != current ==>
      r == Some(Authentication(Users.LoadUserByUsername(users, parse(ResolveToken(req).value).value.subject.value).value, true))
  {
    if IsPreflight(req) then current
    else
      var jwt := ResolveToken(req);
      if jwt.None? || current.Some? then current
      else
        match parse(jwt.value)
        case None => current
        case Some(claims) =>
          match claims.subject
          case None => current
          case Some(email) =>
            match Users.LoadUserByUsername(users, email)
            case None => current
            case Some(details) =>
              if ValidateToken(claims, details, nowMillis) then Some(Authentication(details, true)) else current
  }

  /** `doFilterInternal`: the context is changed only as
      `ResolveAuthentication` says, and the chain is invoked once. */
  method DoFilterInternal(req: HttpRequest, ctx: SecurityContext, users: seq<Users.UserRecord>,
                          parse: TokenParser, nowMillis: int) returns (chainCalls: nat)
    modifies ctx
    ensures chainCalls == 1
    ensures ctx.authentication == ResolveAuthentication(req, old(ctx.authentication), users, parse, nowMillis)
  {
    chainCalls := 0;
    if IsPreflight(req) {
      chainCalls := chainCalls + 1;
      return;
    }
    var jwt := ReadCookie(req, "token");
    if jwt.None? {
      var authz := req.authorization;
      if authz.Some? && StartsWith(authz.value, "Bearer ") {
        jwt := Some(authz.value[7..]);
      }
    }
    if jwt.Some? && ctx.authentication.None? {
      var claims := parse(jwt.value);
      if claims.Some? && claims.value.subject.Some? {
        var email := claims.value.subject.value;
        var details := Users.LoadUserByUsername(users, email);
        if details.Some? {
          var valid := ValidateToken(claims.value, details.value, nowMillis);
          if valid {
            ctx.authentication := Some(Authentication(details.value, true));
          }
        }
      }
    }
    chainCalls := chainCalls + 1;
  }

  /** `OncePerRequestFilter.doFilter`: a request `shouldNotFilter` accepts
      skips `doFilterInternal` altogether. */
  function FilterOutcome(req: HttpRequest, current: Option<Authentication>, users: seq<Users.UserRecord>,
                         parse: TokenParser, nowMillis: int): (r: Option<Authentication>)
    ensures ShouldNotFilter(req) ==> r == current
    ensures current.Some? ==> r == current
    ensures !ShouldNotFilter(req) ==> r == ResolveAuthentication(req, current, users, parse, nowMillis)
  {
    if ShouldNotFilter(req) then current else ResolveAuthentication(req, current, users, parse, nowMillis)
  }

  method DoFilter(req: HttpRequest, ctx: SecurityContext, users: seq<Users.UserRecord>,
                  parse: TokenParser, nowMillis: int) returns (chainCalls: nat)
    modifies ctx
    ensures chainCalls == 1
    ensures ctx.authentication == FilterOutcome(req, old(ctx.authentication), users, parse, nowMillis)
  {
    if ShouldNotFilter(req) {
      chainCalls := 1;
    } else {
      chainCalls := DoFilterInternal(req, ctx, users, parse, nowMillis);
    }
  }

  // ---------------------------------------------------------------------
  // Properties
  // ---------------------------------------------------------------------

  /** The header `"Bearer " + t` carries exactly `t`; the scheme is matched
      case-sensitively, so `"bearer " + t` carries nothing. */
  lemma BearerRoundTrip(t: string)
    ensures BearerToken(Some("Bearer " + t)) == Some(t)
    ensures BearerToken(Some("bearer " + t)).None?
  {
    assert ("Bearer " + t)[..7] == "Bearer ";
    assert ("bearer " + t)[0] != 'B';
  }

  /** A `token` cookie, even one holding an invalid token, shadows the
      header: the outcome is the same whatever `Authorization` says. */
  lemma CookieShadowsHeader(req: HttpRequest, header: Option<string>, current: Option<Authentication>,
                            users: seq<Users.UserRecord>, parse: TokenParser, nowMillis: int)
    requires ReadCookie(req, "token").Some?
    ensures ResolveAuthentication(req, current, users, parse, nowMillis)
         == ResolveAuthentication(req.(authorization := header), current, users, parse, nowMillis)
  {
    assert ReadCookie(req, "token") == ReadCookie(req.(authorization := header), "token");
  }

  /** The authorities of a newly set authentication are the stored role's
      name, looked up at request time, never anything the token says. */
  lemma AuthoritiesFromStore(req: HttpRequest, users: seq<Users.UserRecord>, parse: TokenParser, nowMillis: int)
    requires ResolveAuthentication(req, None, users, parse, nowMillis).Some?
    ensures var a := ResolveAuthentication(req, None, users, parse, nowMillis).value;
      a.authenticated
      && exists j :: (0 <= j < |users| && users[j].email == a.principal.username
                      && a.Authorities() == [Roles.Name(users[j].role)])
  {
  }

  /** The prefix test is raw: `/loginx` and `/healthcheck` are bypassed,
      while a `/public` without its slash is not. */
  lemma BypassIsRawPrefix(m: string)
    requires !EqualsIgnoreCase(m, "OPTIONS")
    ensures ShouldNotFilter(HttpRequest(m, "/loginx", None, None))
    ensures ShouldNotFilter(HttpRequest(m, "/healthcheck", None, None))
    ensures !ShouldNotFilter(HttpRequest(m, "/public", None, None))
  {
    assert StartsWith("/loginx", BypassPrefixes[0]) by { assert "/loginx"[..6] == "/login"; }
    assert StartsWith("/healthcheck", BypassPrefixes[4]) by { assert "/healthcheck"[..7] == "/health"; }
    assert !StartsWith("/public", "/login") by { assert "/public"[1] != "/login"[1]; }
    assert !StartsWith("/public", "/auth/refresh");
    assert !StartsWith("/public", "/assets/") by { assert "/public"[1] != "/assets/"[1]; }
    assert !StartsWith("/public", "/health") by { assert "/public"[1] != "/health"[1]; }
    assert !StartsWith("/public", "/public/");
  }
}
