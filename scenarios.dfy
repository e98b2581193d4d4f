/** End-to-end properties that need several components at once: a token
    issued by `login` and presented later to `JwtRequestFilter`, then
    judged by the `SecurityConfig` route table. */
module Scenarios {
  import opened Common
  import opened Http
  import opened Security
  import opened Jwt
  import opened Roles
  import opened Users
  import RequestFilter
  import SecurityRules
  import Auth

  /** The request a browser sends after `login`: the `token` cookie only. */
  function CookieRequest(verb: string, uri: string, token: string): (req: HttpRequest)
    ensures RequestFilter.ReadCookie(req, "token") == Some(token)
    ensures RequestFilter.ResolveToken(req) == Some(token)
  {
    HttpRequest(verb, uri, Some([Cookie("token", token)]), None)
  }

  /** The token `login` puts in the cookie for a stored e-mail at `issued`. */
  function LoginToken(users: seq<UserRecord>, email: string, sign: Claims -> string, issued: int): (t: string)
    requires LoadUserByUsername(users, email).Some?
  {
    sign(IssueClaims(LoadUserByUsername(users, email).value, issued))
  }

  /** A login token presented on a filtered path between its issue and the
      whole second below its ten-hour mark authenticates the stored user,
      with the role stored at request time as its only authority. The
      parser reads back the claims as JJWT encodes them, in whole seconds;
      its own expiry check passes in this window. */
  lemma LoginTokenAuthenticates(users: seq<UserRecord>, email: string, sign: Claims -> string, parse: TokenParser,
                                issued: int, nowMillis: int, verb: string, uri: string)
    requires LoadUserByUsername(users, email).Some?
    requires 0 <= issued
    requires parse(LoginToken(users, email, sign, issued))
          == Some(OnTheWire(IssueClaims(LoadUserByUsername(users, email).value, issued)))
    requires issued <= nowMillis <= WireInstant(issued + TokenLifetimeMillis)
    requires !RequestFilter.ShouldNotFilter(CookieRequest(verb, uri, LoginToken(users, email, sign, issued)))
    ensures var a := RequestFilter.FilterOutcome(CookieRequest(verb, uri, LoginToken(users, email, sign, issued)),
                                                 None, users, parse, nowMillis);
      && a == Some(Authentication(LoadUserByUsername(users, email).value, true))
      && a.value.Name() == email
      && exists j :: (0 <= j < |users| && users[j].email == email && a.value.Authorities() == [Name(users[j].role)])
  {
    var details := LoadUserByUsername(users, email).value;
    SignedClaimsValidity(details, issued, nowMillis);
  }

  /** Past the whole second below its ten-hour mark the same token
      authenticates nothing, whether the parser rejects it itself or hands
      back its claims, although the cookie carrying it lives for one day,
      or seven with `rememberMe`: for the rest of the cookie's life the
      browser presents a dead token. */
  lemma TokenDiesBeforeCookie(users: seq<UserRecord>, email: string, sign: Claims -> string, parse: TokenParser,
                              issued: int, nowMillis: int, verb: string, uri: string, rememberMe: Option<bool>)
    requires LoadUserByUsername(users, email).Some?
    requires 0 <= issued
    requires forall c :: parse(sign(c)).Some? ==> parse(sign(c)).value == OnTheWire(c)
    requires WireInstant(issued + TokenLifetimeMillis) < nowMillis
    ensures RequestFilter.FilterOutcome(CookieRequest(verb, uri, LoginToken(users, email, sign, issued)),
                                        None, users, parse, nowMillis) == None
    ensures TokenLifetimeMillis < Auth.LoginMaxAge(rememberMe) * 1000
  {
    var details := LoadUserByUsername(users, email).value;
    SignedClaimsValidity(details, issued, nowMillis);
  }

  /** Any stored role reaches the catalog subtrees with a valid login
      token; only ROOT and ADMIN reach the admin subtree. */
  lemma StoredRoleDecidesRoutes(users: seq<UserRecord>, email: string, verb: string, rest: string)
    requires LoadUserByUsername(users, email).Some?
    requires verb != "OPTIONS"
    ensures var a := Some(Authentication(LoadUserByUsername(users, email).value, true));
      && SecurityRules.Authorize(verb, "/api/v1.0/items/" + rest, a) == SecurityRules.Granted
      && SecurityRules.Authorize(verb, "/api/v1.0/categories/" + rest, a) == SecurityRules.Granted
      && (SecurityRules.Authorize(verb, "/api/v1.0/admin/" + rest, a) == SecurityRules.Granted
          <==> GetUserRole(users, email) != Some(Name(User)))
  {
    var details := LoadUserByUsername(users, email).value;
    var a := Authentication(details, true);
    var j := FindByEmail(users, email).value;
    var role := users[j].role;
    assert details.authorities == [Name(role)];
    assert GetUserRole(users, email) == Some(Name(role));
    SecurityRules.CatalogSubtreeRule(verb, rest, Some(a));
    SecurityRules.AdminSubtreeRule(verb, rest, Some(a));
    var k := match role case Root => 0 case User => 1 case Admin => 2;
    assert a.Authorities()[0] == "ROLE_" + SecurityRules.CatalogRoles[k];
    if role == User {
      SecurityRules.UserDeniedAdminSubtree(verb, rest, details);
      assert GetUserRole(users, email) == Some(Name(User));
    } else {
      var k' := if role == Root then 0 else 1;
      assert a.Authorities()[0] == "ROLE_" + SecurityRules.AdminRoles[k'];
      NameInjective(role, User);
    }
  }

  /** The filter skips `/public/`, `/assets/` and `/health` paths, yet the
      route table sends them to the authenticated catch-all: such a request
      is refused even when it carries a valid token. */
  lemma BypassedPathsRefused(verb: string, rest: string, token: string, users: seq<UserRecord>,
                             parse: TokenParser, nowMillis: int)
    requires verb != "OPTIONS"
    ensures var req := CookieRequest(verb, "/public/" + rest, token);
      && RequestFilter.ShouldNotFilter(req)
      && RequestFilter.FilterOutcome(req, None, users, parse, nowMillis) == None
      && SecurityRules.Authorize(verb, "/public/" + rest, None) == SecurityRules.Denied
  {
    var path := "/public/" + rest;
    var req := CookieRequest(verb, path, token);
    assert StartsWith(path, RequestFilter.BypassPrefixes[2]) by { assert path[..8] == "/public/"; }
    SecurityRules.AnonymousOnlyPublic(verb, path);
    assert path != "/login" by { assert path[1] != "/login"[1]; }
    assert path != "/logout" by { assert path[1] != "/logout"[1]; }
    assert path != "/check-login" by { assert path[1] != "/check-login"[1]; }
  }

  /** `check-login` after a successful request resolution reports the
      e-mail and the role stored now. */
  lemma CheckLoginReportsStoredRole(users: seq<UserRecord>, email: string)
    requires LoadUserByUsername(users, email).Some?
    ensures var r := Auth.CheckLogin(Some(Authentication(LoadUserByUsername(users, email).value, true)), users);
      r.status == 200 && r.body == Some(Auth.AuthResponse(Some(email), GetUserRole(users, email)))
      && r.body.value.role.Some?
  {
  }
}
