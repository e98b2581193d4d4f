/** `SecurityConfig.filterChain`: the ordered authorization table that is
    consulted first-match-wins for every request, and the logout success
    handler that clears the token cookie. */
module SecurityRules {
  import opened Common
  import opened Http
  import opened Security

  // The three path-pattern shapes the table uses: the match-all pattern,
  // a literal path, and a `base` followed by the double-star wildcard, which
  // matches `base` itself and everything below `base + "/"`.
  datatype PathPattern = AnyPath | Exact(path: string) | Subtree(base: string)

  /** `requestMatchers([method,] patterns...)`; `None` matches every method. */
  datatype Matcher = Matcher(verb: Option<string>, patterns: seq<PathPattern>)

  /** `permitAll()`, `hasAnyRole(...)` (role names without the `ROLE_`
      prefix), `authenticated()`. */
  datatype Requirement = PermitAll | HasAnyRole(roles: seq<string>) | IsAuthenticated

  datatype Rule = Rule(matcher: Matcher, requirement: Requirement)

  datatype Decision = Granted | Denied

  predicate PatternMatches(p: PathPattern, path: string) {
    match p
    case AnyPath => true
    case Exact(x) => path == x
    case Subtree(b) => path == b || StartsWith(path, b + "/")
  }

  predicate RuleMatches(rule: Rule, verb: string, path: string) {
    (rule.matcher.verb.None? || rule.matcher.verb.value == verb)
    && exists i :: 0 <= i < |rule.matcher.patterns| && PatternMatches(rule.matcher.patterns[i], path)
  }

  const CatalogRoles: seq<string> := ["ROOT", "USER", "ADMIN"]
  const AdminRoles: seq<string> := ["ROOT", "ADMIN"]

  /** The table in declaration order. */
  const Rules: seq<Rule> := [
    Rule(Matcher(Some("OPTIONS"), [AnyPath]), PermitAll),
    Rule(Matcher(None, [Exact("/login"), Exact("/logout"), Exact("/check-login")]), PermitAll),
    Rule(Matcher(None, [Subtree("/api/v1.0/categories"), Subtree("/api/v1.0/items")]), HasAnyRole(CatalogRoles)),
    Rule(Matcher(None, [Subtree("/api/v1.0/admin")]), HasAnyRole(AdminRoles)),
    Rule(Matcher(None, [AnyPath]), IsAuthenticated)
  ]

  /** The requirement of the first rule that matches, searching from `from`. */
  function FirstMatch(rules: seq<Rule>, verb: string, path: string, from: nat): (r: Option<Requirement>)
    requires from <= |rules|
    decreases |rules| - from
    ensures r.None? <==> forall j :: from <= j < |rules| ==> !RuleMatches(rules[j], verb, path)
    ensures r.Some? ==>
      exists i :: (from <= i < |rules| && RuleMatches(rules[i], verb, path) && r.value == rules[i].requirement
                   && forall j :: from <= j < i ==> !RuleMatches(rules[j], verb, path))
  {
    if from == |rules| then None
    else if RuleMatches(rules[from], verb, path) then Some(rules[from].requirement)
    else FirstMatch(rules, verb, path, from + 1)
  }

  /** `hasAnyRole(roles)`: some authority is `"ROLE_" + role` for a listed role. */
  predicate HasSomeRole(a: Authentication, roles: seq<string>) {
    exists i, k :: 0 <= i < |a.Authorities()| && 0 <= k < |roles| && a.Authorities()[i] == "ROLE_" + roles[k]
  }

  /** Whether `auth` meets `req`; an absent authentication is the anonymous
      user, which only `permitAll` admits. */
  predicate Satisfies(req: Requirement, auth: Option<Authentication>) {
    match req
    case PermitAll => true
    case IsAuthenticated => auth.Some? && auth.value.authenticated
    case HasAnyRole(roles) => auth.Some? && auth.value.authenticated && HasSomeRole(auth.value, roles)
  }

  /** The authorization decision for one request. */
  function Authorize(verb: string, path: string, auth: Option<Authentication>): (d: Decision)
    ensures d == Granted ==> FirstMatch(Rules, verb, path, 0).Some?
    ensures FirstMatch(Rules, verb, path, 0).Some? ==>
      (d == Granted <==> Satisfies(FirstMatch(Rules, verb, path, 0).value, auth))
  {
    match FirstMatch(Rules, verb, path, 0)
    case None => Denied
    case Some(req) => if Satisfies(req, auth) then Granted else Denied
  }

  // ---------------------------------------------------------------------
  // Logout
  // ---------------------------------------------------------------------

  /** The cookie the logout success handler sets: an empty `token` with
      max-age 0, so the browser drops it. */
  function LogoutCookie(): (c: ResponseCookie)
    ensures c.name == "token" && c.value == "" && c.maxAge == 0
  {
    ResponseCookie("token", "", true, true, "None", "/", 0)
  }

  /** The logout success handler: whoever calls it, with or without an
      authentication, gets status 200 and the clearing cookie. */
  method OnLogoutSuccess(res: ServletResponse, auth: Option<Authentication>)
    modifies res
    ensures res.setCookie == Some(LogoutCookie()) && res.status == 200
  {
    res.setCookie := Some(ResponseCookie("token", "", true, true, "None", "/", 0));
    res.status := 200;
  }

  // ---------------------------------------------------------------------
  // Properties of the table
  // ---------------------------------------------------------------------

  /** The `OPTIONS` rule comes first, so every pre-flight is admitted,
      anonymous or not. The matcher compares the method exactly. */
  lemma PreflightAlwaysGranted(path: string, auth: Option<Authentication>)
    ensures Authorize("OPTIONS", path, auth) == Granted
  {
    assert RuleMatches(Rules[0], "OPTIONS", path) by { assert PatternMatches(Rules[0].matcher.patterns[0], path); }
  }

  /** `/login`, `/logout` and `/check-login` are open to everyone, whatever
      the method. */
  lemma PublicEndpointsGranted(verb: string, auth: Option<Authentication>)
    ensures Authorize(verb, "/login", auth) == Granted
    ensures Authorize(verb, "/logout", auth) == Granted
    ensures Authorize(verb, "/check-login", auth) == Granted
  {
    var ps := Rules[1].matcher.patterns;
    assert PatternMatches(ps[0], "/login") && PatternMatches(ps[1], "/logout") && PatternMatches(ps[2], "/check-login");
    assert RuleMatches(Rules[1], verb, "/login");
    assert RuleMatches(Rules[1], verb, "/logout");
    assert RuleMatches(Rules[1], verb, "/check-login");
    if RuleMatches(Rules[0], verb, "/login") || RuleMatches(Rules[0], verb, "/logout")
       || RuleMatches(Rules[0], verb, "/check-login") {
      assert Rules[0].requirement == PermitAll;
    }
  }

  /** Paths under `/api/v1.0/admin` that are not a pre-flight need an
      authenticated ROOT or ADMIN authority. */
  lemma AdminSubtreeRule(verb: string, rest: string, auth: Option<Authentication>)
    requires verb != "OPTIONS"
    ensures Authorize(verb, "/api/v1.0/admin/" + rest, auth) == Granted
        <==> Satisfies(HasAnyRole(AdminRoles), auth)
  {
    var path := "/api/v1.0/admin/" + rest;
    assert !RuleMatches(Rules[0], verb, path);
    NotPublic(verb, path);
    NotCatalog(verb, path);
    assert PatternMatches(Rules[3].matcher.patterns[0], path) by {
      assert path[..|"/api/v1.0/admin/"|] == "/api/v1.0/admin/";
    }
    assert RuleMatches(Rules[3], verb, path);
    assert FirstMatch(Rules, verb, path, 3) == Some(HasAnyRole(AdminRoles));
  }

  /** Consequently a USER-only authentication is refused there. */
  lemma UserDeniedAdminSubtree(verb: string, rest: string, details: UserDetails)
    requires verb != "OPTIONS"
    requires details.authorities == ["ROLE_USER"]
    ensures Authorize(verb, "/api/v1.0/admin/" + rest, Some(Authentication(details, true))) == Denied
  {
    AdminSubtreeRule(verb, rest, Some(Authentication(details, true)));
    var a := Authentication(details, true);
    assert !HasSomeRole(a, AdminRoles) by {
      forall k | 0 <= k < |AdminRoles|
        ensures a.Authorities()[0] != "ROLE_" + AdminRoles[k]
      {
        assert a.Authorities()[0][5] != ("ROLE_" + AdminRoles[k])[5];
      }
    }
  }

  /** Paths under the catalog subtrees that are not a pre-flight need an
      authenticated ROOT, USER or ADMIN authority. */
  lemma CatalogSubtreeRule(verb: string, rest: string, auth: Option<Authentication>)
    requires verb != "OPTIONS"
    ensures Authorize(verb, "/api/v1.0/items/" + rest, auth) == Granted
        <==> Satisfies(HasAnyRole(CatalogRoles), auth)
    ensures Authorize(verb, "/api/v1.0/categories/" + rest, auth) == Granted
        <==> Satisfies(HasAnyRole(CatalogRoles), auth)
  {
    var items := "/api/v1.0/items/" + rest;
    var cats := "/api/v1.0/categories/" + rest;
    NotPublic(verb, items);
    NotPublic(verb, cats);
    assert PatternMatches(Rules[2].matcher.patterns[1], items) by {
      assert items[..|"/api/v1.0/items/"|] == "/api/v1.0/items/";
    }
    assert PatternMatches(Rules[2].matcher.patterns[0], cats) by {
      assert cats[..|"/api/v1.0/categories/"|] == "/api/v1.0/categories/";
    }
    assert RuleMatches(Rules[2], verb, items);
    assert RuleMatches(Rules[2], verb, cats);
  }

  /** Any other non-pre-flight path needs nothing but an authentication:
      the catch-all rule decides it. */
  lemma OtherPathsNeedAuthentication(verb: string, path: string, auth: Option<Authentication>)
    requires verb != "OPTIONS"
    requires path != "/login" && path != "/logout" && path != "/check-login"
    requires !PatternMatches(Subtree("/api/v1.0/categories"), path) && !PatternMatches(Subtree("/api/v1.0/items"), path)
    requires !PatternMatches(Subtree("/api/v1.0/admin"), path)
    ensures Authorize(verb, path, auth) == Granted <==> auth.Some? && auth.value.authenticated
  {
    assert RuleMatches(Rules[4], verb, path) by { assert PatternMatches(Rules[4].matcher.patterns[0], path); }
    assert !RuleMatches(Rules[1], verb, path);
    assert !RuleMatches(Rules[2], verb, path);
    assert !RuleMatches(Rules[3], verb, path);
    assert FirstMatch(Rules, verb, path, 4) == Some(IsAuthenticated);
  }

  /** Without an authentication only pre-flights and the three public
      endpoints get through. */
  lemma AnonymousOnlyPublic(verb: string, path: string)
    ensures Authorize(verb, path, None) == Granted
        <==> verb == "OPTIONS" || path == "/login" || path == "/logout" || path == "/check-login"
  {
    if verb == "OPTIONS" {
      PreflightAlwaysGranted(path, None);
    } else if path == "/login" || path == "/logout" || path == "/check-login" {
      PublicEndpointsGranted(verb, None);
    } else {
      assert !RuleMatches(Rules[0], verb, path);
      assert !RuleMatches(Rules[1], verb, path);
      assert RuleMatches(Rules[4], verb, path) by { assert PatternMatches(Rules[4].matcher.patterns[0], path); }
    }
  }

  // ---------------------------------------------------------------------
  // Helpers for the path lemmas
  // ---------------------------------------------------------------------

  lemma NotPublic(verb: string, path: string)
    requires verb != "OPTIONS"
    requires |path| >= 10 && path[..10] == "/api/v1.0/"
    ensures !RuleMatches(Rules[0], verb, path) && !RuleMatches(Rules[1], verb, path)
  {
    assert path != "/login" by { assert path[1] != "/login"[1]; }
    assert path != "/logout" by { assert path[1] != "/logout"[1]; }
    assert path != "/check-login" by { assert path[1] != "/check-login"[1]; }
    var ps := Rules[1].matcher.patterns;
    assert forall i :: 0 <= i < |ps| ==> !PatternMatches(ps[i], path);
  }

  lemma NotCatalog(verb: string, path: string)
    requires |path| >= 16 && path[..16] == "/api/v1.0/admin/"
    ensures !RuleMatches(Rules[2], verb, path)
  {
    var ps := Rules[2].matcher.patterns;
    assert !PatternMatches(ps[0], path) by { assert path[10] != "/api/v1.0/categories/"[10]; }
    assert !PatternMatches(ps[1], path) by { assert path[10] != "/api/v1.0/items/"[10]; }
    assert forall i :: 0 <= i < |ps| ==> !PatternMatches(ps[i], path);
  }
}
