// Role-based access control at the gateway: a fixed table from route keys to
// the roles that may use them, checked against the comma-separated
// X-User-Roles header that the authentication filter writes.

module AuthorizationFilter {
  import opened Common
  import opened Http
  import RouteValidator

  // A key of the rule table: `METHOD:pattern` or a bare `pattern`. A pattern
  // ending in `/**` stands for every path with the part before `/**` as a
  // prefix.
  datatype RouteKey = MethodScoped(verb: string, pattern: string) | PathOnly(pattern: string)
  {
    /** The key as the table spells it. */
    function Text(): string
    {
      match this
      case MethodScoped(v, p) => v + ":" + p
      case PathOnly(p) => p
    }

    /** Neither part is empty or contains the `:` separator. */
    predicate WellFormed()
    {
      pattern != [] && ':' !in pattern &&
      (MethodScoped? ==> verb != [] && ':' !in verb)
    }
  }

  datatype Rule = Rule(key: RouteKey, roles: set<string>)

  /** The rule table, in declaration order. The source keeps it in a HashMap;
    * `UniqueMatch` shows why its iteration order does not matter. */
  const RouteRoleRequirements: seq<Rule> := [
    Rule(PathOnly("/api/admin/**"), {"ADMIN"}),
    Rule(MethodScoped("POST", "/api/movies"), {"ADMIN", "MODERATOR"}),
    Rule(MethodScoped("PUT", "/api/movies/**"), {"ADMIN", "MODERATOR"}),
    Rule(MethodScoped("DELETE", "/api/movies/**"), {"ADMIN"}),
    Rule(MethodScoped("DELETE", "/api/payments/**"), {"ADMIN"})
  ]

  const AccessDenied: string := "Access denied. Insufficient permissions."

  /** The source tells the two kinds of key apart by `contains(":")` and takes
    * `split(":")[0]` and `[1]` as method and pattern; for a well-formed key
    * that parse gives back exactly the parts. */
  lemma ParseKey(k: RouteKey)
    requires k.WellFormed()
    ensures ':' in k.Text() <==> k.MethodScoped?
    ensures k.MethodScoped? ==> Split(k.Text(), ':') == [k.verb, k.pattern]
  {
    if k.MethodScoped? {
      assert Join([k.verb, k.pattern], ':') == k.Text();
      SplitJoin([k.verb, k.pattern], ':');
      assert k.Text()[|k.verb|] == ':';
    }
  }

  lemma TableWellFormed()
    ensures forall i :: 0 <= i < |RouteRoleRequirements| ==> RouteRoleRequirements[i].key.WellFormed()
  {
  }

  // `matchesPath`: a `/**` pattern is a raw prefix test on the pattern minus
  // its last three characters; any other pattern must equal the path.
  predicate MatchesPath(path: string, pattern: string)
  {
    if EndsWith(pattern, "/**") then StartsWith(path, pattern[..|pattern| - 3])
    else path == pattern
  }

  predicate MethodRuleApplies(rule: Rule, verb: string, path: string)
  {
    rule.key.MethodScoped? && rule.key.verb == verb && MatchesPath(path, rule.key.pattern)
  }

  predicate PathRuleApplies(rule: Rule, path: string)
  {
    rule.key.PathOnly? && MatchesPath(path, rule.key.pattern)
  }

  /** The first loop of `findMatchingRoute`: the first method-scoped rule for
    * this method and path. */
  function FirstMethodRule(rules: seq<Rule>, verb: string, path: string): (r: Option<Rule>)
    ensures r.Some? ==> r.value in rules && MethodRuleApplies(r.value, verb, path)
    ensures r.None? <==> forall i :: 0 <= i < |rules| ==> !MethodRuleApplies(rules[i], verb, path)
  {
    if rules == [] then None
    else if MethodRuleApplies(rules[0], verb, path) then Some(rules[0])
    else FirstMethodRule(rules[1..], verb, path)
  }

  /** The second loop: the first path-only rule for this path. */
  function FirstPathRule(rules: seq<Rule>, path: string): (r: Option<Rule>)
    ensures r.Some? ==> r.value in rules && PathRuleApplies(r.value, path)
    ensures r.None? <==> forall i :: 0 <= i < |rules| ==> !PathRuleApplies(rules[i], path)
  {
    if rules == [] then None
    else if PathRuleApplies(rules[0], path) then Some(rules[0])
    else FirstPathRule(rules[1..], path)
  }

  /** `findMatchingRoute` over a table: method-scoped rules first, then the
    * path-only ones. */
  function FindMatchingRouteIn(rules: seq<Rule>, verb: string, path: string): Option<Rule>
  {
    var m := FirstMethodRule(rules, verb, path);
    if m.Some? then m else FirstPathRule(rules, path)
  }

  function FindMatchingRoute(verb: string, path: string): Option<Rule>
  {
    FindMatchingRouteIn(RouteRoleRequirements, verb, path)
  }

  /** The roles a request must hold one of, if any rule covers it. */
  function RequiredRoles(verb: string, path: string): Option<set<string>>
  {
    match FindMatchingRoute(verb, path)
    case Some(rule) => Some(rule.roles)
    case None => None
  }

  /** The caller's roles: the X-User-Roles header split on `,` into a set
    * (items kept as they are, not trimmed); no header or an empty one gives
    * no roles. */
  function UserRoles(h: Headers): set<string>
  {
    match GetFirst(h, "X-User-Roles")
    case Some(v) =>
      if v == [] then {}
      else var parts := Split(v, ','); set i | 0 <= i < |parts| :: parts[i]
    case None => {}
  }

  /** `hasAnyRole`: some required role is held. */
  predicate HasAnyRole(userRoles: set<string>, required: set<string>)
  {
    exists r :: r in required && r in userRoles
  }

  function Filter(req: Request): FilterResult
  {
    if !RouteValidator.IsSecured(req.path) then Forward(req)
    else
      var roles := UserRoles(req.headers);
      match FindMatchingRoute(req.verb, req.path)
      case Some(rule) =>
        if !HasAnyRole(roles, rule.roles) then Reject(JsonError(403, AccessDenied)) else Forward(req)
      case None => Forward(req)
  }

  // ---------------------------------------------------------------------
  // Properties

  /** The filter never rewrites a request: it either passes it on unchanged
    * or answers 403. It answers 403 exactly when the path is secured, a rule
    * covers it, and the caller holds none of that rule's roles. */
  lemma Decision(req: Request)
    ensures Filter(req) == Forward(req) || Filter(req) == Reject(JsonError(403, AccessDenied))
    ensures Filter(req).Reject? <==>
      RouteValidator.IsSecured(req.path)
      && RequiredRoles(req.verb, req.path).Some?
      && RequiredRoles(req.verb, req.path).value !! UserRoles(req.headers)
  {
    var roles := UserRoles(req.headers);
    match FindMatchingRoute(req.verb, req.path)
    case Some(rule) =>
      assert HasAnyRole(roles, rule.roles) <==> !(rule.roles !! roles);
    case None =>
  }

  /** The denial is a 403 whose JSON body carries the denial message. */
  lemma DenialResponse(req: Request)
    requires Filter(req).Reject?
    ensures Filter(req).response.status == 403
    ensures MessageOf(Filter(req).response.body) == Some(AccessDenied)
  {
  }

  /** An open path passes with no role check, whatever roles it carries. */
  lemma OpenPathPasses(req: Request)
    requires !RouteValidator.IsSecured(req.path)
    ensures Filter(req) == Forward(req)
  {
  }

  /** Default allow: a path no rule covers passes even with no roles. */
  lemma UncoveredPathPasses(req: Request)
    requires FindMatchingRoute(req.verb, req.path).None?
    ensures Filter(req) == Forward(req)
  {
  }

  /** In any table, a method-scoped rule that applies is chosen over every
    * path-only rule. */
  lemma MethodScopedWins(rules: seq<Rule>, verb: string, path: string, i: nat)
    requires i < |rules| && MethodRuleApplies(rules[i], verb, path)
    ensures FindMatchingRouteIn(rules, verb, path).Some?
    ensures FindMatchingRouteIn(rules, verb, path).value.key.MethodScoped?
  {
  }

  /** In this table at most one method-scoped rule and at most one path-only
    * rule apply to any request, so the order in which the map is walked
    * cannot change the outcome. */
  lemma UniqueMatch(verb: string, path: string, i: nat, j: nat)
    requires i < |RouteRoleRequirements| && j < |RouteRoleRequirements|
    ensures (MethodRuleApplies(RouteRoleRequirements[i], verb, path)
             && MethodRuleApplies(RouteRoleRequirements[j], verb, path)) ==> i == j
    ensures (PathRuleApplies(RouteRoleRequirements[i], path)
             && PathRuleApplies(RouteRoleRequirements[j], path)) ==> i == j
  {
    // Only the two DELETE rules share a method, and their prefixes part at
    // position 5.
    var t := RouteRoleRequirements;
    assert t[3].key.pattern[..|t[3].key.pattern| - 3] == "/api/movies";
    assert t[4].key.pattern[..|t[4].key.pattern| - 3] == "/api/payments";
    assert MethodRuleApplies(t[3], verb, path) ==> path[5] == 'm';
    assert MethodRuleApplies(t[4], verb, path) ==> path[5] == 'p';
  }

  /** DELETE on a movie needs ADMIN; PUT accepts ADMIN or MODERATOR. The
    * prefix is `/api/movies` with no slash, so `/api/movies` itself and
    * `/api/movies-archive` are covered too. */
  lemma MovieWriteRules(rest: string)
    ensures RequiredRoles("DELETE", "/api/movies" + rest) == Some({"ADMIN"})
    ensures RequiredRoles("PUT", "/api/movies" + rest) == Some({"ADMIN", "MODERATOR"})
  {
    MovieDeleteRule(rest);
    MoviePutRule(rest);
  }

  /** The DELETE half: the fourth rule, method-scoped, is the first to apply. */
  lemma MovieDeleteRule(rest: string)
    ensures RequiredRoles("DELETE", "/api/movies" + rest) == Some({"ADMIN"})
  {
    var t := RouteRoleRequirements;
    var p := "/api/movies" + rest;
    assert p[..|"/api/movies"|] == "/api/movies";
    assert t[3].key.pattern[..|t[3].key.pattern| - 3] == "/api/movies";
    assert !MethodRuleApplies(t[0], "DELETE", p) && !MethodRuleApplies(t[1], "DELETE", p);
    assert !MethodRuleApplies(t[2], "DELETE", p);
    assert MethodRuleApplies(t[3], "DELETE", p);
  }

  /** The PUT half: the third rule is the first to apply. */
  lemma MoviePutRule(rest: string)
    ensures RequiredRoles("PUT", "/api/movies" + rest) == Some({"ADMIN", "MODERATOR"})
  {
    var t := RouteRoleRequirements;
    var p := "/api/movies" + rest;
    assert p[..|"/api/movies"|] == "/api/movies";
    assert t[2].key.pattern[..|t[2].key.pattern| - 3] == "/api/movies";
    assert !MethodRuleApplies(t[0], "PUT", p) && !MethodRuleApplies(t[1], "PUT", p);
    assert MethodRuleApplies(t[2], "PUT", p);
  }

  /** POST is covered only on the exact path `/api/movies`: with a trailing
    * slash no rule applies and the request is allowed. */
  lemma PostOnlyExactPath()
    ensures RequiredRoles("POST", "/api/movies") == Some({"ADMIN", "MODERATOR"})
    ensures RequiredRoles("POST", "/api/movies/") == None
  {
    var t := RouteRoleRequirements;
    assert MethodRuleApplies(t[1], "POST", "/api/movies");
    assert t[0].key.pattern[..|t[0].key.pattern| - 3] == "/api/admin";
    NotStartsWithAt("/api/movies/", "/api/admin", 5);
    assert !PathRuleApplies(t[0], "/api/movies/");
    assert forall i :: 0 <= i < |t| ==> !MethodRuleApplies(t[i], "POST", "/api/movies/");
    assert forall i :: 0 <= i < |t| ==> !PathRuleApplies(t[i], "/api/movies/");
  }

  /** Every method on a path starting `/api/admin` needs ADMIN, including
    * `/api/admin` itself and `/api/administrators`. */
  lemma AdminRule(verb: string, rest: string)
    ensures RequiredRoles(verb, "/api/admin" + rest) == Some({"ADMIN"})
  {
    var t := RouteRoleRequirements;
    var p := "/api/admin" + rest;
    assert p[..|"/api/admin"|] == "/api/admin";
    assert t[0].key.pattern[..|t[0].key.pattern| - 3] == "/api/admin";
    assert PathRuleApplies(t[0], p);
    NotStartsWithAt(p, "/api/movies", 5);
    NotStartsWithAt(p, "/api/payments", 5);
    assert p != "/api/movies" by { assert p[5] != "/api/movies"[5]; }
    assert t[2].key.pattern[..|t[2].key.pattern| - 3] == "/api/movies";
    assert t[3].key.pattern[..|t[3].key.pattern| - 3] == "/api/movies";
    assert t[4].key.pattern[..|t[4].key.pattern| - 3] == "/api/payments";
    assert !MethodRuleApplies(t[1], verb, p) && !MethodRuleApplies(t[2], verb, p);
    assert !MethodRuleApplies(t[3], verb, p) && !MethodRuleApplies(t[4], verb, p);
    assert forall i :: 0 <= i < |t| ==> !MethodRuleApplies(t[i], verb, p);
  }

  /** The header the authentication filter writes (the role names joined
    * with `,`) is read back as exactly the set of those names, provided no
    * name is empty or contains a comma. */
  lemma RolesHeaderRoundTrip(h: Headers, names: seq<string>)
    requires forall k :: 0 <= k < |names| ==> names[k] != [] && ',' !in names[k]
    requires GetFirst(h, "X-User-Roles") == Some(Join(names, ','))
    ensures UserRoles(h) == set k | 0 <= k < |names| :: names[k]
  {
    if names != [] {
      SplitJoin(names, ',');
      assert Join(names, ',') != [] by {
        if |names| == 1 { } else { assert Join(names, ',')[|names[0]|] == ','; }
      }
    }
  }

  /** Items are not trimmed: a header `USER, ADMIN` carries the role
    * ` ADMIN`, not `ADMIN`, so such a caller cannot delete a movie. */
  lemma UntrimmedRolesDenied(req: Request)
    requires req.verb == "DELETE" && req.path == "/api/movies/1"
    requires GetFirst(req.headers, "X-User-Roles") == Some("USER, ADMIN")
    ensures UserRoles(req.headers) == {"USER", " ADMIN"}
    ensures Filter(req).Reject?
  {
    assert Join(["USER", " ADMIN"], ',') == "USER, ADMIN";
    RolesHeaderRoundTrip(req.headers, ["USER", " ADMIN"]);
    MovieWriteRules("/1");
    assert "/api/movies" + "/1" == "/api/movies/1";
    RouteValidator.RefreshAndLogoutSecured("");
    MovieOpenCheck();
    Decision(req);
  }

  /** Movie paths are secured. */
  lemma MovieOpenCheck()
    ensures RouteValidator.IsSecured("/api/movies/1")
  {
    var e := RouteValidator.OpenApiEndpoints;
    var p := "/api/movies/1";
    NotStartsWithAt(p, e[0], 5); NotStartsWithAt(p, e[1], 5); NotStartsWithAt(p, e[2], 5);
    NotStartsWithAt(p, e[3], 2); NotStartsWithAt(p, e[4], 1);
  }
}
