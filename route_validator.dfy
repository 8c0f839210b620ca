// Which gateway paths need a token: a path is secured unless it starts with
// one of five open entries.

module RouteValidator {
  import opened Common

  const OpenApiEndpoints: seq<string> :=
    ["/api/auth/register", "/api/auth/login", "/api/auth/validate", "/actuator", "/fallback"]

  /** `noneMatch(path.startsWith(uri))` over the open entries. */
  predicate IsSecured(path: string)
  {
    forall i :: 0 <= i < |OpenApiEndpoints| ==> !StartsWith(path, OpenApiEndpoints[i])
  }

  /** The five open entries, spelled out: a path is open iff one of them is a
    * raw prefix of it. */
  lemma OpenIffPrefixed(path: string)
    ensures !IsSecured(path) <==>
      StartsWith(path, "/api/auth/register") || StartsWith(path, "/api/auth/login")
      || StartsWith(path, "/api/auth/validate") || StartsWith(path, "/actuator")
      || StartsWith(path, "/fallback")
  {
    var e := OpenApiEndpoints;
    assert e[0] == "/api/auth/register" && e[1] == "/api/auth/login" && e[2] == "/api/auth/validate";
    assert e[3] == "/actuator" && e[4] == "/fallback";
  }

  /** Once open, every extension of a path is open too. */
  lemma OpenIsPrefixClosed(path: string, suffix: string)
    requires !IsSecured(path)
    ensures !IsSecured(path + suffix)
  {
    var i :| 0 <= i < |OpenApiEndpoints| && StartsWith(path, OpenApiEndpoints[i]);
    StartsWithAppend(path, suffix, OpenApiEndpoints[i]);
  }

  /** The prefix test is raw: neither an exact match nor a `/` after the entry
    * is needed, so every open entry followed by anything is open. */
  lemma RawPrefixOpensNeighbours(i: nat, rest: string)
    requires i < |OpenApiEndpoints|
    ensures !IsSecured(OpenApiEndpoints[i] + rest)
    ensures !IsSecured("/api/auth/login")
    ensures !IsSecured("/api/auth/loginX")
    ensures !IsSecured("/actuatorfoo")
  {
    assert (OpenApiEndpoints[i] + rest)[..|OpenApiEndpoints[i]|] == OpenApiEndpoints[i];
    assert StartsWith("/api/auth/login", OpenApiEndpoints[1]);
    assert StartsWith("/api/auth/loginX", OpenApiEndpoints[1]);
    assert StartsWith("/actuatorfoo", OpenApiEndpoints[3]);
  }

  /** Refresh and logout are not among the open entries, so they need a
    * token, and so does every admin path. */
  lemma RefreshAndLogoutSecured(rest: string)
    ensures IsSecured("/api/auth/refresh")
    ensures IsSecured("/api/auth/logout")
    ensures IsSecured("/api/admin" + rest)
  {
    var e := OpenApiEndpoints;
    var r := "/api/auth/refresh";
    NotStartsWithAt(r, e[0], 12); NotStartsWithAt(r, e[1], 10); NotStartsWithAt(r, e[2], 10);
    NotStartsWithAt(r, e[3], 2); NotStartsWithAt(r, e[4], 1);
    var l := "/api/auth/logout";
    NotStartsWithAt(l, e[0], 10); NotStartsWithAt(l, e[1], 13); NotStartsWithAt(l, e[2], 10);
    NotStartsWithAt(l, e[3], 2); NotStartsWithAt(l, e[4], 1);
    var p := "/api/admin" + rest;
    NotStartsWithAt(p, e[0], 6); NotStartsWithAt(p, e[1], 6); NotStartsWithAt(p, e[2], 6);
    NotStartsWithAt(p, e[3], 2); NotStartsWithAt(p, e[4], 1);
  }
}
