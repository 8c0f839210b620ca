// The three deciding global filters in the order the gateway runs them:
// rate limiting (order -110), authentication (-100), authorisation (-90).
// Lower order runs first.

module GatewayChain {
  import opened Common
  import opened Http
  import RouteValidator
  import RateLimitFilter
  import AuthenticationFilter
  import AuthorizationFilter

  const RateLimitOrder: int := -110
  const AuthenticationOrder: int := -100
  const AuthorizationOrder: int := -90

  lemma OrderIsRateLimitAuthenticationAuthorization()
    ensures RateLimitOrder < AuthenticationOrder < AuthorizationOrder
  {
  }

  /** Authentication, then authorisation on the request it forwards. */
  function Authenticated(req: Request, id: string, validate: string -> AuthenticationFilter.Validation,
                         store: AuthenticationFilter.KeyStore): FilterResult
  {
    var a := AuthenticationFilter.Filter(req, id, validate, store);
    if a.Forward? then AuthorizationFilter.Filter(a.request) else a
  }

  /** One request through the chain. The limiter counts the request as the
    * client sent it, before any identity header has been checked or set.
    * `asWritten` is passed to the limiter: with it, a comma-only
    * X-Forwarded-For ends the request in the limiter's exception. */
  method Handle(limiter: RateLimitFilter.RateLimiter, req: Request, now: nat,
                fault: RateLimitFilter.StoreFault, asWritten: bool, id: string,
                validate: string -> AuthenticationFilter.Validation,
                store: AuthenticationFilter.KeyStore) returns (r: FilterResult)
    modifies limiter
    ensures asWritten && RateLimitFilter.ClientIpAsWritten(req).Err? ==>
      r.Crash? && limiter.counters == old(limiter.counters)
    ensures !(asWritten && RateLimitFilter.ClientIpAsWritten(req).Err?) ==>
      var b := RateLimitFilter.SelectBucket(req, RateLimitFilter.ClientIp(req));
      var (m, allowed) := RateLimitFilter.Check(old(limiter.counters), b.key, b.limit, now, fault);
      && limiter.counters == m
      && r == (if allowed == Ok(false) then Reject(RateLimitFilter.TooMany(b.message))
               else Authenticated(req, id, validate, store))
  {
    r := limiter.Filter(req, now, fault, asWritten);
    if r.Forward? {
      r := Authenticated(r.request, id, validate, store);
    }
  }

  /** The roles written by authentication are exactly the roles the
    * authorisation filter reads, when every role name is non-empty and free
    * of commas. */
  lemma AuthorizationSeesTokenRoles(req: Request, c: AuthenticationFilter.Claims, id: string)
    requires c.roles.Some?
    requires forall k :: 0 <= k < |c.roles.value| ==> c.roles.value[k] != [] && ',' !in c.roles.value[k]
    ensures AuthorizationFilter.UserRoles(AuthenticationFilter.ContinueWithRequest(req, c, id).headers)
            == set k | 0 <= k < |c.roles.value| :: c.roles.value[k]
  {
    var h := AuthenticationFilter.ContinueWithRequest(req, c, id).headers;
    AuthorizationFilter.RolesHeaderRoundTrip(h, c.roles.value);
  }

  /** Past both filters, a secured request covered by a rule was carried by
    * a valid token naming one of the rule's roles. */
  lemma ForwardedSecuredRequestHoldsARole(req: Request, id: string,
                                          validate: string -> AuthenticationFilter.Validation,
                                          store: AuthenticationFilter.KeyStore, token: string,
                                          c: AuthenticationFilter.Claims)
    requires RouteValidator.IsSecured(req.path)
    requires GetFirst(req.headers, "Authorization") == Some("Bearer " + token)
    requires validate(token) == AuthenticationFilter.Valid(c)
    requires c.roles.Some?
    requires forall k :: 0 <= k < |c.roles.value| ==> c.roles.value[k] != [] && ',' !in c.roles.value[k]
    requires AuthorizationFilter.RequiredRoles(req.verb, req.path).Some?
    requires Authenticated(req, id, validate, store).Forward?
    ensures exists k :: 0 <= k < |c.roles.value| && c.roles.value[k] in AuthorizationFilter.RequiredRoles(req.verb, req.path).value
  {
    AuthenticationFilter.BlacklistDecision(req, id, validate, store, token, c);
    var fwd := AuthenticationFilter.ContinueWithRequest(req, c, id);
    assert AuthenticationFilter.Filter(req, id, validate, store) == Forward(fwd);
    AuthorizationSeesTokenRoles(req, c, id);
    AuthorizationFilter.Decision(fwd);
    var need := AuthorizationFilter.RequiredRoles(req.verb, req.path).value;
    var held := AuthorizationFilter.UserRoles(fwd.headers);
    assert !(need !! held);
    var r :| r in need && r in held;
  }

  /** Without an Authorization header a secured request never reaches the
    * role check, even on a path that no rule covers. */
  lemma SecuredNeedsHeader(req: Request, id: string,
                           validate: string -> AuthenticationFilter.Validation,
                           store: AuthenticationFilter.KeyStore)
    requires RouteValidator.IsSecured(req.path) && !Has(req.headers, "Authorization")
    ensures Authenticated(req, id, validate, store) == Reject(JsonError(401, AuthenticationFilter.MissingHeader))
  {
  }
}
