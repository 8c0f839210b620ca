// Bearer-token authentication at the gateway: a decision tree over the
// Authorization header, the outcome of signature/expiry validation and a
// blacklist lookup, ending in a request that carries the caller's identity.

module AuthenticationFilter {
  import opened Common
  import opened Http
  import RouteValidator

  /** The claims of a validated access token that the filter reads; every one
    * may be absent from a token. */
  datatype Claims = Claims(
    jti: Option<string>,
    subject: Option<string>,
    username: Option<string>,
    roles: Option<seq<string>>,
    permissions: Option<seq<string>>)

  /** What parsing and verifying the compact token yields: its claims, an
    * ExpiredJwtException, or any other JwtException/IllegalArgumentException. */
  datatype Validation = Valid(claims: Claims) | Expired | Invalid

  /** The key-value store holding `token:blacklist:<jti>` keys, reachable or
    * failing. */
  datatype KeyStore = Up(keys: set<string>) | Down

  const BearerPrefix: string := "Bearer "
  const BlacklistPrefix: string := "token:blacklist:"

  const MissingHeader: string := "Missing Authorization header"
  const BadFormat: string := "Invalid Authorization header format"
  const Revoked: string := "Token has been revoked"
  const TokenExpired: string := "Token has expired"
  const InvalidToken: string := "Invalid token"

  /** `addCorrelationId`: a request id attached to an open-path request. */
  function AddCorrelationId(req: Request, correlationId: string): Request
  {
    WithHeader(req, "X-Correlation-Id", correlationId)
  }

  /** A list claim rendered for a header: joined with `,`, empty if absent. */
  function JoinedOrEmpty(items: Option<seq<string>>): string
  {
    match items
    case Some(xs) => Join(xs, ',')
    case None => ""
  }

  /** `continueWithRequest`: the identity headers set on the forwarded
    * request. A token without a subject leaves X-User-Id with no value. */
  function ContinueWithRequest(req: Request, c: Claims, correlationId: string): Request
  {
    var h := req.headers;
    var h := Put(h, "X-User-Id", if c.subject.Some? then [c.subject.value] else []);
    var h := Put(h, "X-User-Name", [c.username.GetOr("")]);
    var h := Put(h, "X-User-Roles", [JoinedOrEmpty(c.roles)]);
    var h := Put(h, "X-User-Permissions", [JoinedOrEmpty(c.permissions)]);
    var h := Put(h, "X-Correlation-Id", [correlationId]);
    req.(headers := h)
  }

  /** `onError` of this filter: 401 with the JSON error body. */
  function Unauthorized(message: string): FilterResult
  {
    Reject(JsonError(401, message))
  }

  /** The filter. `correlationId` stands for the fresh random UUID,
    * `validate` for signature and expiry checking of the compact token, and
    * `store` for the blacklist store. */
  function Filter(req: Request, correlationId: string, validate: string -> Validation,
                  store: KeyStore): FilterResult
  {
    if !RouteValidator.IsSecured(req.path) then Forward(AddCorrelationId(req, correlationId))
    else if !Has(req.headers, "Authorization") then Unauthorized(MissingHeader)
    else
      var auth := GetFirst(req.headers, "Authorization");
      if auth.None? || !StartsWith(auth.value, BearerPrefix) then Unauthorized(BadFormat)
      else
        var token := auth.value[|BearerPrefix|..];
        match validate(token)
        case Expired => Unauthorized(TokenExpired)
        case Invalid => Unauthorized(InvalidToken)
        case Valid(c) =>
          if c.jti.Some? && store.Up? && BlacklistPrefix + c.jti.value in store.keys
          then Unauthorized(Revoked)
          // not listed, the lookup failed (fail-open), or no jti to look up
          else Forward(ContinueWithRequest(req, c, correlationId))
  }

  // ---------------------------------------------------------------------
  // Properties

  /** An open path is forwarded with only X-Correlation-Id set; no token is
    * looked at, so the validator and the store play no part. */
  lemma OpenPathOnlyGetsCorrelationId(req: Request, id: string, validate: string -> Validation,
                                      store: KeyStore)
    requires !RouteValidator.IsSecured(req.path)
    ensures Filter(req, id, validate, store).Forward?
    ensures var out := Filter(req, id, validate, store).request;
      out.verb == req.verb && out.path == req.path
      && out.headers == Put(req.headers, "X-Correlation-Id", [id])
  {
  }

  /** The 401 answers for a secured path, by cause. */
  lemma HeaderFailures(req: Request, id: string, validate: string -> Validation, store: KeyStore)
    requires RouteValidator.IsSecured(req.path)
    ensures !Has(req.headers, "Authorization") ==>
      Filter(req, id, validate, store) == Reject(JsonError(401, MissingHeader))
    ensures Has(req.headers, "Authorization")
            && (GetFirst(req.headers, "Authorization").None?
                || !StartsWith(GetFirst(req.headers, "Authorization").value, "Bearer ")) ==>
      Filter(req, id, validate, store) == Reject(JsonError(401, BadFormat))
  {
  }

  /** An expired token and a token that fails validation in any other way get
    * different messages; the token handed to the validator is the header
    * from index 7 on. */
  lemma ValidationFailures(req: Request, id: string, validate: string -> Validation, store: KeyStore,
                           token: string)
    requires RouteValidator.IsSecured(req.path)
    requires GetFirst(req.headers, "Authorization") == Some("Bearer " + token)
    ensures validate(token) == Expired ==> Filter(req, id, validate, store) == Reject(JsonError(401, TokenExpired))
    ensures validate(token) == Invalid ==> Filter(req, id, validate, store) == Reject(JsonError(401, InvalidToken))
  {
    assert ("Bearer " + token)[|BearerPrefix|..] == token;
    assert StartsWith("Bearer " + token, BearerPrefix);
  }

  /** With a valid token, the request is refused exactly when its jti is
    * present, the store answers, and `token:blacklist:<jti>` is listed. A
    * failing store lets the request through, and a token without jti is
    * never looked up. */
  lemma BlacklistDecision(req: Request, id: string, validate: string -> Validation, store: KeyStore,
                          token: string, c: Claims)
    requires RouteValidator.IsSecured(req.path)
    requires GetFirst(req.headers, "Authorization") == Some("Bearer " + token)
    requires validate(token) == Valid(c)
    ensures Filter(req, id, validate, store) == Reject(JsonError(401, Revoked)) <==>
      c.jti.Some? && store.Up? && "token:blacklist:" + c.jti.value in store.keys
    ensures store.Down? ==> Filter(req, id, validate, store) == Forward(ContinueWithRequest(req, c, id))
    ensures c.jti.None? ==> Filter(req, id, validate, store) == Forward(ContinueWithRequest(req, c, id))
  {
    assert ("Bearer " + token)[|BearerPrefix|..] == token;
    assert StartsWith("Bearer " + token, BearerPrefix);
  }

  /** The identity headers carried by an authenticated request. They replace
    * anything the client sent under the same names; every other header is
    * passed on as it came. */
  lemma IdentityHeaders(req: Request, c: Claims, id: string)
    ensures var h := ContinueWithRequest(req, c, id).headers;
      && (c.subject.Some? ==> GetFirst(h, "X-User-Id") == c.subject)
      && (c.subject.None? ==> GetFirst(h, "X-User-Id").None?)
      && GetFirst(h, "X-User-Name") == Some(if c.username.Some? then c.username.value else "")
      && GetFirst(h, "X-User-Roles") == Some(if c.roles.Some? then Join(c.roles.value, ',') else "")
      && GetFirst(h, "X-User-Permissions") == Some(if c.permissions.Some? then Join(c.permissions.value, ',') else "")
      && GetFirst(h, "X-Correlation-Id") == Some(id)
    ensures var h := ContinueWithRequest(req, c, id).headers;
      forall n :: HeaderKey(n) !in IdentityHeaderKeys ==>
        (Has(h, n) <==> Has(req.headers, n)) && (Has(req.headers, n) ==> h[HeaderKey(n)] == req.headers[HeaderKey(n)])
  {
  }

  /** The stored keys of the five headers authentication sets. */
  const IdentityHeaderKeys: set<string> :=
    {HeaderKey("X-User-Id"), HeaderKey("X-User-Name"), HeaderKey("X-User-Roles"),
     HeaderKey("X-User-Permissions"), HeaderKey("X-Correlation-Id")}

  /** A client-supplied X-User-Id never survives authentication: the
    * forwarded request names the token's subject whatever the client sent. */
  lemma SpoofedUserIdReplaced(req: Request, id: string, validate: string -> Validation,
                              store: KeyStore, token: string, c: Claims, spoofed: string)
    requires RouteValidator.IsSecured(req.path)
    requires GetFirst(req.headers, "Authorization") == Some("Bearer " + token)
    requires validate(token) == Valid(c) && c.subject.Some? && c.subject.value != spoofed
    requires GetFirst(req.headers, "X-User-Id") == Some(spoofed)
    ensures Filter(req, id, validate, store).Forward? ==>
      GetFirst(Filter(req, id, validate, store).request.headers, "X-User-Id") == c.subject
  {
    assert ("Bearer " + token)[|BearerPrefix|..] == token;
    assert StartsWith("Bearer " + token, BearerPrefix);
  }
}
