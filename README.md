# Nozie platform core, modelled in Dafny

Nozie is a movie-streaming platform built as a set of microservices behind one API gateway. This project models and proves properties of its security core and of the business rules around it:

- **Gateway filter chain.** The gateway runs rate limiting (fixed one-minute windows per client address, login path or user), then authentication (a bearer token, validated and checked against a blacklist, then identity headers), then authorization (role rules per path and method). `RouteValidator` decides which paths are open.
- **Identity service.**
  - Refresh tokens, their rotation and revocation, and the access-token blacklist.
  - Device sessions, users and their lockout after failed logins, with the audit trail.
  - The auth flows: register, login, logout, logout-all, refresh and change-password.
  - User, role and permission administration, and the mapping to the user profile.
- **Movie service.**
  - The catalogue: create, update, delete, search, filtered paging and distinct years.
  - The streaming view counter, play-URL selection and episode listing.
  - Both standalone movie-service variants.
  - The OPhim import script's mapping and upsert rule.
- **Customer service**: unique emails and Firebase uids.
- **Payment service**: the transaction status machine and the create-payment step order.

Each source file becomes one Dafny module; `common.dfy` holds Java's string conventions (split, trim, case, join) and `Option`/`Result`, `http.dfy` the request and response values the filters share.

**How the model is built:**
- Entities whose methods update their own fields are classes: users, refresh tokens, sessions and transactions.
- Repositories are classes holding `map<nat, Record>` rows and the next identity value.
- Document stores and value-only entities are datatypes and maps.
- Each service method is proved against a pure function of the old tables: an `...Outcome` or `...Effect` function, or the open functions of the table.
- Lemmas about those functions state what the source promises.

Everything outside the model is a parameter:
- a Redis or remote-service reply;
- the clock (`now`, in seconds);
- a fresh UUID or token value;
- the password encoder's verdict;
- a JWT validation outcome.

Spring's `@Transactional` is modelled explicitly as commit or rollback of the whole store at the end of a call.

Where the code departs from what its design describes, the model follows the code:
- `refreshToken` looks up the session by the *new* token's id, so the session bound to the old token is not carried over (`AuthServices`, `RefreshLeavesSessionsAlone`).
- The gateway's Redis blacklist and the identity service's blacklist table are separate stores, and nothing shown links them.
- The rate limiter runs before the authenticator, so the user bucket is keyed by a client-supplied `X-User-Id`.
- `RefreshToken.revoke` overwrites an earlier revocation.
- In the source, `register` reads a phone field that the request class names differently; the model uses the request's phone. `updateProfile` logs an audit action that the enum lacks; the model leaves that one entry out.

## Model

| member | source | states |
|---|---|---|
| `Http.GetFirst` | Src/server/microservices/api-gateway/src/main/java/com/nozie/gateway/filter/AuthorizationFilter.java:52 | `getFirst` returns a value exactly when the header is present, under any letter case of its name, with at least one value, and that value is the first one |
| `Http.WithHeader` | Src/server/microservices/api-gateway/src/main/java/com/nozie/gateway/filter/AuthenticationFilter.java:144-148 | `mutate().header(name, value)` leaves the named header holding exactly that one value; every header whose name differs in more than letter case, the method and the path stay as they were |
| `Http.Put` | Src/server/microservices/api-gateway/src/main/java/com/nozie/gateway/filter/AuthenticationFilter.java:124-130 | setting a header leaves it holding exactly the given values; every header whose name differs in more than letter case keeps its presence and its values |
| `Http.HeaderNamesIgnoreCase` | Src/server/microservices/api-gateway/src/main/java/com/nozie/gateway/filter/AuthenticationFilter.java:60-65 | two spellings of a header name that differ only in ASCII letter case denote the same header: a value set under one is read back under the other |
| `Http.HeaderKeyIsLowerCase` | Src/server/microservices/api-gateway/src/main/java/com/nozie/gateway/filter/RateLimitFilter.java:41 | a header name is looked up by its ASCII lower case |
| `Http.ErrorBodyRoundTrip` | Src/server/microservices/api-gateway/src/main/java/com/nozie/gateway/filter/AuthenticationFilter.java:156 | the message can be read back out of the `{"success":false,"message":"…"}` body built around it |
| `Http.JsonError` | Src/server/microservices/api-gateway/src/main/java/com/nozie/gateway/filter/AuthenticationFilter.java:151-159 | an error response carries the given status, a JSON content type, and a body whose message is the one given |
| `RouteValidator.OpenIffPrefixed` | Src/server/microservices/api-gateway/src/main/java/com/nozie/gateway/config/RouteValidator.java:7-17 | a path is open (not secured) exactly when one of the five listed entries is a prefix of it |
| `RouteValidator.OpenIsPrefixClosed` | Src/server/microservices/api-gateway/src/main/java/com/nozie/gateway/config/RouteValidator.java:14-17 | every extension of an open path is open too |
| `RouteValidator.RawPrefixOpensNeighbours` | Src/server/microservices/api-gateway/src/main/java/com/nozie/gateway/config/RouteValidator.java:16 | the test is a raw `startsWith`: any entry followed by anything is open, including `/api/auth/login`, `/api/auth/loginX` and `/actuatorfoo` |
| `RouteValidator.RefreshAndLogoutSecured` | Src/server/microservices/api-gateway/src/main/java/com/nozie/gateway/config/RouteValidator.java:7-12 | `/api/auth/refresh`, `/api/auth/logout` and every path under `/api/admin` are secured |
| `AuthorizationFilter.ParseKey` | Src/server/microservices/api-gateway/src/main/java/com/nozie/gateway/filter/AuthorizationFilter.java:77-80 | a key contains `:` exactly when it is method-scoped, and then `split(":")` gives back exactly its method and its pattern |
| `AuthorizationFilter.TableWellFormed` | Src/server/microservices/api-gateway/src/main/java/com/nozie/gateway/filter/AuthorizationFilter.java:26-37 | every key of the five-entry rule table has that shape: a non-empty, colon-free method and pattern, or a non-empty, colon-free pattern alone |
| `AuthorizationFilter.FirstMethodRule` | Src/server/microservices/api-gateway/src/main/java/com/nozie/gateway/filter/AuthorizationFilter.java:75-86 | the first loop finds a method-scoped rule of the table whose method and pattern apply, and finds none exactly when no such rule exists |
| `AuthorizationFilter.FirstPathRule` | Src/server/microservices/api-gateway/src/main/java/com/nozie/gateway/filter/AuthorizationFilter.java:88-93 | the second loop finds a path-only rule whose pattern applies, and finds none exactly when none does |
| `AuthorizationFilter.Decision` | Src/server/microservices/api-gateway/src/main/java/com/nozie/gateway/filter/AuthorizationFilter.java:40-71 | the filter passes the request on unchanged, or answers 403; it answers 403 exactly when the path is secured, a rule covers it, and the caller holds none of that rule's roles (any-of) |
| `AuthorizationFilter.DenialResponse` | Src/server/microservices/api-gateway/src/main/java/com/nozie/gateway/filter/AuthorizationFilter.java:115-123 | a denial is a 403 with a JSON body carrying "Access denied. Insufficient permissions." |
| `AuthorizationFilter.OpenPathPasses` | Src/server/microservices/api-gateway/src/main/java/com/nozie/gateway/filter/AuthorizationFilter.java:47-49 | an open path is forwarded whatever roles the request carries |
| `AuthorizationFilter.UncoveredPathPasses` | Src/server/microservices/api-gateway/src/main/java/com/nozie/gateway/filter/AuthorizationFilter.java:59-70 | default allow: a path that no rule covers is forwarded even with no roles |
| `AuthorizationFilter.MethodScopedWins` | Src/server/microservices/api-gateway/src/main/java/com/nozie/gateway/filter/AuthorizationFilter.java:73-95 | in any table, a method-scoped rule that applies is chosen over every path-only rule |
| `AuthorizationFilter.UniqueMatch` | Src/server/microservices/api-gateway/src/main/java/com/nozie/gateway/filter/AuthorizationFilter.java:24-37 | in this table at most one method-scoped rule and at most one path-only rule apply to any request, so the hash-map iteration order cannot change the outcome |
| `AuthorizationFilter.MovieWriteRules` | Src/server/microservices/api-gateway/src/main/java/com/nozie/gateway/filter/AuthorizationFilter.java:31-33 | DELETE on any path starting `/api/movies` needs ADMIN; PUT accepts ADMIN or MODERATOR; the prefix has no slash, so `/api/movies` itself and `/api/movies-archive` are covered |
| `AuthorizationFilter.MovieDeleteRule` | Src/server/microservices/api-gateway/src/main/java/com/nozie/gateway/filter/AuthorizationFilter.java:33 | DELETE on any path starting `/api/movies` needs ADMIN, and no earlier rule applies to it |
| `AuthorizationFilter.MoviePutRule` | Src/server/microservices/api-gateway/src/main/java/com/nozie/gateway/filter/AuthorizationFilter.java:32 | PUT on any path starting `/api/movies` accepts ADMIN or MODERATOR, and no earlier rule applies to it |
| `AuthorizationFilter.PostOnlyExactPath` | Src/server/microservices/api-gateway/src/main/java/com/nozie/gateway/filter/AuthorizationFilter.java:31 | POST is restricted on the exact path `/api/movies` only; with a trailing slash no rule applies |
| `AuthorizationFilter.AdminRule` | Src/server/microservices/api-gateway/src/main/java/com/nozie/gateway/filter/AuthorizationFilter.java:28 | every method on a path starting `/api/admin` needs ADMIN |
| `AuthorizationFilter.RolesHeaderRoundTrip` | Src/server/microservices/api-gateway/src/main/java/com/nozie/gateway/filter/AuthorizationFilter.java:52-56 | a roles header made by joining non-empty, comma-free names with `,` is read back as exactly the set of those names |
| `AuthorizationFilter.UntrimmedRolesDenied` | Src/server/microservices/api-gateway/src/main/java/com/nozie/gateway/filter/AuthorizationFilter.java:55 | split items are not trimmed: a header `USER, ADMIN` does not grant ADMIN, so such a caller's DELETE on a movie is refused |
| `AuthorizationFilter.MovieOpenCheck` | Src/server/microservices/api-gateway/src/main/java/com/nozie/gateway/filter/AuthorizationFilter.java:47 | the movie path `/api/movies/1` is secured, so the role check runs on it |
| `AuthenticationFilter.OpenPathOnlyGetsCorrelationId` | Src/server/microservices/api-gateway/src/main/java/com/nozie/gateway/filter/AuthenticationFilter.java:54-57 | an open path is forwarded with only `X-Correlation-Id` added; no token or blacklist check runs |
| `AuthenticationFilter.HeaderFailures` | Src/server/microservices/api-gateway/src/main/java/com/nozie/gateway/filter/AuthenticationFilter.java:60-69 | a missing Authorization header, under any letter case of the name, gives 401 "Missing Authorization header"; a value that is absent or not `Bearer `-prefixed gives 401 "Invalid Authorization header format" |
| `AuthenticationFilter.ValidationFailures` | Src/server/microservices/api-gateway/src/main/java/com/nozie/gateway/filter/AuthenticationFilter.java:71-74 | the token after index 7 is validated: an expired one gives 401 "Token has expired" and any other failure 401 "Invalid token" |
| `AuthenticationFilter.BlacklistDecision` | Src/server/microservices/api-gateway/src/main/java/com/nozie/gateway/filter/AuthenticationFilter.java:89-108 | a valid token is refused with 401 "Token has been revoked" exactly when it has a jti, the store answers, and `token:blacklist:<jti>` exists; a store error or a missing jti lets it through (fail-open) |
| `AuthenticationFilter.IdentityHeaders` | Src/server/microservices/api-gateway/src/main/java/com/nozie/gateway/filter/AuthenticationFilter.java:119-133 | the forwarded request carries the subject as `X-User-Id`, the username or "" as `X-User-Name`, the roles and the permissions comma-joined or "", and the correlation id |
| `AuthenticationFilter.SpoofedUserIdReplaced` | Src/server/microservices/api-gateway/src/main/java/com/nozie/gateway/filter/AuthenticationFilter.java:124-125 | an `X-User-Id` sent by the client, in whatever letter case, is replaced by the token's subject on a forwarded secured request |
| `RateLimitFilter.ClientIp` | Src/server/microservices/api-gateway/src/main/java/com/nozie/gateway/filter/RateLimitFilter.java:91-102 | corrected `getClientIP`: agrees with the code wherever the code does not throw |
| `RateLimitFilter.CommaOnlyForwardedForThrows` | Src/server/microservices/api-gateway/src/main/java/com/nozie/gateway/filter/RateLimitFilter.java:93-94 | as written, an `X-Forwarded-For` of `,` splits into nothing and indexing `[0]` throws; the corrected lookup falls back to the next source |
| `RateLimitFilter.ClientIpOrder` | Src/server/microservices/api-gateway/src/main/java/com/nozie/gateway/filter/RateLimitFilter.java:92-95 | with a usable `X-Forwarded-For`, the address is its first comma-separated item, trimmed |
| `RateLimitFilter.ClientIpFallback` | Src/server/microservices/api-gateway/src/main/java/com/nozie/gateway/filter/RateLimitFilter.java:96-101 | without `X-Forwarded-For` (in any letter case): a non-empty `X-Real-IP`, else the peer address, else "unknown" |
| `RateLimitFilter.ClientChoosesUserBucket` | Src/server/microservices/api-gateway/src/main/java/com/nozie/gateway/filter/RateLimitFilter.java:60-62 | off the login path, any non-empty `X-User-Id` the client sends, in any letter case, selects bucket `user:<id>` with ceiling 200 |
| `RateLimitFilter.AddressBuckets` | Src/server/microservices/api-gateway/src/main/java/com/nozie/gateway/filter/RateLimitFilter.java:25-26 | the exact login path uses `login:<ip>` with ceiling 5 whatever `X-User-Id` says; another path without a user id uses `ip:<ip>` with ceiling 100 |
| `RateLimitFilter.Incremented` | Src/server/microservices/api-gateway/src/main/java/com/nozie/gateway/filter/RateLimitFilter.java:81 | INCR yields a count of at least 1 |
| `RateLimitFilter.RateLimiter.Increment` | Src/server/microservices/api-gateway/src/main/java/com/nozie/gateway/filter/RateLimitFilter.java:81 | INCR on the counter store: only that key changes; it holds one more than its live count, or 1 if it was missing or expired |
| `RateLimitFilter.RateLimiter.Expire` | Src/server/microservices/api-gateway/src/main/java/com/nozie/gateway/filter/RateLimitFilter.java:84 | EXPIRE sets only that key's expiry, to now plus the duration |
| `RateLimitFilter.RateLimiter.CheckRateLimit` | Src/server/microservices/api-gateway/src/main/java/com/nozie/gateway/filter/RateLimitFilter.java:78-89 | the new counter store and the answer are those of the reference check on `ratelimit:<key>` |
| `RateLimitFilter.RateLimiter.Filter` | Src/server/microservices/api-gateway/src/main/java/com/nozie/gateway/filter/RateLimitFilter.java:37-76 | with `asWritten`, a comma-only `X-Forwarded-For` makes the filter throw before any counter changes; otherwise (and always in the corrected form, which uses the corrected `ClientIp`) the request is counted in its bucket and refused with 429 exactly when the check answers "not allowed", and a store error forwards it |
| `RateLimitFilter.TooMany` | Src/server/microservices/api-gateway/src/main/java/com/nozie/gateway/filter/RateLimitFilter.java:104-113 | a refusal is a 429 with `Retry-After: 60`, a JSON content type and the message in the body |
| `RateLimitFilter.CheckOutcome` | Src/server/microservices/api-gateway/src/main/java/com/nozie/gateway/filter/RateLimitFilter.java:83-87 | a check refuses exactly when the count after the increment exceeds the ceiling; a store failure never refuses |
| `RateLimitFilter.ExpiryOnlyOnFirst` | Src/server/microservices/api-gateway/src/main/java/com/nozie/gateway/filter/RateLimitFilter.java:83-84 | the one-minute expiry is set only when the new count is 1; a later increment in the window keeps the window's expiry |
| `RateLimitFilter.Run` | Src/server/microservices/api-gateway/src/main/java/com/nozie/gateway/filter/RateLimitFilter.java:78-89 | a run of checks yields one answer per request |
| `RateLimitFilter.RunInWindow` | Src/server/microservices/api-gateway/src/main/java/com/nozie/gateway/filter/RateLimitFilter.java:85-87 | inside one window, with `done` requests already counted, the i-th further request is allowed exactly when `done + i + 1` is within the ceiling |
| `RateLimitFilter.WindowAdmitsExactlyMax` | Src/server/microservices/api-gateway/src/main/java/com/nozie/gateway/filter/RateLimitFilter.java:78-89 | within one minute of a window's first request, requests 1 to max pass and every later one is refused |
| `RateLimitFilter.NewWindowAfterExpiry` | Src/server/microservices/api-gateway/src/main/java/com/nozie/gateway/filter/RateLimitFilter.java:84 | once the expiry has passed, the counter starts again and the request passes |
| `RateLimitFilter.CounterWithoutExpiryNeverResets` | Src/server/microservices/api-gateway/src/main/java/com/nozie/gateway/filter/RateLimitFilter.java:83-87 | a counter left without an expiry never resets: once at its ceiling, every later request in that bucket is refused at any time |
| `RateLimitFilter.FailedExpireLeavesNoExpiry` | Src/server/microservices/api-gateway/src/main/java/com/nozie/gateway/filter/RateLimitFilter.java:84-85 | if EXPIRE fails on a window's first request, the counter holds 1 with no expiry and the check reports the error |
| `GatewayChain.OrderIsRateLimitAuthenticationAuthorization` | Src/server/microservices/api-gateway/src/main/java/com/nozie/gateway/filter/RateLimitFilter.java:115-118 | the filter orders are -110, -100 and -90, so rate limiting runs before authentication, which runs before authorisation (AuthenticationFilter.java:161-164, AuthorizationFilter.java:125-128) |
| `GatewayChain.Handle` | Src/server/microservices/api-gateway/src/main/java/com/nozie/gateway/filter/RateLimitFilter.java:59-64 | one request through the chain: with `asWritten`, a header the address lookup throws on ends the request in that exception with no counter changed; otherwise (corrected `ClientIp`) the limiter counts it as the client sent it, before authentication has checked or replaced `X-User-Id`, and a request it lets through goes on to authentication and authorisation |
| `GatewayChain.AuthorizationSeesTokenRoles` | Src/server/microservices/api-gateway/src/main/java/com/nozie/gateway/filter/AuthenticationFilter.java:84 | the roles that authentication joins into `X-User-Roles` are exactly the roles authorisation reads back, when no name is empty or holds a comma |
| `GatewayChain.ForwardedSecuredRequestHoldsARole` | Src/server/microservices/api-gateway/src/main/java/com/nozie/gateway/filter/AuthorizationFilter.java:59-67 | a secured, rule-covered request that passes both filters was carried by a valid token naming one of the rule's roles |
| `GatewayChain.SecuredNeedsHeader` | Src/server/microservices/api-gateway/src/main/java/com/nozie/gateway/filter/AuthenticationFilter.java:60-63 | without an Authorization header under any letter case, a secured request is refused with 401 before the role check, even on a path no rule covers |
| `RefreshTokens.RefreshToken.constructor` | Src/server/microservices/identity-service/src/main/java/com/nozie/identityservice/entity/RefreshToken.java:47-55 | a new token copies its six arguments and has no id, revocation or creation time |
| `RefreshTokens.RefreshToken.OnCreate` | Src/server/microservices/identity-service/src/main/java/com/nozie/identityservice/entity/RefreshToken.java:57-60 | `@PrePersist` stamps only the creation time |
| `RefreshTokens.RefreshToken.Revoke` | Src/server/microservices/identity-service/src/main/java/com/nozie/identityservice/entity/RefreshToken.java:74-77 | `revoke` sets the revocation time and reason with no guard, and the token is then invalid at every instant |
| `RefreshTokens.ValidityWindow` | Src/server/microservices/identity-service/src/main/java/com/nozie/identityservice/entity/RefreshToken.java:62-72 | a token is valid exactly when now is not after its expiry and no revocation is recorded; it is still valid at its expiry instant and expired one second later |
| `RefreshTokens.IssuedValidUntilExpiry` | Src/server/microservices/identity-service/src/main/java/com/nozie/identityservice/entity/RefreshToken.java:47-55 | a freshly issued token is unrevoked, so it is valid exactly until its expiry instant |
| `RefreshTokens.RevokedNeverValid` | Src/server/microservices/identity-service/src/main/java/com/nozie/identityservice/entity/RefreshToken.java:66-77 | revocation is permanent: the revoked token is invalid at every instant, and its value, owner and expiry are unchanged |
| `RefreshTokens.RevokeOverwrites` | Src/server/microservices/identity-service/src/main/java/com/nozie/identityservice/entity/RefreshToken.java:74-77 | a second revocation replaces the first one's time and reason, so the original revocation is lost |
| `RefreshTokenRepository.FindByToken` | Src/server/microservices/identity-service/src/main/java/com/nozie/identityservice/repository/RefreshTokenRepository.java:17 | `findByToken` finds a row holding the value, and finds none exactly when no row holds it |
| `RefreshTokenRepository.RefreshTokenTable.constructor` | Src/server/microservices/identity-service/src/main/java/com/nozie/identityservice/repository/RefreshTokenRepository.java:15 | the table starts empty and valid |
| `RefreshTokenRepository.RefreshTokenTable.Save` | Src/server/microservices/identity-service/src/main/java/com/nozie/identityservice/entity/RefreshToken.java:16-21 | a new token is inserted under the next identity value after `@PrePersist`, unless its value is taken (unique constraint); a loaded one overwrites its row unless that row is gone or its value clashes |
| `RefreshTokenRepository.RefreshTokenTable.RevokeAllByUserIdUpdate` | Src/server/microservices/identity-service/src/main/java/com/nozie/identityservice/repository/RefreshTokenRepository.java:23-26 | the bulk UPDATE revokes exactly the user's unrevoked rows and reports how many there were |
| `RefreshTokenRepository.RefreshTokenTable.DeleteExpiredTokensUpdate` | Src/server/microservices/identity-service/src/main/java/com/nozie/identityservice/repository/RefreshTokenRepository.java:28-30 | the bulk DELETE removes the rows with `expiresAt < now` and reports how many it removed |
| `RefreshTokenRepository.FindByTokenIsTheHolder` | Src/server/microservices/identity-service/src/main/java/com/nozie/identityservice/repository/RefreshTokenRepository.java:17 | under the unique constraint, the row holding the value is the one found |
| `RefreshTokenRepository.RevokeAllEffect` | Src/server/microservices/identity-service/src/main/java/com/nozie/identityservice/repository/RefreshTokenRepository.java:24 | the bulk revocation stamps exactly the user's unrevoked rows; rows already revoked keep their original time and reason; other rows are unchanged; the user then has no unrevoked and no valid token |
| `RefreshTokenRepository.RevokeAllLeavesOthers` | Src/server/microservices/identity-service/src/main/java/com/nozie/identityservice/repository/RefreshTokenRepository.java:24 | another user's unrevoked tokens, and so their count, are untouched |
| `RefreshTokenRepository.RevokeAllIdempotent` | Src/server/microservices/identity-service/src/main/java/com/nozie/identityservice/repository/RefreshTokenRepository.java:24 | a second bulk revocation changes nothing and matches zero rows |
| `RefreshTokenRepository.DeleteExpiredExact` | Src/server/microservices/identity-service/src/main/java/com/nozie/identityservice/repository/RefreshTokenRepository.java:29 | the delete keeps exactly the rows with `expiresAt >= now` (revoked or not) unchanged, the removed rows are the expired ones, and a second delete at the same instant removes nothing |
| `RefreshTokenRepository.CountIncludesExpired` | Src/server/microservices/identity-service/src/main/java/com/nozie/identityservice/repository/RefreshTokenRepository.java:32 | the count of unrevoked tokens includes expired ones, so it is at least the number of tokens still valid |
| `RefreshTokenRepository.CountZeroIffAllRevoked` | Src/server/microservices/identity-service/src/main/java/com/nozie/identityservice/repository/RefreshTokenRepository.java:32 | the count is zero exactly when all of the user's tokens are revoked |
| `TokenBlacklistRepository.FindByJti` | Src/server/microservices/identity-service/src/main/java/com/nozie/identityservice/repository/TokenBlacklistRepository.java:16-18 | `findByJti` finds an entry exactly when `existsByJti` holds, and then the entry names that jti |
| `TokenBlacklistRepository.TokenBlacklistTable.constructor` | Src/server/microservices/identity-service/src/main/java/com/nozie/identityservice/repository/TokenBlacklistRepository.java:14 | the table starts empty and valid |
| `TokenBlacklistRepository.TokenBlacklistTable.Insert` | Src/server/microservices/identity-service/src/main/java/com/nozie/identityservice/entity/TokenBlacklist.java:14-45 | saving an entry whose jti is already listed violates the unique constraint and changes nothing; otherwise the entry is stored under the next id, stamped by `@PrePersist` |
| `TokenBlacklistRepository.TokenBlacklistTable.DeleteExpiredTokensUpdate` | Src/server/microservices/identity-service/src/main/java/com/nozie/identityservice/repository/TokenBlacklistRepository.java:20-22 | the bulk DELETE removes the entries with `expiresAt < now` and reports how many |
| `TokenBlacklistRepository.InsertListsJti` | Src/server/microservices/identity-service/src/main/java/com/nozie/identityservice/repository/TokenBlacklistRepository.java:18 | after listing a jti, `existsByJti` holds for it, and its answer for every other jti is unchanged |
| `TokenBlacklistRepository.DeleteExpiredExact` | Src/server/microservices/identity-service/src/main/java/com/nozie/identityservice/repository/TokenBlacklistRepository.java:21 | the delete keeps exactly the entries with `expiresAt >= now` unchanged, the count is the number removed, and a second delete at the same instant removes nothing |
| `TokenBlacklistRepository.DeleteKeepsLiveJtis` | Src/server/microservices/identity-service/src/main/java/com/nozie/identityservice/repository/TokenBlacklistRepository.java:21 | after the delete a jti is still listed exactly when one of its entries had not expired |
| `UserSessions.UserSession.constructor` | Src/server/microservices/identity-service/src/main/java/com/nozie/identityservice/entity/UserSession.java:53-58 | a new session copies its four arguments, starts active, and has no id or timestamps |
| `UserSessions.UserSession.SetUserAgent` | Src/server/microservices/identity-service/src/main/java/com/nozie/identityservice/entity/UserSession.java:151-153 | the setter changes the user agent only |
| `UserSessions.UserSession.OnCreate` | Src/server/microservices/identity-service/src/main/java/com/nozie/identityservice/entity/UserSession.java:60-64 | `@PrePersist` sets creation and last access to the same instant |
| `UserSessions.UserSession.UpdateLastAccess` | Src/server/microservices/identity-service/src/main/java/com/nozie/identityservice/entity/UserSession.java:66-68 | only the last-access time moves |
| `UserSessions.UserSession.Deactivate` | Src/server/microservices/identity-service/src/main/java/com/nozie/identityservice/entity/UserSession.java:70-72 | only the active flag changes, to false |
| `UserSessions.OpenedIsActive` | Src/server/microservices/identity-service/src/main/java/com/nozie/identityservice/entity/UserSession.java:41-58 | a new session is active and bound to the given user and token, with no timestamps until it is persisted |
| `UserSessions.DeactivateIdempotentTouchKeepsBinding` | Src/server/microservices/identity-service/src/main/java/com/nozie/identityservice/entity/UserSession.java:66-72 | deactivating twice is deactivating once; touching a session keeps its active flag, its token binding and its creation time |
| `UserSessionRepository.FindByRefreshTokenId` | Src/server/microservices/identity-service/src/main/java/com/nozie/identityservice/repository/UserSessionRepository.java:18 | the column is not unique: the single-result finder fails exactly when two sessions share the token id, and otherwise finds the bound session or, exactly when none is bound, nothing |
| `UserSessionRepository.UserSessionTable.constructor` | Src/server/microservices/identity-service/src/main/java/com/nozie/identityservice/repository/UserSessionRepository.java:14 | the table starts empty and valid |
| `UserSessionRepository.UserSessionTable.Save` | Src/server/microservices/identity-service/src/main/java/com/nozie/identityservice/repository/UserSessionRepository.java:14 | a new session is inserted under the next id after `@PrePersist`; a loaded one overwrites its row unless that row is gone |
| `UserSessionRepository.UserSessionTable.DeactivateAllByUserIdUpdate` | Src/server/microservices/identity-service/src/main/java/com/nozie/identityservice/repository/UserSessionRepository.java:20-22 | the bulk UPDATE deactivates every session of the user and reports the number of rows it matched, active or not |
| `UserSessionRepository.DeactivateAllEffect` | Src/server/microservices/identity-service/src/main/java/com/nozie/identityservice/repository/UserSessionRepository.java:21 | afterwards the user has no active session and a zero count; the user's rows are deactivated copies; every other user's rows are unchanged |
| `UserSessionRepository.FindByRefreshTokenIdFindsTheBound` | Src/server/microservices/identity-service/src/main/java/com/nozie/identityservice/repository/UserSessionRepository.java:18 | a session bound to a token that no other session shares is the one the lookup finds |
| `TokenServices.AccessClaims` | Src/server/microservices/identity-service/src/main/java/com/nozie/identityservice/service/TokenService.java:51-77 | an access token carries the fresh jti, the user id as subject, the username and email, exactly the role names, exactly the union of the roles' permission names, type ACCESS, and an expiry the configured milliseconds (in whole seconds) after issue |
| `TokenServices.ValidateRefreshToken` | Src/server/microservices/identity-service/src/main/java/com/nozie/identityservice/service/TokenService.java:130-139 | succeeds exactly when a stored token has the value and is valid now, and answers that token; an unknown value gives "Invalid refresh token", otherwise "Refresh token is expired or revoked" |
| `TokenServices.ValidateAccessToken` | Src/server/microservices/identity-service/src/main/java/com/nozie/identityservice/service/TokenService.java:181-200 | answers the parsed claims exactly when parsing succeeded and the jti is absent or not blacklisted; a parse failure is passed on; a listed jti gives "Token has been revoked" |
| `TokenServices.JtiOf` | Src/server/microservices/identity-service/src/main/java/com/nozie/identityservice/service/TokenService.java:213-220 | the jti of a parsed token, with no blacklist check; a parse failure is passed on |
| `TokenServices.ExpirationOf` | Src/server/microservices/identity-service/src/main/java/com/nozie/identityservice/service/TokenService.java:225-234 | the expiry of a parsed token; a parse failure is passed on |
| `TokenServices.TokenService.constructor` | Src/server/microservices/identity-service/src/main/java/com/nozie/identityservice/service/TokenService.java:30-46 | the service holds the two tables and the configured lifetimes |
| `TokenServices.TokenService.GenerateRefreshToken` | Src/server/microservices/identity-service/src/main/java/com/nozie/identityservice/service/TokenService.java:82-95 | a new unrevoked token for the user is stored under the next id, expiring the configured seconds from now |
| `TokenServices.TokenService.RotateRefreshToken` | Src/server/microservices/identity-service/src/main/java/com/nozie/identityservice/service/TokenService.java:100-125 | a failing validation is answered as is and changes nothing; otherwise the old row is revoked with "Token rotation" and a successor with the same user and device, the caller's address and agent, and a new expiry is stored |
| `TokenServices.TokenService.RevokeRefreshToken` | Src/server/microservices/identity-service/src/main/java/com/nozie/identityservice/service/TokenService.java:144-151 | an unknown value is "Invalid refresh token"; any known token is revoked with the given reason whatever its state |
| `TokenServices.TokenService.RevokeAllUserTokens` | Src/server/microservices/identity-service/src/main/java/com/nozie/identityservice/service/TokenService.java:156-160 | the bulk revocation at now, answering the number of the user's tokens that were unrevoked |
| `TokenServices.TokenService.BlacklistAccessToken` | Src/server/microservices/identity-service/src/main/java/com/nozie/identityservice/service/TokenService.java:165-169 | an ACCESS entry is inserted; a jti already listed violates the unique constraint and changes nothing |
| `TokenServices.TokenService.GetActiveSessionsCount` | Src/server/microservices/identity-service/src/main/java/com/nozie/identityservice/service/TokenService.java:239-241 | the count of unrevoked tokens is zero exactly when all of the user's tokens are revoked |
| `TokenServices.TokenService.CleanupExpiredTokens` | Src/server/microservices/identity-service/src/main/java/com/nozie/identityservice/service/TokenService.java:246-252 | both bulk deletes run at the same instant and report their counts |
| `TokenServices.RotationBlocksReplay` | Src/server/microservices/identity-service/src/main/java/com/nozie/identityservice/service/TokenService.java:100-125 | after a rotation the old value is refused at every later instant as expired or revoked, so a replay cannot rotate again; the successor validates exactly until its expiry; the token column stays unique |
| `TokenServices.BlacklistedTokenRejected` | Src/server/microservices/identity-service/src/main/java/com/nozie/identityservice/service/TokenService.java:189-193 | once a jti is listed every token carrying it is refused as revoked; a token without a jti is never checked against the list |
| `AuditTrail.AuditLog.constructor` | Src/server/microservices/identity-service/src/main/java/com/nozie/identityservice/service/AuditService.java:20-22 | the audit log starts empty |
| `AuditTrail.AuditLog.Append` | Src/server/microservices/identity-service/src/main/java/com/nozie/identityservice/service/AuditService.java:24-47 | `logSuccess`, `logFailure` and `logAdminAction` only append: the earlier entries are kept and the new entry is last |
| `AuthStore.RolledBack` | Src/server/microservices/identity-service/src/main/java/com/nozie/identityservice/service/AuthService.java:19 | a rollback restores every row written in the transaction, while the identity counters keep the values the transaction reached |
| `AuthStore.EndTransaction` | Src/server/microservices/identity-service/src/main/java/com/nozie/identityservice/service/AuthService.java:19 | a committed flow keeps its rows and its result. A failure rolls back unless it is a BadRequest the flow commits on. A flow that completes after a joined helper marked the transaction rollback-only fails with UnexpectedRollback and is rolled back |
| `AuthStore.RolledBackValid` | Src/server/microservices/identity-service/src/main/java/com/nozie/identityservice/service/AuthService.java:19 | since counters only advance, rolling back to a valid store gives a valid store again, and a store whose sessions were all bound stays so |
| `PermissionRepository.FindByName` | Src/server/microservices/identity-service/src/main/java/com/nozie/identityservice/repository/PermissionRepository.java:13-15 | `findByName` finds a row exactly when `existsByName` holds, and the row it finds carries that name |
| `PermissionRepository.FindAllById` | Src/server/microservices/identity-service/src/main/java/com/nozie/identityservice/service/RoleService.java:108 | `findAllById` returns exactly the requested ids that exist; unknown ids are dropped silently |
| `PermissionRepository.PermissionTable.constructor` | Src/server/microservices/identity-service/src/main/java/com/nozie/identityservice/repository/PermissionRepository.java:11 | the permission table starts empty, with names unique |
| `PermissionRepository.PermissionTable.Insert` | Src/server/microservices/identity-service/src/main/java/com/nozie/identityservice/entity/Permission.java:20-44 | an insert with a taken name violates the unique column and changes nothing; otherwise the row is stored under the next id with its `@PrePersist` creation time |
| `PermissionRepository.PermissionTable.Update` | Src/server/microservices/identity-service/src/main/java/com/nozie/identityservice/entity/Permission.java:20-21 | an update to a name another row holds is refused and changes nothing; otherwise only that row is rewritten |
| `PermissionRepository.PermissionTable.Delete` | Src/server/microservices/identity-service/src/main/java/com/nozie/identityservice/service/PermissionService.java:59 | `delete` removes exactly that row |
| `RoleRepository.FindByName` | Src/server/microservices/identity-service/src/main/java/com/nozie/identityservice/service/RoleService.java:78 | `findByName` finds a row exactly when `existsByName` holds, and the row it finds carries that name |
| `RoleRepository.RoleTable.constructor` | Src/server/microservices/identity-service/src/main/java/com/nozie/identityservice/service/RoleService.java:33 | the role table starts empty, with names unique |
| `RoleRepository.RoleTable.Insert` | Src/server/microservices/identity-service/src/main/java/com/nozie/identityservice/service/RoleService.java:33-38 | a role insert with a taken name is refused and changes nothing; otherwise the role is stored under the next id |
| `RoleRepository.RoleTable.Update` | Src/server/microservices/identity-service/src/main/java/com/nozie/identityservice/service/RoleService.java:45-55 | an update to a name another role holds is refused and changes nothing; otherwise only that row is rewritten |
| `RoleRepository.RoleTable.Delete` | Src/server/microservices/identity-service/src/main/java/com/nozie/identityservice/service/RoleService.java:66 | `delete` removes exactly that row |
| `Users.User.constructor` | Src/server/microservices/identity-service/src/main/java/com/nozie/identityservice/entity/User.java:43-67 | `new User()` is ACTIVE, with no failed attempts, no lock, no roles and no id |
| `Users.User.FromRecord` | Src/server/microservices/identity-service/src/main/java/com/nozie/identityservice/entity/User.java:78-81 | a new user whose setters were given some columns holds exactly those columns and has no id |
| `Users.User.Load` | Src/server/microservices/identity-service/src/main/java/com/nozie/identityservice/entity/User.java:26-67 | a user loaded from a row holds that row's columns under its id |
| `Users.User.IsAccountLocked` | Src/server/microservices/identity-service/src/main/java/com/nozie/identityservice/entity/User.java:94-106 | `isAccountLocked` gives the answer and the columns of `LockCheck`, and keeps the id |
| `Users.User.IncrementFailedAttempts` | Src/server/microservices/identity-service/src/main/java/com/nozie/identityservice/entity/User.java:108-114 | the counter goes up by one, and at five the account becomes LOCKED until fifteen minutes later |
| `Users.User.ResetFailedAttempts` | Src/server/microservices/identity-service/src/main/java/com/nozie/identityservice/entity/User.java:116-120 | the counter and the lock time are cleared |
| `Users.User.RecordLogin` | Src/server/microservices/identity-service/src/main/java/com/nozie/identityservice/entity/User.java:122-126 | the login time and address are stamped and the failed attempts reset |
| `Users.User.AddRole` | Src/server/microservices/identity-service/src/main/java/com/nozie/identityservice/entity/User.java:128-133 | the role joins the user's role set and nothing else changes; adding a role already held changes nothing, so adding twice is adding once |
| `Users.User.RemoveRole` | Src/server/microservices/identity-service/src/main/java/com/nozie/identityservice/entity/User.java:135-139 | the role leaves the user's role set, every other role stays, nothing else changes; removing a role not held changes nothing |
| `Users.LockCheckCases` | Src/server/microservices/identity-service/src/main/java/com/nozie/identityservice/entity/User.java:94-106 | the four cases of the lock check. An expired timed lock is lifted (ACTIVE, counter zero, no lock time) and reported unlocked. A timed lock holds up to and including its end. A lock without an end never lifts. ACTIVE and DISABLED accounts are not locked |
| `Users.FailedAttemptsAccumulate` | Src/server/microservices/identity-service/src/main/java/com/nozie/identityservice/entity/User.java:108-114 | n failures raise the counter by n. Below five nothing else changes. Once a run reaches five, the account is LOCKED until fifteen minutes after the last attempt. Password and roles are never touched |
| `Users.FiveFailuresLockFifteenMinutes` | Src/server/microservices/identity-service/src/main/java/com/nozie/identityservice/entity/User.java:94-114 | from a zero counter, five failures lock the account for exactly the fifteen minutes after the fifth, and the first check after that lifts the lock |
| `Users.LoginResets` | Src/server/microservices/identity-service/src/main/java/com/nozie/identityservice/entity/User.java:116-126 | `recordLogin` clears the counter and any lock and stamps the login, leaving credentials and roles alone |
| `UserRepository.FindByUsername` | Src/server/microservices/identity-service/src/main/java/com/nozie/identityservice/service/AuthService.java:245-247 | `findByUsername` finds a row exactly when `existsByUsername` holds, and the row it finds has that username |
| `UserRepository.FindByUsernameOrEmail` | Src/server/microservices/identity-service/src/main/java/com/nozie/identityservice/service/AuthService.java:66-71 | the single-result query fails exactly when two different users match the name, one by username and one by email. Otherwise it finds a matching user, or none exactly when no user matches |
| `UserRepository.UserTable.constructor` | Src/server/microservices/identity-service/src/main/java/com/nozie/identityservice/entity/User.java:29-33 | the user table starts empty, with usernames and emails unique |
| `UserRepository.UserTable.Save` | Src/server/microservices/identity-service/src/main/java/com/nozie/identityservice/entity/User.java:29-91 | a new user is inserted under the next id with its `@PrePersist` time. A loaded user's row takes its columns, with the `@PreUpdate` time only when something changed. A username or email clash is refused and changes nothing |
| `UserRepository.KeysKeptNoClash` | Src/server/microservices/identity-service/src/main/java/com/nozie/identityservice/entity/User.java:29-33 | rewriting a row while keeping its username and email cannot break either unique constraint |
| `AuthServices.CheckLogin` | Src/server/microservices/identity-service/src/main/java/com/nozie/identityservice/service/AuthService.java:74-98 | the checks run in their order. A locked account is refused as locked whatever the password; DISABLED is refused as disabled; a wrong password is counted as a failed attempt. The login is accepted exactly when the account is unlocked, not disabled and the password matches, and it is then recorded. Credentials and roles never change |
| `AuthServices.BlacklistStep` | Src/server/microservices/identity-service/src/main/java/com/nozie/identityservice/service/AuthService.java:149-157 | without an access token nothing happens. A failed step (token cannot be parsed, no jti, jti already listed) leaves the store as it was. Only the blacklist is ever written |
| `AuthServices.RegisterAdvances` | Src/server/microservices/identity-service/src/main/java/com/nozie/identityservice/service/AuthService.java:34-61 | `register` moves no identity counter back and never writes the permission table |
| `AuthServices.LoginAdvances` | Src/server/microservices/identity-service/src/main/java/com/nozie/identityservice/service/AuthService.java:63-131 | `login` moves no identity counter back and never writes the permission table |
| `AuthServices.LoginCheckedAdvances` | Src/server/microservices/identity-service/src/main/java/com/nozie/identityservice/service/AuthService.java:74-130 | the part of `login` after the lookup moves no counter back and never writes the permission table |
| `AuthServices.LogoutAdvances` | Src/server/microservices/identity-service/src/main/java/com/nozie/identityservice/service/AuthService.java:133-160 | `logout` moves no identity counter back and never writes the permission table |
| `AuthServices.LogoutRevokedAdvances` | Src/server/microservices/identity-service/src/main/java/com/nozie/identityservice/service/AuthService.java:142-159 | the part of `logout` after the revocation moves no counter back and never writes the permission table |
| `AuthServices.RefreshAdvances` | Src/server/microservices/identity-service/src/main/java/com/nozie/identityservice/service/AuthService.java:171-211 | `refreshToken` moves no identity counter back and never writes the permission table |
| `AuthServices.ChangePasswordAdvances` | Src/server/microservices/identity-service/src/main/java/com/nozie/identityservice/service/AuthService.java:213-236 | `changePassword` moves no identity counter back and never writes the permission table |
| `AuthServices.LoginUnfolds` | Src/server/microservices/identity-service/src/main/java/com/nozie/identityservice/service/AuthService.java:66-98 | a name the lookup resolves is a stored user, and `login` then continues with the checks on that user's row |
| `AuthServices.RefreshUnfolds` | Src/server/microservices/identity-service/src/main/java/com/nozie/identityservice/service/AuthService.java:175-211 | after a successful rotation, `refreshToken` continues with the successor's user and id |
| `AuthServices.AuthService.constructor` | Src/server/microservices/identity-service/src/main/java/com/nozie/identityservice/service/AuthService.java:24-32 | the service is built over the user, role, token, session and audit tables, and reads the same access-token lifetime as the token service |
| `AuthServices.AuthService.Restore` | Src/server/microservices/identity-service/src/main/java/com/nozie/identityservice/service/AuthService.java:19 | a rollback puts every table back as it was and keeps the counters, and the service stays valid |
| `AuthServices.AuthService.AttemptRegister` | Src/server/microservices/identity-service/src/main/java/com/nozie/identityservice/service/AuthService.java:34-61 | `register` leaves the tables and the result that `RegisterEffect` gives |
| `AuthServices.AuthService.InsertAccount` | Src/server/microservices/identity-service/src/main/java/com/nozie/identityservice/service/AuthService.java:56-58 | the user's `save` and the register entry leave the tables and result `CreateAccount` gives |
| `AuthServices.AuthService.Register` | Src/server/microservices/identity-service/src/main/java/com/nozie/identityservice/service/AuthService.java:34-61 | `register` inside its transaction: the result and tables are those of `RegisterEffect`, ended by a rollback on any failure |
| `AuthServices.AuthService.AttemptLogin` | Src/server/microservices/identity-service/src/main/java/com/nozie/identityservice/service/AuthService.java:63-131 | `login` leaves the tables and the result `LoginEffect` gives |
| `AuthServices.AuthService.CheckUser` | Src/server/microservices/identity-service/src/main/java/com/nozie/identityservice/service/AuthService.java:74-98 | the checks on the loaded entity give the verdict and the columns of `CheckLogin` |
| `AuthServices.AuthService.StoreUser` | Src/server/microservices/identity-service/src/main/java/com/nozie/identityservice/service/AuthService.java:89 | storing the loaded user rewrites only that user's row, stamping it only when it changed |
| `AuthServices.AuthService.AcceptLogin` | Src/server/microservices/identity-service/src/main/java/com/nozie/identityservice/service/AuthService.java:101-130 | the successful end of `login` leaves the tables and answer `LoginAccepted` gives |
| `AuthServices.AuthService.OpenSession` | Src/server/microservices/identity-service/src/main/java/com/nozie/identityservice/service/AuthService.java:102-107 | a login stores a refresh token under the next token id and an active session bound to it, and nothing else |
| `AuthServices.AuthService.Login` | Src/server/microservices/identity-service/src/main/java/com/nozie/identityservice/service/AuthService.java:63-131 | corrected `login`: the result and tables of `LoginEffect`, with a refusal committed so that the failed attempt and its audit entry stay |
| `AuthServices.AuthService.LoginAsWritten` | Src/server/microservices/identity-service/src/main/java/com/nozie/identityservice/service/AuthService.java:19-131 | `login` as declared: the result and tables of `LoginEffect`, with every refusal rolled back |
| `AuthServices.AuthService.AttemptLogout` | Src/server/microservices/identity-service/src/main/java/com/nozie/identityservice/service/AuthService.java:133-160 | `logout` leaves the tables and the result `LogoutEffect` gives, including the rollback-only mark |
| `AuthServices.AuthService.FinishLogout` | Src/server/microservices/identity-service/src/main/java/com/nozie/identityservice/service/AuthService.java:142-159 | the part of `logout` after the revocation leaves the tables `LogoutRevoked` gives |
| `AuthServices.AuthService.Blacklist` | Src/server/microservices/identity-service/src/main/java/com/nozie/identityservice/service/AuthService.java:149-157 | the guarded blacklisting leaves the store and the failure flag `BlacklistStep` gives |
| `AuthServices.AuthService.Logout` | Src/server/microservices/identity-service/src/main/java/com/nozie/identityservice/service/AuthService.java:133-160 | corrected `logout`: a blacklisting failure is kept out of the transaction, so the logout commits |
| `AuthServices.AuthService.LogoutAsWritten` | Src/server/microservices/identity-service/src/main/java/com/nozie/identityservice/service/AuthService.java:133-160 | `logout` as written: the result and tables are `LogoutEffect` ended by the transaction, with rollback-only honoured |
| `AuthServices.AuthService.LogoutAll` | Src/server/microservices/identity-service/src/main/java/com/nozie/identityservice/service/AuthService.java:162-169 | `logoutAll` leaves the tables `LogoutAllEffect` gives |
| `AuthServices.AuthService.RotateInStore` | Src/server/microservices/identity-service/src/main/java/com/nozie/identityservice/service/AuthService.java:175 | a token that does not validate is refused and changes nothing. A valid one is revoked and its successor stored under the next token id |
| `AuthServices.AuthService.AttemptRefresh` | Src/server/microservices/identity-service/src/main/java/com/nozie/identityservice/service/AuthService.java:171-211 | `refreshToken` leaves the tables and the answer `RefreshEffect` gives |
| `AuthServices.AuthService.FinishRefresh` | Src/server/microservices/identity-service/src/main/java/com/nozie/identityservice/service/AuthService.java:177-210 | the part of `refreshToken` after the rotation leaves the tables and answer `RefreshRotated` gives |
| `AuthServices.AuthService.RefreshToken` | Src/server/microservices/identity-service/src/main/java/com/nozie/identityservice/service/AuthService.java:171-211 | `refreshToken` inside its transaction: `RefreshEffect`, ended by a rollback on any failure |
| `AuthServices.AuthService.AttemptChangePassword` | Src/server/microservices/identity-service/src/main/java/com/nozie/identityservice/service/AuthService.java:213-236 | `changePassword` leaves the tables and the result `ChangePasswordEffect` gives |
| `AuthServices.AuthService.FinishPasswordChange` | Src/server/microservices/identity-service/src/main/java/com/nozie/identityservice/service/AuthService.java:225-235 | the part of `changePassword` after the password is stored leaves the tables `PasswordStored` gives |
| `AuthServices.AuthService.ChangePassword` | Src/server/microservices/identity-service/src/main/java/com/nozie/identityservice/service/AuthService.java:213-236 | `changePassword` inside its transaction: `ChangePasswordEffect`, ended by a rollback on any failure |
| `AuthProperties.FindSurvivesRewrite` | Src/server/microservices/identity-service/src/main/java/com/nozie/identityservice/service/AuthService.java:66-71 | rewriting a user's row while keeping its username and email keeps the login lookup's answer |
| `AuthProperties.LockedAccountRefused` | Src/server/microservices/identity-service/src/main/java/com/nozie/identityservice/service/AuthService.java:74-78 | a locked account is refused as locked whatever the password; only the failure entry is written |
| `AuthProperties.DisabledAccountRefused` | Src/server/microservices/identity-service/src/main/java/com/nozie/identityservice/service/AuthService.java:80-84 | a disabled account is refused as disabled whatever the password; only the failure entry is written |
| `AuthProperties.UnknownNameRefused` | Src/server/microservices/identity-service/src/main/java/com/nozie/identityservice/service/AuthService.java:66-71 | an unknown name is refused with the same invalid-credentials message as a wrong password |
| `AuthProperties.LoginSucceeds` | Src/server/microservices/identity-service/src/main/java/com/nozie/identityservice/service/AuthService.java:97-130 | a login past all checks commits. It answers for the found user and clears the counter and lock. It stores a token with the given value, valid for the configured lifetime, under the next token id. It opens a new active session bound to that token |
| `AuthProperties.LoginKeepsSessionsBound` | Src/server/microservices/identity-service/src/main/java/com/nozie/identityservice/service/AuthService.java:101-107 | every session a login stores is bound to a token id already handed out, so all sessions stay bound whichever way the login ends |
| `AuthProperties.WrongPasswordStep` | Src/server/microservices/identity-service/src/main/java/com/nozie/identityservice/service/AuthService.java:87-94 | one wrong password on an ACTIVE account counts the attempt on the row and writes a failure entry |
| `AuthProperties.RefusedLoginsForgottenAsWritten` | Src/server/microservices/identity-service/src/main/java/com/nozie/identityservice/service/AuthService.java:19-94 | as written, a refused login rolls back, so after any number of wrong passwords the user's row (and its lock state) and the audit log are exactly as before |
| `AuthProperties.FailureEntries` | Src/server/microservices/identity-service/src/main/java/com/nozie/identityservice/service/AuthService.java:87-94 | the failure entries a run of refused logins writes: one login-failed entry per attempt |
| `AuthProperties.RefusedLoginsCounted` | Src/server/microservices/identity-service/src/main/java/com/nozie/identityservice/service/AuthService.java:87-94 | with refusals committed, each wrong password counts on the row and leaves its entry. The row is then the row after that many failed attempts, and the lookup still finds the user |
| `AuthProperties.CommittedWrongPassword` | Src/server/microservices/identity-service/src/main/java/com/nozie/identityservice/service/AuthService.java:87-94 | one committed refusal counts the attempt, writes the entry and keeps the user findable |
| `AuthProperties.StampCommutes` | Src/server/microservices/identity-service/src/main/java/com/nozie/identityservice/entity/User.java:88-114 | the modification time plays no part in counting failed attempts |
| `AuthProperties.FiveRefusedLoginsLock` | Src/server/microservices/identity-service/src/main/java/com/nozie/identityservice/service/AuthService.java:74-94 | with refusals committed, five wrong passwords lock the account until fifteen minutes after the fifth; in that time even the right password is refused as locked |
| `AuthProperties.LogoutDoomedAsWritten` | Src/server/microservices/identity-service/src/main/java/com/nozie/identityservice/service/AuthService.java:149-157 | as written, a caught blacklisting failure dooms the commit. The caller gets an unexpected-rollback failure, the refresh token stays valid, its session active, and no entry is written |
| `AuthProperties.LogoutRevokedCompletes` | Src/server/microservices/identity-service/src/main/java/com/nozie/identityservice/service/AuthService.java:142-159 | after the revocation, logout completes, leaves the tokens alone and adds the logout entry; blacklisting only adds to the blacklist |
| `AuthProperties.LogoutRevokedDeactivates` | Src/server/microservices/identity-service/src/main/java/com/nozie/identityservice/service/AuthService.java:142-146 | after the revocation, logout deactivates exactly the sessions bound to the revoked token |
| `AuthProperties.DeactivateBound` | Src/server/microservices/identity-service/src/main/java/com/nozie/identityservice/service/AuthService.java:142-146 | the session update deactivates exactly the session bound to the token when no two share it |
| `AuthProperties.LogoutRevokes` | Src/server/microservices/identity-service/src/main/java/com/nozie/identityservice/service/AuthService.java:133-160 | with the blacklisting failure kept out of the transaction, logout commits. The refresh token is revoked for good, its session deactivated and the logout entry written, whether or not the access token could be blacklisted |
| `AuthProperties.LogoutAllEndsEverything` | Src/server/microservices/identity-service/src/main/java/com/nozie/identityservice/service/AuthService.java:162-169 | after `logoutAll` the user has no unrevoked token and no active session, and none of their tokens is ever valid again. Other users' tokens and sessions are unchanged |
| `AuthProperties.RefreshLeavesSessionsAlone` | Src/server/microservices/identity-service/src/main/java/com/nozie/identityservice/service/AuthService.java:184-188 | the session lookup uses the new token's id, which no session is bound to, so a refresh never touches a session (not even the old token's) and never fails there |
| `AuthProperties.RefreshRotates` | Src/server/microservices/identity-service/src/main/java/com/nozie/identityservice/service/AuthService.java:171-211 | a successful refresh revokes the presented token, so presenting it again fails, and stores a valid token with the new value for the same user under the next token id |
| `AuthProperties.RegisterRefusesTakenName` | Src/server/microservices/identity-service/src/main/java/com/nozie/identityservice/service/AuthService.java:37-39 | a taken username is refused and nothing is written |
| `AuthProperties.CreateAccountStores` | Src/server/microservices/identity-service/src/main/java/com/nozie/identityservice/service/AuthService.java:56-58 | a successful insert stores the given row, stamped with its creation time, under the next user id; the unique constraints still hold and the register entry is written |
| `AuthProperties.RegisterEffectStores` | Src/server/microservices/identity-service/src/main/java/com/nozie/identityservice/service/AuthService.java:41-58 | a completed registration stores the ACTIVE account under the next id with only the USER role, found or created, and writes the register entry |
| `AuthProperties.NewAccountStored` | Src/server/microservices/identity-service/src/main/java/com/nozie/identityservice/service/AuthService.java:41-58 | the insert of a new account holding one USER role stores it under the next id |
| `AuthProperties.RegisterCreatesActiveUser` | Src/server/microservices/identity-service/src/main/java/com/nozie/identityservice/service/AuthService.java:34-61 | a committed registration leaves that account and its entry, the name is then taken, and registering it again is refused |
| `AuthProperties.ChangePasswordStores` | Src/server/microservices/identity-service/src/main/java/com/nozie/identityservice/service/AuthService.java:219-235 | with the right current password, the encoded new password and the change time are stored and the rest of the row kept. On request every token and session of the user is ended as by `logoutAll` |
| `AuthProperties.ChangePasswordRefusal` | Src/server/microservices/identity-service/src/main/java/com/nozie/identityservice/service/AuthService.java:216-223 | an unknown user or a wrong current password is refused and rolled back, failure entry included |
| `UserMapper.MapRoles` | Src/server/microservices/identity-service/src/main/java/com/nozie/identityservice/mapper/UserMapper.java:32-39 | null roles map to null; otherwise a name is in the result exactly when some role carries it |
| `UserMapper.MapPermissions` | Src/server/microservices/identity-service/src/main/java/com/nozie/identityservice/mapper/UserMapper.java:41-49 | null roles map to null; otherwise a name is in the result exactly when some role has a permission of that name |
| `UserMapper.FlatteningDistributes` | Src/server/microservices/identity-service/src/main/java/com/nozie/identityservice/mapper/UserMapper.java:32-49 | both flattenings distribute over a union of role sets, so adding a role adds exactly its name and its permission names |
| `UserMapper.ResolvedRoleFlattened` | Src/server/microservices/identity-service/src/main/java/com/nozie/identityservice/mapper/UserMapper.java:32-49 | each held role's name, and each of its permissions' names, appears in the flattened sets |
| `UserMapper.ResponseDefaults` | Src/server/microservices/identity-service/src/main/java/com/nozie/identityservice/mapper/UserMapper.java:17-54 | with a creation time, the response is built. Its last-login text is "" exactly when there was no login. Its phone is the user's own phone number. Without a profile every profile field is null. The status is the enum's name |
| `UserServices.UserById` | Src/server/microservices/identity-service/src/main/java/com/nozie/identityservice/service/UserService.java:49-53 | `getUserById` finds exactly the stored users and returns their row; an unknown id is a BadRequest "User not found" |
| `UserServices.WithStatus` | Src/server/microservices/identity-service/src/main/java/com/nozie/identityservice/service/UserService.java:58-62 | the new status is set; a manual lock clears the lock's end time; nothing else changes, the failed-attempt counter included |
| `UserServices.StatusAction` | Src/server/microservices/identity-service/src/main/java/com/nozie/identityservice/service/UserService.java:66-67 | the audit action is USER_LOCK for LOCKED, USER_DISABLE for DISABLED and USER_UNLOCK for ACTIVE, in both directions |
| `UserServices.ManualLockHasNoExpiry` | Src/server/microservices/identity-service/src/main/java/com/nozie/identityservice/service/UserService.java:60-62 | a manual lock never lifts by itself: every later lock check reports it locked and leaves the row as it is |
| `UserServices.UnlockKeepsCounter` | Src/server/microservices/identity-service/src/main/java/com/nozie/identityservice/service/UserService.java:55-64 | an admin unlock keeps the failed-attempt counter, so an account locked by five failures is locked again, for fifteen minutes, by the next failure |
| `UserServices.RemovalKeepsARole` | Src/server/microservices/identity-service/src/main/java/com/nozie/identityservice/service/UserService.java:96-101 | removing one role from more than one leaves at least one |
| `UserServices.RoleNames` | Src/server/microservices/identity-service/src/main/java/com/nozie/identityservice/service/UserService.java:129-135 | `getUserRoleNames` fails for an unknown user; otherwise a name is returned exactly when one of the user's roles carries it |
| `UserServices.PermissionNames` | Src/server/microservices/identity-service/src/main/java/com/nozie/identityservice/service/UserService.java:137-144 | `getUserPermissionNames` fails for an unknown user; otherwise a name is returned exactly when some permission of some role of the user carries it |
| `UserServices.HasRole` | Src/server/microservices/identity-service/src/main/java/com/nozie/identityservice/service/UserService.java:146-149 | `hasRole` is true exactly when one of the user's roles has that name; an unknown user is an error |
| `UserServices.HasPermission` | Src/server/microservices/identity-service/src/main/java/com/nozie/identityservice/service/UserService.java:151-154 | `hasPermission` is true exactly when a permission of one of the user's roles has that name; an unknown user is an error |
| `UserServices.UserSessionIds` | Src/server/microservices/identity-service/src/main/java/com/nozie/identityservice/service/UserService.java:124-127 | `getUserSessions` lists exactly the user's active sessions |
| `UserServices.ProfileMergeLaws` | Src/server/microservices/identity-service/src/main/java/com/nozie/identityservice/service/UserService.java:167-180 | exactly the fields the request carries change, to the request's values, and genres are replaced whole. An empty request changes nothing, and repeating an update is the same as doing it once |
| `UserServices.WithPhone` | Src/server/microservices/identity-service/src/main/java/com/nozie/identityservice/service/UserService.java:182-184 | the user's phone number changes only when the request carries one; no other column changes |
| `UserServices.ProfileTable.constructor` | Src/server/microservices/identity-service/src/main/java/com/nozie/identityservice/service/UserService.java:34 | the profile table starts empty |
| `UserServices.ProfileTable.Save` | Src/server/microservices/identity-service/src/main/java/com/nozie/identityservice/service/UserService.java:186 | `save` inserts or overwrites the user's profile and touches no other |
| `UserServices.UserService.constructor` | Src/server/microservices/identity-service/src/main/java/com/nozie/identityservice/service/UserService.java:30-42 | the service is built over the given tables |
| `UserServices.UserService.StoreUser` | Src/server/microservices/identity-service/src/main/java/com/nozie/identityservice/service/UserService.java:64 | saving a loaded user rewrites only its row and cannot break a unique constraint |
| `UserServices.UserService.UpdateUserStatus` | Src/server/microservices/identity-service/src/main/java/com/nozie/identityservice/service/UserService.java:55-74 | an unknown user is refused and nothing changes. Otherwise the new status is stored, a manual lock without an end time, and the admin action logged with the matching audit action |
| `UserServices.UserService.AddRoleToUser` | Src/server/microservices/identity-service/src/main/java/com/nozie/identityservice/service/UserService.java:76-89 | an unknown user, then an unknown role, is refused and nothing changes. Otherwise the role joins the user's set and the grant is logged |
| `UserServices.UserService.RemoveRoleFromUser` | Src/server/microservices/identity-service/src/main/java/com/nozie/identityservice/service/UserService.java:91-109 | an unknown user, an unknown role, or a user with at most one role (whether or not they hold this one) is refused and nothing changes. Otherwise the role is taken out and the revocation logged |
| `UserServices.UserService.ForceLogoutUser` | Src/server/microservices/identity-service/src/main/java/com/nozie/identityservice/service/UserService.java:111-122 | every unrevoked token of the user is revoked and every session deactivated, so none is left. The admin action is logged even for an unknown id |
| `UserServices.UserService.UpdateProfile` | Src/server/microservices/identity-service/src/main/java/com/nozie/identityservice/service/UserService.java:156-192 | an unknown user is refused. Otherwise the request is merged into the profile (empty if missing) and the phone into the user. Both are saved and the update logged |
| `RoleServices.CreateOutcome` | Src/server/microservices/identity-service/src/main/java/com/nozie/identityservice/service/RoleService.java:30-39 | a role is created exactly when neither the checked name nor its upper-cased form is taken, and is then stored upper-cased with no permissions. A checked name that is taken is a BadRequest. With the corrected check every refusal is that BadRequest |
| `RoleServices.Renamed` | Src/server/microservices/identity-service/src/main/java/com/nozie/identityservice/service/RoleService.java:44-53 | a given name that differs from the current one replaces it upper-cased; a given description replaces it; the permissions stay |
| `RoleServices.UpdateOutcome` | Src/server/microservices/identity-service/src/main/java/com/nozie/identityservice/service/RoleService.java:41-56 | an unknown role is "Role not found"; without a different name the setters simply apply. A different name is refused when taken: as written the raw name is checked, corrected the upper-cased name. Otherwise it is renamed |
| `RoleServices.GetRoleById` | Src/server/microservices/identity-service/src/main/java/com/nozie/identityservice/service/RoleService.java:70-74 | `getRoleById` finds exactly the stored roles; an unknown id is a BadRequest "Role not found" |
| `RoleServices.GetRoleByName` | Src/server/microservices/identity-service/src/main/java/com/nozie/identityservice/service/RoleService.java:76-80 | `getRoleByName` finds a role exactly when one has the name as given, and otherwise fails naming it |
| `RoleServices.EnsureRoleGrows` | Src/server/microservices/identity-service/src/main/java/com/nozie/identityservice/service/RoleService.java:118-129 | one seeding step keeps every row, adds at most the named role under the next id, and leaves the name present |
| `RoleServices.EnsureRolesGrows` | Src/server/microservices/identity-service/src/main/java/com/nozie/identityservice/service/RoleService.java:117-130 | the seeding run keeps every row and afterwards every default name exists |
| `RoleServices.EnsureRolesPresent` | Src/server/microservices/identity-service/src/main/java/com/nozie/identityservice/service/RoleService.java:117-130 | with every default name present the seeding run changes nothing |
| `RoleServices.DefaultNamesUpper` | Src/server/microservices/identity-service/src/main/java/com/nozie/identityservice/service/RoleService.java:118-128 | ADMIN, USER and MODERATOR are already upper case, so seeding stores them as given |
| `RoleServices.InitializeDefaultRolesIdempotent` | Src/server/microservices/identity-service/src/main/java/com/nozie/identityservice/service/RoleService.java:117-130 | `initializeDefaultRoles` leaves ADMIN, USER and MODERATOR present, keeps every existing role, and running it again changes nothing |
| `RoleServices.CaseVariantReachesConstraint` | Src/server/microservices/identity-service/src/main/java/com/nozie/identityservice/service/RoleService.java:33-38 | with ADMIN stored, the check as written lets "admin" through to the insert, which the unique constraint rejects as a data-access error; the corrected check refuses it as a BadRequest |
| `RoleServices.CorrectedKeepsNamesUpper` | Src/server/microservices/identity-service/src/main/java/com/nozie/identityservice/service/RoleService.java:30-56 | with the corrected check, creating or renaming a role never hits the unique constraint, and all stored names stay upper case |
| `RoleServices.RoleService.constructor` | Src/server/microservices/identity-service/src/main/java/com/nozie/identityservice/service/RoleService.java:25-28 | the service is built over the given role and permission tables |
| `RoleServices.RoleService.CreateRole` | Src/server/microservices/identity-service/src/main/java/com/nozie/identityservice/service/RoleService.java:30-39 | `createRole` inserts exactly the row `CreateOutcome` gives under the next id, or fails with its error and changes nothing |
| `RoleServices.RoleService.UpdateRole` | Src/server/microservices/identity-service/src/main/java/com/nozie/identityservice/service/RoleService.java:41-56 | `updateRole` answers `UpdateOutcome` and rewrites only that role's row when it succeeds |
| `RoleServices.RoleService.DeleteRole` | Src/server/microservices/identity-service/src/main/java/com/nozie/identityservice/service/RoleService.java:58-68 | an unknown id, ADMIN and USER are refused and nothing changes; a role some user still holds fails on the `user_roles` foreign key (entity/User.java:64-67) and nothing changes; any other role is deleted |
| `RoleServices.RoleService.StorePermissions` | Src/server/microservices/identity-service/src/main/java/com/nozie/identityservice/service/RoleService.java:93 | saving a role with a new permission set rewrites only that row and cannot hit the unique constraint |
| `RoleServices.RoleService.AddPermissionToRole` | Src/server/microservices/identity-service/src/main/java/com/nozie/identityservice/service/RoleService.java:87-94 | an unknown role, then an unknown permission, is refused and nothing changes; otherwise the permission joins the role's set |
| `RoleServices.RoleService.RemovePermissionFromRole` | Src/server/microservices/identity-service/src/main/java/com/nozie/identityservice/service/RoleService.java:96-103 | an unknown role, then an unknown permission, is refused and nothing changes; otherwise the permission leaves the role's set |
| `RoleServices.RoleService.SetPermissions` | Src/server/microservices/identity-service/src/main/java/com/nozie/identityservice/service/RoleService.java:105-112 | an unknown role is refused; otherwise the role's set becomes exactly the given ids that name a permission, the rest dropped silently |
| `RoleServices.RoleService.EnsureDefault` | Src/server/microservices/identity-service/src/main/java/com/nozie/identityservice/service/RoleService.java:118-121 | one `if (!existsByName(n)) createRole(n, d)` step leaves the table `EnsureRole` gives |
| `RoleServices.RoleService.InitializeDefaultRoles` | Src/server/microservices/identity-service/src/main/java/com/nozie/identityservice/service/RoleService.java:117-130 | `initializeDefaultRoles` leaves the table the seeding run over ADMIN, USER and MODERATOR gives |
| `PermissionServices.CreateOutcome` | Src/server/microservices/identity-service/src/main/java/com/nozie/identityservice/service/PermissionService.java:25-34 | `createPermission` is refused with "already exists" exactly when the name is taken; otherwise it creates the permission as given |
| `PermissionServices.Updated` | Src/server/microservices/identity-service/src/main/java/com/nozie/identityservice/service/PermissionService.java:44-52 | every given field replaces the stored one, absent ones stay, and the creation time stays |
| `PermissionServices.UpdateOutcome` | Src/server/microservices/identity-service/src/main/java/com/nozie/identityservice/service/PermissionService.java:36-55 | an unknown id is "Permission not found". A different name that is taken is refused. Otherwise the setters apply, and the new name never meets the unique constraint |
| `PermissionServices.GetPermissionById` | Src/server/microservices/identity-service/src/main/java/com/nozie/identityservice/service/PermissionService.java:63-67 | `getPermissionById` finds exactly the stored permissions; an unknown id is a BadRequest "Permission not found" |
| `PermissionServices.GetPermissionByName` | Src/server/microservices/identity-service/src/main/java/com/nozie/identityservice/service/PermissionService.java:69-73 | `getPermissionByName` finds a permission exactly when one has that name, and otherwise fails naming it |
| `PermissionServices.PermissionsByResource` | Src/server/microservices/identity-service/src/main/java/com/nozie/identityservice/service/PermissionService.java:80-83 | `getPermissionsByResource` returns exactly the permissions of that resource |
| `PermissionServices.EnsurePermissionsAppend` | Src/server/microservices/identity-service/src/main/java/com/nozie/identityservice/service/PermissionService.java:88-108 | seeding two lists one after the other is seeding their concatenation, so the five groups compose |
| `PermissionServices.EnsurePermissionsGrows` | Src/server/microservices/identity-service/src/main/java/com/nozie/identityservice/service/PermissionService.java:110-116 | a seeding run keeps every existing row, leaves every default name present, and keeps ids below the next one |
| `PermissionServices.EnsurePermissionsPresent` | Src/server/microservices/identity-service/src/main/java/com/nozie/identityservice/service/PermissionService.java:110-116 | with every default name present a seeding run changes nothing, whenever it runs |
| `PermissionServices.InitializeDefaultPermissionsIdempotent` | Src/server/microservices/identity-service/src/main/java/com/nozie/identityservice/service/PermissionService.java:88-108 | `initializeDefaultPermissions` leaves all thirteen names present and every existing permission unchanged, and a second run at any later time changes nothing |
| `PermissionServices.SeedsEmptyTable` | Src/server/microservices/identity-service/src/main/java/com/nozie/identityservice/service/PermissionService.java:110-116 | on an empty table, distinct defaults are stored one row each under consecutive ids |
| `PermissionServices.SeedsFrom` | Src/server/microservices/identity-service/src/main/java/com/nozie/identityservice/service/PermissionService.java:110-116 | a run over distinct names none of which is present adds exactly one row per name |
| `PermissionServices.FreshTableGetsThirteen` | Src/server/microservices/identity-service/src/main/java/com/nozie/identityservice/service/PermissionService.java:88-108 | a fresh table ends up with exactly thirteen permissions, under ids 0 to 12 |
| `PermissionServices.DefaultNamesDistinct` | Src/server/microservices/identity-service/src/main/java/com/nozie/identityservice/service/PermissionService.java:89-105 | the thirteen default names are pairwise different |
| `PermissionServices.PermissionService.constructor` | Src/server/microservices/identity-service/src/main/java/com/nozie/identityservice/service/PermissionService.java:21-23 | the service is built over the given permission table |
| `PermissionServices.PermissionService.CreatePermission` | Src/server/microservices/identity-service/src/main/java/com/nozie/identityservice/service/PermissionService.java:25-34 | `createPermission` inserts the row `CreateOutcome` gives under the next id, stamped at creation, or fails with its error and changes nothing |
| `PermissionServices.PermissionService.UpdatePermission` | Src/server/microservices/identity-service/src/main/java/com/nozie/identityservice/service/PermissionService.java:36-55 | `updatePermission` answers `UpdateOutcome` and rewrites only that row when it succeeds |
| `PermissionServices.PermissionService.DeletePermission` | Src/server/microservices/identity-service/src/main/java/com/nozie/identityservice/service/PermissionService.java:57-61 | an unknown id is refused and nothing changes; a permission some role still grants fails on the `role_permissions` foreign key and nothing changes; otherwise exactly that row is deleted |
| `PermissionServices.PermissionService.CreateIfNotExists` | Src/server/microservices/identity-service/src/main/java/com/nozie/identityservice/service/PermissionService.java:110-116 | `createIfNotExists` leaves a present name alone and otherwise inserts the default under the next id |
| `PermissionServices.PermissionService.CreateThree` | Src/server/microservices/identity-service/src/main/java/com/nozie/identityservice/service/PermissionService.java:89-105 | three `createIfNotExists` calls leave the table the run over those three defaults gives |
| `PermissionServices.PermissionService.CreateTwo` | Src/server/microservices/identity-service/src/main/java/com/nozie/identityservice/service/PermissionService.java:97-101 | two `createIfNotExists` calls leave the table the run over those two defaults gives |
| `PermissionServices.PermissionService.InitializeDefaultPermissions` | Src/server/microservices/identity-service/src/main/java/com/nozie/identityservice/service/PermissionService.java:88-108 | `initializeDefaultPermissions` leaves the table the run over all thirteen defaults, in order, gives |
| `Movies.NewMovie` | Src/server/microservices/movie-service/src/main/java/com/nozie/movieservice/common/model/Movie.java:47-81 | a new document takes the listing columns and the builder defaults: view 0, price 0, access FREE, source OPHIM, created now, no media and no update time |
| `Movies.FindBySlug` | Src/server/microservices/movie-service/src/main/java/com/nozie/movieservice/common/repository/MovieRepository.java:13 | `findBySlug` finds a document exactly when one has the slug, and it is that document |
| `Movies.ReplaceKeepsSlugsUnique` | Src/server/microservices/movie-service/src/main/java/com/nozie/movieservice/common/model/Movie.java:31-33 | replacing or inserting a document keeps the unique slug index when the new slug is its old one or belongs to no document |
| `Movies.MovieCollection.constructor` | Src/server/microservices/movie-service/src/main/java/com/nozie/movieservice/common/repository/MovieRepository.java:11 | the collection starts empty, with slugs unique |
| `Movies.MovieCollection.Save` | Src/server/microservices/movie-service/src/main/java/com/nozie/movieservice/common/repository/MovieRepository.java:11 | `save` inserts or replaces the document under its id and touches no other |
| `Movies.MovieCollection.DeleteById` | Src/server/microservices/movie-service/src/main/java/com/nozie/movieservice/common/repository/MovieRepository.java:11 | `deleteById` removes exactly that document |
| `StreamingServices.Clamp` | Src/server/microservices/movie-service/src/main/java/com/nozie/movieservice/streaming/service/StreamingService.java:115-117 | an index inside `[0, n)` is kept and any other becomes 0 |
| `StreamingServices.BuildPlayUrl` | Src/server/microservices/movie-service/src/main/java/com/nozie/movieservice/streaming/service/StreamingService.java:86-149 | the answer names the movie. It is the custom stream exactly when server 0 episode 0 is asked for and a custom URL is non-blank, and then it has no embed link |
| `StreamingServices.CustomFirst` | Src/server/microservices/movie-service/src/main/java/com/nozie/movieservice/streaming/service/StreamingService.java:87-99 | with a non-blank custom URL, server 0 episode 0 plays the custom stream as "Custom"/"Full" |
| `StreamingServices.ClampedIndexSkipsCustom` | Src/server/microservices/movie-service/src/main/java/com/nozie/movieservice/streaming/service/StreamingService.java:88-119 | an out-of-range server index falls back to server 0 but not to the custom stream |
| `StreamingServices.NoEpisodesGivesNullLinks` | Src/server/microservices/movie-service/src/main/java/com/nozie/movieservice/streaming/service/StreamingService.java:101-113 | a movie without servers gives null server, episode and links |
| `StreamingServices.EmptyServerGivesItsName` | Src/server/microservices/movie-service/src/main/java/com/nozie/movieservice/streaming/service/StreamingService.java:120-132 | a server without episodes gives its name and nothing else |
| `StreamingServices.InRangeSelectsItem` | Src/server/microservices/movie-service/src/main/java/com/nozie/movieservice/streaming/service/StreamingService.java:134-148 | in-range indices select exactly that server's episode and its links |
| `StreamingServices.OutOfRangeIsClamped` | Src/server/microservices/movie-service/src/main/java/com/nozie/movieservice/streaming/service/StreamingService.java:115-138 | an out-of-range index plays what index 0 plays on that axis |
| `StreamingServices.LinksComeFromMovie` | Src/server/microservices/movie-service/src/main/java/com/nozie/movieservice/streaming/service/StreamingService.java:86-149 | every link handed out is the custom stream or a link of one of the movie's own episodes |
| `StreamingServices.ServerEntry` | Src/server/microservices/movie-service/src/main/java/com/nozie/movieservice/streaming/service/StreamingService.java:157-171 | a server entry keeps the server name; a null `isAi` counts as false; a null episode list is empty; the episodes keep their order and links |
| `StreamingServices.BuildEpisodesResponse` | Src/server/microservices/movie-service/src/main/java/com/nozie/movieservice/streaming/service/StreamingService.java:151-181 | one entry per server, in the stored order, each the server's entry, with the movie's id, name and custom URL |
| `StreamingServices.Viewed` | Src/server/microservices/movie-service/src/main/java/com/nozie/movieservice/streaming/service/StreamingService.java:27 | one more view: a null counter counts as 0, and nothing else changes |
| `StreamingServices.ViewsCount` | Src/server/microservices/movie-service/src/main/java/com/nozie/movieservice/streaming/service/StreamingService.java:27 | on a document without a counter, n+1 views leave the count at n+1 |
| `StreamingServices.ViewsAccumulate` | Src/server/microservices/movie-service/src/main/java/com/nozie/movieservice/streaming/service/StreamingService.java:27 | n views add exactly n to a counter and change nothing else |
| `StreamingServices.StreamingService.constructor` | Src/server/microservices/movie-service/src/main/java/com/nozie/movieservice/streaming/service/StreamingService.java:21 | the service is built over the movie collection |
| `StreamingServices.StreamingService.IncrementViewCount` | Src/server/microservices/movie-service/src/main/java/com/nozie/movieservice/streaming/service/StreamingService.java:23-29 | an unknown id is a not-found error naming the id and nothing changes; otherwise only that document's counter goes up by one |
| `StreamingServices.StreamingService.IncrementViewCountBySlug` | Src/server/microservices/movie-service/src/main/java/com/nozie/movieservice/streaming/service/StreamingService.java:31-36 | an unknown slug is a not-found error naming the slug and nothing changes; otherwise only that document's counter goes up by one |
| `StreamingServices.GetPlayUrl` | Src/server/microservices/movie-service/src/main/java/com/nozie/movieservice/streaming/service/StreamingService.java:41-63 | an unknown id is exactly the not-found error; otherwise the answer is for that movie |
| `StreamingServices.GetPlayUrlBySlug` | Src/server/microservices/movie-service/src/main/java/com/nozie/movieservice/streaming/service/StreamingService.java:50-69 | an unknown slug is exactly the not-found error; otherwise the answer is for the movie with that slug |
| `MovieRepository.MatchesIsConjunction` | Src/server/microservices/movie-service/src/main/java/com/nozie/movieservice/common/repository/MovieRepositoryImpl.java:25-44 | the query matches exactly the documents that pass every given filter. A string filter counts only when neither null nor blank; the year counts whenever given; the keyword is a case-insensitive literal match on the name or the original name |
| `MovieRepository.NoFilterMatchesAll` | Src/server/microservices/movie-service/src/main/java/com/nozie/movieservice/common/repository/MovieRepositoryImpl.java:25-44 | with no filter given, or only blank ones, every document matches |
| `MovieRepository.Matching` | Src/server/microservices/movie-service/src/main/java/com/nozie/movieservice/common/repository/MovieRepositoryImpl.java:45-47 | the matches keep the collection's order: each is a document of the collection that matches, and every matching document is among them |
| `MovieRepository.Slice` | Src/server/microservices/movie-service/src/main/java/com/nozie/movieservice/common/repository/MovieRepositoryImpl.java:46-47 | a page holds the documents at positions `[offset, offset + size)`, as far as there are any |
| `MovieRepository.FindWithFilter` | Src/server/microservices/movie-service/src/main/java/com/nozie/movieservice/common/repository/MovieRepositoryImpl.java:23-49 | a page holds at most `size` matching documents, and its total is the count of all matches, taken before paging |
| `MovieRepository.TotalIgnoresPage` | Src/server/microservices/movie-service/src/main/java/com/nozie/movieservice/common/repository/MovieRepositoryImpl.java:45 | the total does not depend on the page number or page size asked for |
| `MovieRepository.PagesCover` | Src/server/microservices/movie-service/src/main/java/com/nozie/movieservice/common/repository/MovieRepositoryImpl.java:46-48 | consecutive pages of one size, taken together, are exactly the prefix of the matches they span, so no match is skipped or repeated |
| `MovieRepository.DistinctYears` | Src/server/microservices/movie-service/src/main/java/com/nozie/movieservice/common/repository/MovieRepositoryImpl.java:51-54 | `findDistinctYears` gives exactly the year values that occur, null included |
| `CatalogServices.MapToEntity` | Src/server/microservices/movie-service/src/main/java/com/nozie/movieservice/catalog/service/CatalogService.java:187-212 | the request's listing columns replace the movie's, and a null price is stored as 0. The access type changes only when the request has one; everything else is kept |
| `CatalogServices.PricedAccess` | Src/server/microservices/movie-service/src/main/java/com/nozie/movieservice/catalog/service/CatalogService.java:47-53 | the derived access type is RENTAL exactly for a positive price, otherwise FREE, and never PREMIUM |
| `CatalogServices.CreatedMovie` | Src/server/microservices/movie-service/src/main/java/com/nozie/movieservice/catalog/service/CatalogService.java:38-56 | the stored movie has the request's listing, its price (null stored as 0), the builder defaults for view, source and creation time, no media, and always an access type |
| `CatalogServices.CreatedAccessFollowsPrice` | Src/server/microservices/movie-service/src/main/java/com/nozie/movieservice/catalog/service/CatalogService.java:45-53 | corrected: an explicit access type is kept, otherwise RENTAL for a positive price and FREE for none or zero |
| `CatalogServices.PricedMovieStaysFreeAsWritten` | Src/server/microservices/movie-service/src/main/java/com/nozie/movieservice/catalog/service/CatalogService.java:45-53 | as written, a priced request without an access type is stored FREE, where the corrected reading stores RENTAL |
| `CatalogServices.AsWrittenAccessIgnoresPrice` | Src/server/microservices/movie-service/src/main/java/com/nozie/movieservice/catalog/service/CatalogService.java:45-53 | as written the stored access type does not depend on the price at all |
| `CatalogServices.CatalogService.constructor` | Src/server/microservices/movie-service/src/main/java/com/nozie/movieservice/catalog/service/CatalogService.java:33 | the service is built over the movie collection |
| `CatalogServices.CatalogService.CreateMovie` | Src/server/microservices/movie-service/src/main/java/com/nozie/movieservice/catalog/service/CatalogService.java:38-56 | a taken slug is refused naming it, and nothing changes; otherwise exactly the movie `CreatedMovie` describes is stored under a fresh id |
| `CatalogServices.CatalogService.UpdateMovie` | Src/server/microservices/movie-service/src/main/java/com/nozie/movieservice/catalog/service/CatalogService.java:75-86 | `updateMovie` answers `UpdateOutcome`, stores the mapped movie under that id on success, and changes nothing on failure |
| `CatalogServices.CatalogService.DeleteMovie` | Src/server/microservices/movie-service/src/main/java/com/nozie/movieservice/catalog/service/CatalogService.java:88-93 | an unknown id is "not found" and nothing changes; otherwise exactly that document is deleted |
| `CatalogServices.UpdateOutcome` | Src/server/microservices/movie-service/src/main/java/com/nozie/movieservice/catalog/service/CatalogService.java:75-86 | an unknown id is exactly the not-found error. Success maps the request onto the stored movie. A refusal means the new slug differs and belongs to another movie |
| `CatalogServices.UpdateKeepsSlugAndAccess` | Src/server/microservices/movie-service/src/main/java/com/nozie/movieservice/catalog/service/CatalogService.java:78-83 | keeping the slug never conflicts, and an update without an access type keeps the stored one whatever the new price |
| `CatalogServices.GetMovieById` | Src/server/microservices/movie-service/src/main/java/com/nozie/movieservice/catalog/service/CatalogService.java:63-67 | `getMovieById` finds exactly the stored movies and returns that document, otherwise not found by id |
| `CatalogServices.GetMovieBySlug` | Src/server/microservices/movie-service/src/main/java/com/nozie/movieservice/catalog/service/CatalogService.java:69-73 | `getMovieBySlug` finds a movie exactly when one has the slug, otherwise not found by slug |
| `CatalogServices.SearchMovies` | Src/server/microservices/movie-service/src/main/java/com/nozie/movieservice/catalog/service/CatalogService.java:95-102 | a null or blank keyword returns every movie; otherwise exactly those whose name or original name contains the trimmed keyword, ignoring case |
| `CatalogServices.SearchIgnoresPadding` | Src/server/microservices/movie-service/src/main/java/com/nozie/movieservice/catalog/service/CatalogService.java:97-101 | padding the keyword with spaces does not change the search |
| `CatalogServices.TrimPadded` | Src/server/microservices/movie-service/src/main/java/com/nozie/movieservice/catalog/service/CatalogService.java:97-101 | trimming a space-padded string is trimming the string |
| `CatalogServices.PageIndex` | Src/server/microservices/movie-service/src/main/java/com/nozie/movieservice/catalog/service/CatalogService.java:123 | the zero-based page index is the page number minus one, and 0 for any number below 1 |
| `CatalogServices.PageSize` | Src/server/microservices/movie-service/src/main/java/com/nozie/movieservice/catalog/service/CatalogService.java:123 | the page size is clamped to `[1, 50]` and kept inside it |
| `CatalogServices.TotalPages` | Src/server/microservices/movie-service/src/main/java/com/nozie/movieservice/catalog/service/CatalogService.java:134 | the page count is the least number of pages of that size that hold every item |
| `CatalogServices.GetMoviesWithFilter` | Src/server/microservices/movie-service/src/main/java/com/nozie/movieservice/catalog/service/CatalogService.java:119-136 | the reported page is the served index plus one, and the size is the clamped size. The total counts every match. The page holds at most `size` movies and each one matches the filters |
| `CatalogServices.GetLatestMovies` | Src/server/microservices/movie-service/src/main/java/com/nozie/movieservice/catalog/service/CatalogService.java:170-185 | a page of all movies: the reported page and size as for the filtered listing, and the total counts every movie |
| `CatalogServices.PageNumbersFromOne` | Src/server/microservices/movie-service/src/main/java/com/nozie/movieservice/catalog/service/CatalogService.java:123-131 | a page number below 1 is served as page 1 and reported as page 1 |
| `CatalogServices.NonNull` | Src/server/microservices/movie-service/src/main/java/com/nozie/movieservice/catalog/service/CatalogService.java:152 | the filtered years are exactly the non-null ones |
| `CatalogServices.SortDescending` | Src/server/microservices/movie-service/src/main/java/com/nozie/movieservice/catalog/service/CatalogService.java:152 | the years are sorted largest first and are a permutation of the input |
| `CatalogServices.GetDistinctYears` | Src/server/microservices/movie-service/src/main/java/com/nozie/movieservice/catalog/service/CatalogService.java:148-153 | a null answer gives an empty list; otherwise it gives the non-null years, as a permutation, largest first |
| `CatalogServices.DistinctYearsStrictlyDescending` | Src/server/microservices/movie-service/src/main/java/com/nozie/movieservice/catalog/service/CatalogService.java:148-153 | over distinct repository values, the list holds every non-null year exactly once, strictly descending |
| `ServerMovieServices.NewMovie` | Src/server/microservices/movie-service/src/main/java/com/nozie/movieservice/model/Movie.java:55-78 | a new document has view 0, price 0, the free flag set, the creation time now and no update time |
| `ServerMovieServices.Mapped` | Src/server/microservices/movie-service/src/main/java/com/nozie/movieservice/service/MovieService.java:109-129 | the request's listing and price (null stored as 0) replace the movie's, the free flag is recomputed from that price, and nothing else changes |
| `ServerMovieServices.FreeFollowsPrice` | Src/server/microservices/movie-service/src/main/java/com/nozie/movieservice/service/MovieService.java:35 | an omitted price gives a free movie and a positive price a paid one |
| `ServerMovieServices.ReplaceKeepsSlugsUnique` | Src/server/microservices/movie-service/src/main/java/com/nozie/movieservice/model/Movie.java:32-33 | a replacement whose slug is its old one or free keeps the unique slug index |
| `ServerMovieServices.UpdateOutcome` | Src/server/microservices/movie-service/src/main/java/com/nozie/movieservice/service/MovieService.java:57-70 | an unknown id is exactly the not-found error. Success maps the request onto the stored movie with the flag recomputed. A refusal means the new slug differs and is taken |
| `ServerMovieServices.Incremented` | Src/server/microservices/movie-service/src/main/java/com/nozie/movieservice/service/MovieService.java:103-107 | a document without a counter fails on the unboxing exactly; otherwise the counter goes up by exactly one and nothing else changes |
| `ServerMovieServices.SearchMovies` | Src/server/microservices/movie-service/src/main/java/com/nozie/movieservice/service/MovieService.java:79-86 | a null or blank keyword returns every movie; otherwise exactly those whose name or original name contains the trimmed keyword, ignoring case |
| `ServerMovieServices.MovieService.constructor` | Src/server/microservices/movie-service/src/main/java/com/nozie/movieservice/service/MovieService.java:25 | the collection starts empty, with slugs unique |
| `ServerMovieServices.MovieService.CreateMovie` | Src/server/microservices/movie-service/src/main/java/com/nozie/movieservice/service/MovieService.java:27-38 | a taken slug is refused and nothing changes; otherwise the mapped new movie, with the free flag from its price, is stored under a fresh id |
| `ServerMovieServices.MovieService.UpdateMovie` | Src/server/microservices/movie-service/src/main/java/com/nozie/movieservice/service/MovieService.java:57-70 | `updateMovie` answers `UpdateOutcome`, stores its movie on success, and changes nothing on failure |
| `ServerMovieServices.MovieService.DeleteMovie` | Src/server/microservices/movie-service/src/main/java/com/nozie/movieservice/service/MovieService.java:72-77 | an unknown id is not found and nothing changes; otherwise exactly that document is deleted |
| `ServerMovieServices.MovieService.IncrementViewCount` | Src/server/microservices/movie-service/src/main/java/com/nozie/movieservice/service/MovieService.java:103-107 | an unknown id is not found and a missing counter fails; in both cases nothing changes. Otherwise only that document's counter goes up by one |
| `ServerMovieServices.CreatedMoviesCount` | Src/server/microservices/movie-service/src/main/java/com/nozie/movieservice/service/MovieService.java:103-107 | a movie with a counter (every movie this service creates) never fails to count, and n views add exactly n |
| `BackendMovieServices.NewMovie` | Src/backend/springboot-microservices/src/main/java/com/nozie/movieservice/model/Movie.java:62-91 | a new row has view 0, price 0, the free flag set and the creation time now |
| `BackendMovieServices.MapDtoToEntity` | Src/backend/springboot-microservices/src/main/java/com/nozie/movieservice/service/impl/MovieServiceImpl.java:187-212 | the DTO's listing and price (null stored as 0) replace the row's, and its view only when the DTO carries one; nothing else changes |
| `BackendMovieServices.WithFreeFlag` | Src/backend/springboot-microservices/src/main/java/com/nozie/movieservice/service/impl/MovieServiceImpl.java:58-59 | the free flag is set from the price, and nothing else changes |
| `BackendMovieServices.Created` | Src/backend/springboot-microservices/src/main/java/com/nozie/movieservice/service/impl/MovieServiceImpl.java:54-59 | the created movie has the DTO's listing, the free flag from its price, the DTO's view or 0, the creation time now and no update time |
| `BackendMovieServices.ReplaceKeepsSlugsUnique` | Src/backend/springboot-microservices/src/main/java/com/nozie/movieservice/model/Movie.java:34-36 | a replacement whose slug is its old one or free keeps the unique slug column |
| `BackendMovieServices.CreateOutcome` | Src/backend/springboot-microservices/src/main/java/com/nozie/movieservice/service/impl/MovieServiceImpl.java:40-66 | a null or blank name is refused exactly as the empty-name error. A duplicate-slug refusal means a valid name on a taken slug. Success stores `Created` |
| `BackendMovieServices.UpdateOutcome` | Src/backend/springboot-microservices/src/main/java/com/nozie/movieservice/service/impl/MovieServiceImpl.java:91-118 | an unknown id is exactly not found. Success is the mapped row, stamped with the update time, with the flag recomputed. A refusal means a changed slug that is taken |
| `BackendMovieServices.NameCheckedBeforeSlug` | Src/backend/springboot-microservices/src/main/java/com/nozie/movieservice/service/impl/MovieServiceImpl.java:44-52 | a blank name is refused as such even when the slug is taken too |
| `BackendMovieServices.GetMovieById` | Src/backend/springboot-microservices/src/main/java/com/nozie/movieservice/service/impl/MovieServiceImpl.java:75-81 | `getMovieById` finds exactly the stored rows, otherwise not found by id |
| `BackendMovieServices.GetMovieBySlug` | Src/backend/springboot-microservices/src/main/java/com/nozie/movieservice/service/impl/MovieServiceImpl.java:83-89 | `getMovieBySlug` finds a row exactly when one has the slug, otherwise not found by slug |
| `BackendMovieServices.SearchMovies` | Src/backend/springboot-microservices/src/main/java/com/nozie/movieservice/service/impl/MovieServiceImpl.java:134-145 | a null or blank keyword returns every row; otherwise exactly those whose name or original name contains the trimmed keyword, ignoring case |
| `BackendMovieServices.FindNewReleases` | Src/backend/springboot-microservices/src/main/java/com/nozie/movieservice/repository/MovieRepository.java:67-71 | `findNewReleases(minYear)` gives exactly the rows with a year of at least `minYear` |
| `BackendMovieServices.GetNewReleases` | Src/backend/springboot-microservices/src/main/java/com/nozie/movieservice/service/impl/MovieServiceImpl.java:161-167 | the window starts two years before the current year: a movie from then is in it, one from three years before is not, and rows without a year never are |
| `BackendMovieServices.MovieServiceImpl.constructor` | Src/backend/springboot-microservices/src/main/java/com/nozie/movieservice/service/impl/MovieServiceImpl.java:38 | the table starts empty, with slugs unique |
| `BackendMovieServices.MovieServiceImpl.CreateMovie` | Src/backend/springboot-microservices/src/main/java/com/nozie/movieservice/service/impl/MovieServiceImpl.java:40-66 | a refusal changes nothing; otherwise the row of `CreateOutcome` is stored under the next identity value |
| `BackendMovieServices.MovieServiceImpl.UpdateMovie` | Src/backend/springboot-microservices/src/main/java/com/nozie/movieservice/service/impl/MovieServiceImpl.java:91-118 | `updateMovie` answers `UpdateOutcome`, stores its row on success, and changes nothing on failure |
| `BackendMovieServices.MovieServiceImpl.DeleteMovie` | Src/backend/springboot-microservices/src/main/java/com/nozie/movieservice/service/impl/MovieServiceImpl.java:120-132 | an unknown id is not found and nothing changes; otherwise exactly that row is deleted |
| `BackendMovieServices.MovieServiceImpl.IncrementViewCount` | Src/backend/springboot-microservices/src/main/java/com/nozie/movieservice/service/impl/MovieServiceImpl.java:176-182 | an unknown id is not found and nothing changes; otherwise only that row's view goes up by one, stamped by `@PreUpdate` |
| `BackendMovieServices.FreeFlagFollowsPrice` | Src/backend/springboot-microservices/src/main/java/com/nozie/movieservice/service/impl/MovieServiceImpl.java:57-59 | every successful create and update sets the free flag from the price |
| `OPhimImport.BuildFullImageUrl` | Src/server/microservices/movie-service/tools/import.js:39-43 | a falsy path gives null exactly. A path starting with "http" is kept. Any other path is put under the CDN's `/uploads/movies/` |
| `OPhimImport.FullImageUrlIdempotent` | Src/server/microservices/movie-service/tools/import.js:39-43 | making a URL absolute twice gives the same as once |
| `OPhimImport.OrFalse` | Src/server/microservices/movie-service/tools/import.js:140-141 | `x \|\| false` is true exactly when the flag is present and true |
| `OPhimImport.MapRefs` | Src/server/microservices/movie-service/tools/import.js:144-153 | a missing category or country list becomes empty; otherwise each reference keeps its id, name and slug, in order |
| `OPhimImport.MapEpisode` | Src/server/microservices/movie-service/tools/import.js:190-200 | a server keeps its name. A missing `isAi` becomes false. A missing episode list becomes empty. Each episode keeps its links, in order |
| `OPhimImport.MapEpisodes` | Src/server/microservices/movie-service/tools/import.js:190-200 | a missing server list becomes empty; otherwise every server is mapped in order |
| `OPhimImport.MapMovieFromOPhim` | Src/server/microservices/movie-service/tools/import.js:124-203 | the defaults: empty language keys and lists, false flags, absolute image URLs, "OPHIM" source, "FREE" access, import time now, modification time defaulting to now. The detail fields appear exactly in the detail view |
| `OPhimImport.DetailExtendsBasic` | Src/server/microservices/movie-service/tools/import.js:176-201 | the detail view only adds fields to the list view's mapping |
| `OPhimImport.ImportedEpisodesKeepOrder` | Src/server/microservices/movie-service/tools/import.js:190-200 | the i-th server's j-th episode keeps its stream link, and its server's `isAi` defaults to false |
| `OPhimImport.SetFields` | Src/server/microservices/movie-service/tools/import.js:222-225 | an upsert with `$set` replaces the mapped fields and keeps the stored detail fields the mapping does not carry |
| `OPhimImport.ListImportKeepsDetailImports` | Src/server/microservices/movie-service/tools/import.js:239-255 | a document that holds episodes is never changed by a list import |
| `OPhimImport.ListImportCoversList` | Src/server/microservices/movie-service/tools/import.js:239-255 | after a list import every listed slug has a document and no document is lost |
| `OPhimImport.ListImportCountBounds` | Src/server/microservices/movie-service/tools/import.js:239-255 | the count returned is at most the list's length, and all of it when no document held episodes |
| `OPhimImport.MovieImporter.ImportMoviesFromList` | Src/server/microservices/movie-service/tools/import.js:235-255 | the loop leaves the collection the list import gives and returns its count |
| `OPhimImport.MovieImporter.ImportMovieBySlug` | Src/server/microservices/movie-service/tools/import.js:209-229 | a failed fetch returns null and changes nothing; otherwise the detail mapping is stored whole under its slug and returned |
| `CustomerServices.PutKeepsUnique` | Src/server/microservices/customer-service/src/main/java/com/nozie/customerservice/model/Customer.java:24-30 | a row whose email and Firebase uid no other row holds keeps both unique columns unique |
| `CustomerServices.Created` | Src/server/microservices/customer-service/src/main/java/com/nozie/customerservice/service/CustomerService.java:33-40 | a new customer carries the request's profile and uid, is not subscribed, has no Stripe id and was created now |
| `CustomerServices.Edited` | Src/server/microservices/customer-service/src/main/java/com/nozie/customerservice/service/CustomerService.java:76-81 | an update replaces the six profile fields and keeps the uid, Stripe id, subscription and times |
| `CustomerServices.Flushed` | Src/server/microservices/customer-service/src/main/java/com/nozie/customerservice/model/Customer.java:60-63 | the update time is stamped exactly when the saved row differs from the loaded one |
| `CustomerServices.CreateOutcome` | Src/server/microservices/customer-service/src/main/java/com/nozie/customerservice/service/CustomerService.java:26-43 | creation succeeds exactly when neither the email nor the uid is taken. A taken email is refused first with its message. Otherwise a clash can only be the uid constraint |
| `CustomerServices.UpdateOutcome` | Src/server/microservices/customer-service/src/main/java/com/nozie/customerservice/service/CustomerService.java:68-84 | a missing id is exactly not found. Keeping one's own email always succeeds. A new email succeeds exactly when no row holds it. Success saves the edited row |
| `CustomerServices.UpdateKeepsUnique` | Src/server/microservices/customer-service/src/main/java/com/nozie/customerservice/service/CustomerService.java:68-84 | an accepted update keeps both unique columns |
| `CustomerServices.UpdateRefusesTakenEmails` | Src/server/microservices/customer-service/src/main/java/com/nozie/customerservice/service/CustomerService.java:71-74 | on a consistent table an update is refused exactly when another customer holds the email |
| `CustomerServices.GetCustomerById` | Src/server/microservices/customer-service/src/main/java/com/nozie/customerservice/service/CustomerService.java:50-54 | `getCustomerById` finds exactly the stored rows, otherwise not found by id |
| `CustomerServices.GetCustomerByEmail` | Src/server/microservices/customer-service/src/main/java/com/nozie/customerservice/service/CustomerService.java:56-60 | `getCustomerByEmail` finds exactly when a row has the email, and answers that row; otherwise not found by email |
| `CustomerServices.GetCustomerByFirebaseUid` | Src/server/microservices/customer-service/src/main/java/com/nozie/customerservice/service/CustomerService.java:62-66 | `getCustomerByFirebaseUid` finds exactly when a row has the uid, and answers that row; otherwise not found by uid |
| `CustomerServices.LookupByEmailIsUnique` | Src/server/microservices/customer-service/src/main/java/com/nozie/customerservice/service/CustomerService.java:56-60 | the lookup by email answers the one row that holds it |
| `CustomerServices.CustomerService.CreateCustomer` | Src/server/microservices/customer-service/src/main/java/com/nozie/customerservice/service/CustomerService.java:26-43 | a taken email changes nothing; a taken Firebase uid stores nothing but uses up the identity value its failed insert drew. Success stores `Created` under the next identity value, and the table stays consistent |
| `CustomerServices.CustomerService.UpdateCustomer` | Src/server/microservices/customer-service/src/main/java/com/nozie/customerservice/service/CustomerService.java:68-84 | `updateCustomer` answers `UpdateOutcome`, stores its row only on success, and keeps the table consistent |
| `CustomerServices.CustomerService.DeleteCustomer` | Src/server/microservices/customer-service/src/main/java/com/nozie/customerservice/service/CustomerService.java:86-91 | a missing id is not found and nothing changes; otherwise exactly that row is deleted |
| `CustomerServices.CustomerService.UpdateStripeCustomerId` | Src/server/microservices/customer-service/src/main/java/com/nozie/customerservice/service/CustomerService.java:93-97 | a missing id is not found and nothing changes; otherwise only the Stripe id, and the update time when it changed |
| `CustomerServices.CustomerService.UpdateSubscription` | Src/server/microservices/customer-service/src/main/java/com/nozie/customerservice/service/CustomerService.java:99-103 | a missing id is not found and nothing changes; otherwise the row becomes `Subscribed` |
| `CustomerServices.Subscribed` | Src/server/microservices/customer-service/src/main/java/com/nozie/customerservice/service/CustomerService.java:99-103 | the flag is set and the rest kept, with the update time stamped only when the flag changed |
| `CustomerServices.SubscriptionIdempotent` | Src/server/microservices/customer-service/src/main/java/com/nozie/customerservice/service/CustomerService.java:99-103 | setting the same subscription twice equals setting it once |
| `Transactions.Created` | Src/server/microservices/payment-service/src/main/java/com/nozie/paymentservice/domain/model/Transaction.java:59-71 | a new transaction is pending, created now, with the given customer, movie, amount and currency and no Stripe ids, message or later times |
| `Transactions.MarkedSucceeded` | Src/server/microservices/payment-service/src/main/java/com/nozie/paymentservice/domain/model/Transaction.java:74-83 | an already succeeded transaction is unchanged. Any other becomes succeeded with the three Stripe ids and the payment time, and its other columns stay |
| `Transactions.MarkedFailed` | Src/server/microservices/payment-service/src/main/java/com/nozie/paymentservice/domain/model/Transaction.java:85-89 | any transaction becomes failed with the message and the failure time, and its other columns stay |
| `Transactions.AfterCancel` | Src/server/microservices/payment-service/src/main/java/com/nozie/paymentservice/domain/model/Transaction.java:91-96 | only a pending transaction becomes canceled, at the cancel time; any other is unchanged |
| `Transactions.Transaction.Create` | Src/server/microservices/payment-service/src/main/java/com/nozie/paymentservice/domain/model/Transaction.java:59-71 | the created entity has no id yet and holds `Created` |
| `Transactions.Transaction.MarkAsSucceeded` | Src/server/microservices/payment-service/src/main/java/com/nozie/paymentservice/domain/model/Transaction.java:74-83 | the entity's columns become `MarkedSucceeded` of the old ones |
| `Transactions.Transaction.MarkAsFailed` | Src/server/microservices/payment-service/src/main/java/com/nozie/paymentservice/domain/model/Transaction.java:85-89 | the entity's columns become `MarkedFailed` of the old ones |
| `Transactions.Transaction.Cancel` | Src/server/microservices/payment-service/src/main/java/com/nozie/paymentservice/domain/model/Transaction.java:91-96 | the entity's columns become `AfterCancel` of the old ones |
| `Transactions.SucceededIsIdempotent` | Src/server/microservices/payment-service/src/main/java/com/nozie/paymentservice/domain/model/Transaction.java:75-77 | a second success call changes nothing, whatever ids and time it carries |
| `Transactions.CancelOnlyFromPending` | Src/server/microservices/payment-service/src/main/java/com/nozie/paymentservice/domain/model/Transaction.java:91-96 | a cancel gives canceled exactly from pending or canceled, and canceling twice is canceling once |
| `Transactions.FailureOverridesSuccess` | Src/server/microservices/payment-service/src/main/java/com/nozie/paymentservice/domain/model/Transaction.java:85-89 | a succeeded transaction can still be marked failed, and it keeps its payment time and charge |
| `Transactions.StepsKeepStatusKnown` | Src/server/microservices/payment-service/src/main/java/com/nozie/paymentservice/domain/model/Transaction.java:29 | any sequence of the three calls keeps one of the four statuses and never changes the customer, movie, amount, currency or creation time |
| `Transactions.CanceledNeverPaid` | Src/server/microservices/payment-service/src/main/java/com/nozie/paymentservice/domain/model/Transaction.java:91-96 | no call sequence reaches canceled with a payment time, starting from an unpaid, succeeded or failed transaction |
| `Transactions.CreatedStartsPending` | Src/server/microservices/payment-service/src/main/java/com/nozie/paymentservice/domain/model/Transaction.java:59-96 | every created transaction, after any calls, has a known status and, if canceled, no payment time |
| `PaymentApplicationServices.Response` | Src/server/microservices/payment-service/src/main/java/com/nozie/paymentservice/application/service/PaymentApplicationService.java:70-76 | the response carries the saved transaction's id |
| `PaymentApplicationServices.MovieFailure` | Src/server/microservices/payment-service/src/main/java/com/nozie/paymentservice/application/service/PaymentApplicationService.java:38-47 | the movie check passes exactly on a reply with data; any other outcome becomes a "Could not validate movie: " error |
| `PaymentApplicationServices.CustomerFailure` | Src/server/microservices/payment-service/src/main/java/com/nozie/paymentservice/application/service/PaymentApplicationService.java:49-58 | the customer check passes exactly on a reply with data; any other outcome becomes a "Could not validate customer: " error |
| `PaymentApplicationServices.EventFor` | Src/server/microservices/payment-service/src/main/java/com/nozie/paymentservice/application/service/PaymentApplicationService.java:78-84 | the event carries the saved id and the transaction's customer, movie, amount and currency |
| `PaymentApplicationServices.PaymentResult` | Src/server/microservices/payment-service/src/main/java/com/nozie/paymentservice/application/service/PaymentApplicationService.java:34-87 | `createPayment` succeeds exactly when the movie and the customer are both found and the event is sent, and then answers the saved id |
| `PaymentApplicationServices.MovieCheckedFirst` | Src/server/microservices/payment-service/src/main/java/com/nozie/paymentservice/application/service/PaymentApplicationService.java:38-47 | a movie that fails validation ends the call after the movie lookup alone; a missing movie is reported as not found |
| `PaymentApplicationServices.CustomerCheckedBeforeSave` | Src/server/microservices/payment-service/src/main/java/com/nozie/paymentservice/application/service/PaymentApplicationService.java:49-58 | a customer that fails validation ends the call before any save or send; a missing customer is reported as not found |
| `PaymentApplicationServices.SaveThenPublish` | Src/server/microservices/payment-service/src/main/java/com/nozie/paymentservice/application/service/PaymentApplicationService.java:60-84 | with both checks passed, one pending transaction with the request's values is saved, then the event for it is sent |
| `PaymentApplicationServices.EventNamesPendingTransaction` | Src/server/microservices/payment-service/src/main/java/com/nozie/paymentservice/application/service/PaymentApplicationService.java:78-84 | the payment event is sent while its transaction is still pending |
| `PaymentApplicationServices.GetTransactionById` | Src/server/microservices/payment-service/src/main/java/com/nozie/paymentservice/application/service/PaymentApplicationService.java:93-96 | `getTransactionById` finds exactly the stored rows, otherwise "Transaction not found" |
| `PaymentApplicationServices.TransactionsOf` | Src/server/microservices/payment-service/src/main/java/com/nozie/paymentservice/application/service/PaymentApplicationService.java:89-91 | `getTransactionsByCustomer` gives exactly that customer's transactions |
| `PaymentApplicationServices.CreatedPaymentIsNoPurchase` | Src/server/microservices/payment-service/src/main/java/com/nozie/paymentservice/application/service/PaymentApplicationService.java:98-100 | saving a new payment does not make `hasPurchased` true |
| `PaymentApplicationServices.SucceededIsPurchase` | Src/server/microservices/payment-service/src/main/java/com/nozie/paymentservice/application/service/PaymentApplicationService.java:98-100 | marking a transaction succeeded makes `hasPurchased` true for its customer and movie |
| `PaymentApplicationServices.PaymentApplicationService.CreatePayment` | Src/server/microservices/payment-service/src/main/java/com/nozie/paymentservice/application/service/PaymentApplicationService.java:34-87 | the answer is `PaymentResult`. The calls made are exactly `PaymentCalls`, in order. The transaction is stored only on success, and a failed send rolls the save back |

## Left out

- The I/O around the logic, whose results enter as parameters:
  - Reactor `Mono` plumbing, Redis, JPA, MongoTemplate and the Feign clients;
  - the clock, UUIDs and random token values;
  - JWT signing and parsing;
  - the password encoder.
- Concurrency. Two gateway requests racing on one counter are not modelled, and neither are two logins racing on one user row.
- Redis expiry races. A key expires exactly when its window ends.
- The access logging filter, the exception handlers, the controllers, the data initializers and the Spring Boot `main` classes: they make no decisions the core depends on.
- Audit details. An audit entry keeps the user, the action and the outcome. The IP address, user agent and free-text details are dropped.
- The `updateProfile` audit entry: its action is not declared in the source's enum.
- Bean validation annotations (`@NotBlank`, `@Email`, `@Min`). The model takes requests as they reach the service methods.
- Pass-through listings: `getAllRoles`, `getAllPermissions`, `getAllUsers`, `getAllCustomers`, `getAllMovies`, `getMoviesByType`, `getTrendingMovies`, `getTopTrending`, `getFreeMovies`, `getAllGenres` and `getAllCountries`, and the server movie service's `getMovieById` and `getMovieBySlug`, which are the lookups `CatalogServices` models. `getMoviesByGenre`, `getMoviesByCountry` and `getMoviesByYear` are `getMoviesWithFilter` with one criterion set. They are single repository calls with nothing to state beyond the query.
- The episode lookups `getEpisodes` and `getEpisodesBySlug`. Only the list they return, `buildEpisodesResponse`, is modelled.
- Sort orders of repository queries. Results are modelled as sets or filtered lists; ordering is modelled only where the service code sorts, as in `getDistinctYears`.
- SQL `LIKE` and Mongo regex wildcards in a search keyword. A keyword is matched as a literal substring.
- Case folding beyond ASCII. `toLowerCase`, `toUpperCase` and the case-insensitive comparison of HTTP header names are modelled on ASCII letters only.
- Floating-point `tmdbRating` and `imdbRating`. The OPhim importer passes them through untouched; the catalogue `Movie` has no rating fields, so the overwrite of both in `updateMovie` (Src/server/microservices/movie-service/src/main/java/com/nozie/movieservice/catalog/service/CatalogService.java:204-205) is not modelled. Prices and amounts are exact `real`s, so `BigDecimal` precision and the `(10, 2)` column scale are not modelled.
- `MovieMapper`: a field-for-field copy to the response type.
- The mapping from entity field names to Mongo and column names.
- Java `int` overflow in page arithmetic: page numbers are unbounded.
- Re-running the chain on a downstream error. In both the rate limiter and the authenticator, `onErrorResume` wraps the call to the rest of the chain as well as the Redis call, so an error raised further down the chain runs the chain again for the same request. The model feeds only store errors into `onErrorResume`.
- The join-table foreign keys. `DeleteRole` and `DeletePermission` take the `user_roles` and `role_permissions` foreign keys to be those JPA generates for the join tables; no schema file is part of this model. The `Role` entity is not part of this model either: the model has a role own its permission links, so they are removed with it.
- The message broker. The payment event is recorded as a call; whether the broker delivers it, and its consumer, are not modelled.
- The backend tree's `PaymentApplicationService`, a variant without validation.
- A commit that fails for a reason of the database's own (a lost connection, a deadlock). The one commit failure the code itself causes, the unexpected-rollback commit of `logout`, is modelled by `LogoutAsWritten`; otherwise a transaction commits or rolls back as the service code decides.
- In the OPhim importer: `importGenres`, `importCountries`, `importMovies`, `importMoviesByGenre`, `fetchJson`, `sleep` and `main`. These are the HTTP paging loops and argument handling around the mapping; a fetched page or movie is a parameter.
- The identity service's `UserRepository`, `Role` entity and `RoleRepository` source files are not part of this model: their queries are modelled on the rows as derived queries of the same names.
- GenerateRefreshToken: requires the new token value to be unused. It stands for the uniqueness of the random UUID the source draws, which the table's unique column would otherwise enforce with an error.
- RotateRefreshToken: the same unused-value precondition on the successor token.
- AttemptLogin: the same unused-value precondition on the issued refresh token.
- Login: the same unused-value precondition on the issued refresh token.
- OpenSession: the same unused-value precondition on the issued refresh token.
- RotateInStore: the same unused-value precondition on the successor token.
- AttemptRefresh: the same unused-value precondition on the successor token.
- RefreshToken: the same unused-value precondition on the successor token.
- AcceptLogin: the same unused-value precondition on the issued refresh token.
- LoginAsWritten: the same unused-value precondition on the issued refresh token.
- Login: the locked-account message is the fixed prefix "Account is locked. Try again after ", without the formatted `lockedUntil` time the source appends.
- LoginAsWritten: the same fixed locked-account message, without the formatted `lockedUntil` time.

## Findings

| source | as written | input that shows it | evidently intended | confidence | as-written member | corrected member |
|---|---|---|---|---|---|---|
| Src/server/microservices/api-gateway/src/main/java/com/nozie/gateway/filter/RateLimitFilter.java:93-94 | `getClientIP` takes `split(",")[0]` of any non-empty `X-Forwarded-For`. Java's `split` drops trailing empty strings, so a header of commas only gives an empty array, and indexing it throws inside the filter | a request with `X-Forwarded-For: ,` | such a header carries no address, so the lookup should fall back to `X-Real-IP` or the peer address | not executed | `RateLimitFilter.ClientIpAsWritten`, `RateLimitFilter.CommaOnlyForwardedForThrows` | `RateLimitFilter.ClientIp`, `RateLimitFilter.CommaOnlyForwardedForThrows` |
| Src/server/microservices/identity-service/src/main/java/com/nozie/identityservice/service/AuthService.java:87-94 | the class is `@Transactional` (line 19). A wrong password saves the incremented failure count and then throws `BadRequestException`, a runtime exception, so Spring rolls the count and the failure audit entry back. The five-attempt lockout of `User.incrementFailedAttempts` is never reached through login | five logins with a wrong password for an active user | each refusal is committed, so the fifth locks the account for fifteen minutes | not executed | `AuthServices.AuthService.LoginAsWritten`, `AuthProperties.RefusedLoginsForgottenAsWritten` | `AuthServices.AuthService.Login`, `AuthProperties.RefusedLoginsCounted`, `AuthProperties.FiveRefusedLoginsLock` |
| Src/server/microservices/movie-service/src/main/java/com/nozie/movieservice/catalog/service/CatalogService.java:45-53 | the access type is derived from the price only when `getAccessType()` is null. `new Movie()` already holds the builder default FREE, and `mapToEntity` leaves it when the request has none, so the branch never runs | creating a movie with price 50000 and no access type | a priced movie without an explicit access type becomes RENTAL | not executed | `CatalogServices.PricedMovieStaysFreeAsWritten`, `CatalogServices.AsWrittenAccessIgnoresPrice` | `CatalogServices.CreatedAccessFollowsPrice` |
| Src/server/microservices/identity-service/src/main/java/com/nozie/identityservice/service/AuthService.java:149-157 | `logout` catches a blacklisting failure so that logout goes on. The failure happened inside the shared transaction, which it marked rollback-only, so the commit at the end fails with an unexpected rollback and undoes the revocation, the session deactivation and the audit entry | a logout whose access token is already in the blacklist table (or cannot be parsed) | a logout whose blacklisting fails still revokes the refresh token, deactivates the session and commits | not executed | `AuthServices.AuthService.LogoutAsWritten`, `AuthProperties.LogoutDoomedAsWritten` | `AuthServices.AuthService.Logout`, `AuthProperties.LogoutRevokes` |
| Src/server/microservices/identity-service/src/main/java/com/nozie/identityservice/service/RoleService.java:33-38 | `createRole` checks `existsByName` on the name as given, but stores `name.toUpperCase()` | creating "admin" while ADMIN exists | the duplicate is refused with the "already exists" BadRequest, not by the unique constraint as a data-access error | not executed | `RoleServices.CaseVariantReachesConstraint` | `RoleServices.CorrectedKeepsNamesUpper` |
