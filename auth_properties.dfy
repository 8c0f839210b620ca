// What the authentication flows guarantee, stated over their effects on
// the tables and over how their transactions end: the order of the login
// checks, the lockout over a run of refused logins, what logout, logout
// everywhere, refresh, register and password change leave behind.

module AuthProperties {
  import opened Common
  import opened ServiceErrors
  import opened AuditTrail
  import opened AuthStore
  import opened Users
  import opened UserSessions
  import opened RefreshTokens
  import UserRepository
  import RoleRepository
  import RefreshTokenRepository
  import TokenBlacklistRepository
  import UserSessionRepository
  import opened TokenServices
  import opened AuthServices

  // ---------------------------------------------------------------------
  // Login

  /** Rewriting a user's row without changing its username or email keeps
    * the login lookup's answer. */
  lemma FindSurvivesRewrite(rows: UserRepository.Rows, name: string, id: nat, v: UserRecord)
    requires UserRepository.FindByUsernameOrEmail(rows, name) == Ok(Some(id))
    requires v.username == rows[id].username && v.email == rows[id].email
    ensures UserRepository.FindByUsernameOrEmail(rows[id := v], name) == Ok(Some(id))
  {
    var r := rows[id := v];
    assert forall k :: k in r ==> (UserRepository.MatchesLogin(r[k], name) <==> UserRepository.MatchesLogin(rows[k], name));
    assert id in r && UserRepository.MatchesLogin(r[id], name);
  }

  /** A locked account is refused with the locked message whatever the
    * password, and only the failure entry is written. */
  lemma LockedAccountRefused(s: Store, username: string, password: string, c: Client, matches: (string, string) -> bool,
                             jti: string, refreshValue: string, now: nat, accessMs: nat, refreshMs: nat, id: nat)
    requires UserRepository.FindByUsernameOrEmail(s.users, username) == Ok(Some(id))
    requires s.users[id].LockCheck(now).0
    ensures var o := LoginEffect(s, username, password, c, matches, jti, refreshValue, now, accessMs, refreshMs);
      o.result == Err(BadRequest(AccountLocked)) && !o.rollbackOnly
      && o.store == s.(audit := s.audit + [AuditEntry(Some(id), LOGIN_FAILED, Failed)])
  {
    LoginUnfolds(s, username, password, c, matches, jti, refreshValue, now, accessMs, refreshMs, id);
    assert s.users[id := s.users[id]] == s.users;
  }

  /** A disabled account is refused with the disabled message whatever the
    * password, and only the failure entry is written. */
  lemma DisabledAccountRefused(s: Store, username: string, password: string, c: Client, matches: (string, string) -> bool,
                               jti: string, refreshValue: string, now: nat, accessMs: nat, refreshMs: nat, id: nat)
    requires UserRepository.FindByUsernameOrEmail(s.users, username) == Ok(Some(id))
    requires s.users[id].status == DISABLED
    ensures var o := LoginEffect(s, username, password, c, matches, jti, refreshValue, now, accessMs, refreshMs);
      o.result == Err(BadRequest(AccountDisabled)) && !o.rollbackOnly
      && o.store == s.(audit := s.audit + [AuditEntry(Some(id), LOGIN_FAILED, Failed)])
  {
    LoginUnfolds(s, username, password, c, matches, jti, refreshValue, now, accessMs, refreshMs, id);
    assert s.users[id := s.users[id]] == s.users;
  }

  /** An unknown name is refused with the same message as a wrong
    * password, so a caller cannot tell which of the two it was. */
  lemma UnknownNameRefused(s: Store, username: string, password: string, c: Client, matches: (string, string) -> bool,
                           jti: string, refreshValue: string, now: nat, accessMs: nat, refreshMs: nat)
    requires forall k :: k in s.users ==> !UserRepository.MatchesLogin(s.users[k], username)
    ensures var o := LoginEffect(s, username, password, c, matches, jti, refreshValue, now, accessMs, refreshMs);
      o.result == Err(BadRequest(BadCredentials)) && o.store.users == s.users
      && o.store.audit == s.audit + [AuditEntry(None, LOGIN_FAILED, Failed)]
  {
  }

  /** A login that gets past the lock, the status and the password: the
    * answer is for the found user, the counter and lock are cleared, a
    * token holding the given value is stored under the next token id and
    * is valid for the configured lifetime, and a new active session is
    * bound to that token. The transaction commits it all. */
  lemma LoginSucceeds(s: Store, username: string, password: string, c: Client, matches: (string, string) -> bool,
                      jti: string, refreshValue: string, now: nat, accessMs: nat, refreshMs: nat, id: nat,
                      commitOnBadRequest: bool)
    requires UserRepository.FindByUsernameOrEmail(s.users, username) == Ok(Some(id))
    requires !s.users[id].LockCheck(now).0 && s.users[id].status != DISABLED
    requires matches(password, s.users[id].password)
    ensures var (r, t) := EndTransaction(s, LoginEffect(s, username, password, c, matches, jti, refreshValue, now,
                                                          accessMs, refreshMs), commitOnBadRequest);
      && r.Ok? && r.value.userId == id && r.value.username == s.users[id].username
      && r.value.refreshToken == refreshValue && r.value.accessToken.jti == Some(jti)
      && r.value.accessToken.subject == id && r.value.expiresIn == accessMs / 1000
      && id in t.users && t.users[id].failedLoginAttempts == 0 && t.users[id].status == ACTIVE
      && t.users[id].lockedUntil.None? && t.users[id].lastLoginAt == Some(now)
      && t.users[id].lastLoginIp == Some(c.ipAddress)
      && s.tokenNext in t.tokens && t.tokens[s.tokenNext].token == refreshValue
      && t.tokens[s.tokenNext].userId == id
      && (forall n: nat :: t.tokens[s.tokenNext].Valid(n) <==> n <= now + refreshMs / 1000)
      && s.sessionNext in t.sessions && t.sessions[s.sessionNext].isActive
      && t.sessions[s.sessionNext].userId == id && t.sessions[s.sessionNext].refreshTokenId == s.tokenNext
      && t.audit == s.audit + [AuditEntry(Some(id), LOGIN, Succeeded)]
  {
    LoginUnfolds(s, username, password, c, matches, jti, refreshValue, now, accessMs, refreshMs, id);
  }

  /** A login stores every new session bound to a token id already handed
    * out, so every session stays bound, whichever way it ends. */
  lemma LoginKeepsSessionsBound(s: Store, username: string, password: string, c: Client, matches: (string, string) -> bool,
                                jti: string, refreshValue: string, now: nat, accessMs: nat, refreshMs: nat,
                                commitOnBadRequest: bool)
    requires SessionsBound(s)
    ensures SessionsBound(EndTransaction(s, LoginEffect(s, username, password, c, matches, jti, refreshValue, now,
                                                        accessMs, refreshMs), commitOnBadRequest).1)
  {
    LoginAdvances(s, username, password, c, matches, jti, refreshValue, now, accessMs, refreshMs);
  }

  // ---------------------------------------------------------------------
  // A run of refused logins

  /** Logins one after another with the same name and password at the given
    * instants, each in its own transaction. The token inputs play no part
    * in a refused login. */
  function LoginRun(s: Store, username: string, password: string, c: Client, matches: (string, string) -> bool,
                    times: seq<nat>, commitOnBadRequest: bool): Store
    decreases |times|
  {
    if times == [] then s
    else
      var next := EndTransaction(s, LoginEffect(s, username, password, c, matches, "", "", times[0], 0, 0),
                                 commitOnBadRequest).1;
      LoginRun(next, username, password, c, matches, times[1..], commitOnBadRequest)
  }

  /** One wrong password on an ACTIVE account below the lock threshold:
    * the attempt is counted on the row and a failure entry is written. */
  lemma WrongPasswordStep(s: Store, username: string, password: string, c: Client, matches: (string, string) -> bool,
                          now: nat, id: nat)
    requires UserRepository.FindByUsernameOrEmail(s.users, username) == Ok(Some(id))
    requires s.users[id].status == ACTIVE && !matches(password, s.users[id].password)
    ensures var o := LoginEffect(s, username, password, c, matches, "", "", now, 0, 0);
      o == Outcome(Err(BadRequest(BadCredentials)),
                   s.(users := s.users[id := s.users[id].AfterFailedAttempt(now).(updatedAt := Some(now))],
                      audit := s.audit + [AuditEntry(Some(id), LOGIN_FAILED, Failed)]),
                   false)
  {
    LoginUnfolds(s, username, password, c, matches, "", "", now, 0, 0, id);
    var u := s.users[id];
    assert u.LockCheck(now) == (false, u);
    assert u.AfterFailedAttempt(now) != u;
  }

  /** As the login method is declared, a refused login rolls back, so
    * neither the counted attempt nor the failure entry survives: after any
    * number of wrong passwords the user's row, and with it the lock
    * state, is exactly as before. */
  lemma {:induction false} RefusedLoginsForgottenAsWritten(s: Store, username: string, password: string, c: Client,
                                                           matches: (string, string) -> bool, times: seq<nat>, id: nat)
    requires UserRepository.FindByUsernameOrEmail(s.users, username) == Ok(Some(id))
    requires !matches(password, s.users[id].password)
    ensures LoginRun(s, username, password, c, matches, times, false).users == s.users
    ensures LoginRun(s, username, password, c, matches, times, false).audit == s.audit
    decreases |times|
  {
    if times != [] {
      LoginUnfolds(s, username, password, c, matches, "", "", times[0], 0, 0, id);
      var o := LoginEffect(s, username, password, c, matches, "", "", times[0], 0, 0);
      assert o.result.Err?;
      LoginAdvances(s, username, password, c, matches, "", "", times[0], 0, 0);
      var next := EndTransaction(s, o, false).1;
      assert next == RolledBack(s, o.store);
      RefusedLoginsForgottenAsWritten(next, username, password, c, matches, times[1..], id);
    }
  }

  /** The failure entries a run of `n` refused logins of user `id` writes. */
  function FailureEntries(id: nat, n: nat): (r: seq<AuditEntry>)
    ensures |r| == n && forall i :: 0 <= i < n ==> r[i] == AuditEntry(Some(id), LOGIN_FAILED, Failed)
  {
    seq(n, _ => AuditEntry(Some(id), LOGIN_FAILED, Failed))
  }

  /** With refused logins committed, as the lockout needs: every wrong
    * password counts on the row and leaves its failure entry, so the row
    * after the run is the row after that many failed attempts (stamped
    * with the last attempt's time), and the lookup still finds the user. */
  lemma {:induction false} RefusedLoginsCounted(s: Store, username: string, password: string, c: Client,
                                                matches: (string, string) -> bool, times: seq<nat>, id: nat)
    requires UserRepository.FindByUsernameOrEmail(s.users, username) == Ok(Some(id))
    requires !matches(password, s.users[id].password)
    requires s.users[id].status == ACTIVE && s.users[id].failedLoginAttempts + |times| <= MaxFailedAttempts
    ensures var t := LoginRun(s, username, password, c, matches, times, true);
      && UserRepository.FindByUsernameOrEmail(t.users, username) == Ok(Some(id))
      && t.users[id] == (if times == [] then s.users[id]
                         else FailedAttempts(s.users[id], times).(updatedAt := Some(times[|times| - 1])))
      && t.audit == s.audit + FailureEntries(id, |times|)
    decreases |times|
  {
    var u := s.users[id];
    if times != [] {
      CommittedWrongPassword(s, username, password, c, matches, times[0], id);
      var v := u.AfterFailedAttempt(times[0]);
      var next := EndTransaction(s, LoginEffect(s, username, password, c, matches, "", "", times[0], 0, 0), true).1;
      var rest := times[1..];
      if rest == [] {
        assert FailedAttempts(u, times) == v by {
          assert FailedAttempts(u, times) == FailedAttempts(v, rest);
        }
        assert FailureEntries(id, 1) == [AuditEntry(Some(id), LOGIN_FAILED, Failed)];
      } else {
        RefusedLoginsCounted(next, username, password, c, matches, rest, id);
        StampCommutes(v, rest, Some(times[0]));
        assert rest[|rest| - 1] == times[|times| - 1];
        assert FailedAttempts(u, times) == FailedAttempts(v, rest);
        assert FailureEntries(id, |times|) == [AuditEntry(Some(id), LOGIN_FAILED, Failed)] + FailureEntries(id, |rest|);
      }
    }
  }

  /** One refused login committed: the attempt is counted on the row, the
    * failure entry written, and the lookup still finds the user. */
  lemma CommittedWrongPassword(s: Store, username: string, password: string, c: Client,
                               matches: (string, string) -> bool, now: nat, id: nat)
    requires UserRepository.FindByUsernameOrEmail(s.users, username) == Ok(Some(id))
    requires !matches(password, s.users[id].password) && s.users[id].status == ACTIVE
    ensures var next := EndTransaction(s, LoginEffect(s, username, password, c, matches, "", "", now, 0, 0), true).1;
      && UserRepository.FindByUsernameOrEmail(next.users, username) == Ok(Some(id))
      && next.users[id] == s.users[id].AfterFailedAttempt(now).(updatedAt := Some(now))
      && next.audit == s.audit + [AuditEntry(Some(id), LOGIN_FAILED, Failed)]
  {
    WrongPasswordStep(s, username, password, c, matches, now, id);
    FindSurvivesRewrite(s.users, username, id, s.users[id].AfterFailedAttempt(now).(updatedAt := Some(now)));
  }

  /** The modification time plays no part in counting failed attempts. */
  lemma {:induction false} StampCommutes(u: UserRecord, times: seq<nat>, stamp: Option<nat>)
    ensures FailedAttempts(u.(updatedAt := stamp), times) == FailedAttempts(u, times).(updatedAt := stamp)
    decreases |times|
  {
    if times != [] {
      assert u.(updatedAt := stamp).AfterFailedAttempt(times[0]) == u.AfterFailedAttempt(times[0]).(updatedAt := stamp);
      StampCommutes(u.AfterFailedAttempt(times[0]), times[1..], stamp);
    }
  }

  /** The lockout, with refused logins committed: five wrong passwords on
    * an account with no failures lock it until fifteen minutes after the
    * fifth, and during that time even the right password is refused with
    * the locked message. */
  lemma FiveRefusedLoginsLock(s: Store, username: string, password: string, c: Client,
                              matches: (string, string) -> bool, times: seq<nat>, id: nat,
                              rightPassword: string, jti: string, refreshValue: string, now: nat,
                              accessMs: nat, refreshMs: nat)
    requires UserRepository.FindByUsernameOrEmail(s.users, username) == Ok(Some(id))
    requires !matches(password, s.users[id].password)
    requires s.users[id].status == ACTIVE && s.users[id].failedLoginAttempts == 0 && |times| == MaxFailedAttempts
    requires now <= times[4] + LockSeconds
    ensures var t := LoginRun(s, username, password, c, matches, times, true);
      && id in t.users && t.users[id].status == LOCKED && t.users[id].lockedUntil == Some(times[4] + LockSeconds)
      && LoginEffect(t, username, rightPassword, c, matches, jti, refreshValue, now, accessMs, refreshMs).result
         == Err(BadRequest(AccountLocked))
  {
    RefusedLoginsCounted(s, username, password, c, matches, times, id);
    FailedAttemptsAccumulate(s.users[id], times);
    var t := LoginRun(s, username, password, c, matches, times, true);
    LockedAccountRefused(t, username, rightPassword, c, matches, jti, refreshValue, now, accessMs, refreshMs, id);
  }

  // ---------------------------------------------------------------------
  // Logout

  /** The access token given to logout cannot be blacklisted: it does not
    * parse (an expired token does not), carries no jti, or is listed
    * already. */
  predicate BlacklistFails(blacklist: TokenBlacklistRepository.Rows, p: Parse)
  {
    p.Rejected? || p.claims.jti.None? || TokenBlacklistRepository.ExistsByJti(blacklist, p.claims.jti.value)
  }

  /** As logout is written, a caught blacklisting failure still dooms the
    * commit: the caller gets an unexpected-rollback failure, and the
    * refresh token is still valid, its session still active, and no entry
    * written. */
  lemma LogoutDoomedAsWritten(s: Store, refreshValue: string, p: Parse, now: nat)
    requires StoreValid(s)
    requires ValidateRefreshToken(s.tokens, refreshValue, now).Ok?
    requires !UserSessionRepository.SharedBinding(s.sessions, ValidateRefreshToken(s.tokens, refreshValue, now).value)
    requires BlacklistFails(s.blacklist, p)
    ensures var (r, t) := EndTransaction(s, LogoutEffect(s, refreshValue, Some(p), now), false);
      && r == Err(UnexpectedRollback)
      && t.tokens == s.tokens && t.sessions == s.sessions && t.audit == s.audit
      && ValidateRefreshToken(t.tokens, refreshValue, now).Ok?
  {
    var k := ValidateRefreshToken(s.tokens, refreshValue, now).value;
    var s1 := s.(tokens := s.tokens[k := s.tokens[k].WithRevocation(LogoutReason, now)]);
    assert LogoutEffect(s, refreshValue, Some(p), now) == LogoutRevoked(s1, k, s.tokens[k].userId, Some(p), now);
    LogoutAdvances(s, refreshValue, Some(p), now);
  }

  /** The rest of logout on an unshared binding: it completes, leaves the
    * tokens alone and adds the logout entry; any blacklisting only adds
    * to the blacklist. */
  lemma LogoutRevokedCompletes(s: Store, k: nat, userId: nat, access: Option<Parse>, now: nat)
    requires !UserSessionRepository.SharedBinding(s.sessions, k)
    ensures var o := LogoutRevoked(s, k, userId, access, now);
      && o.result == Ok(()) && o.store.tokens == s.tokens
      && o.store.audit == s.audit + [AuditEntry(Some(userId), LOGOUT, Succeeded)]
  {
    var found := UserSessionRepository.FindByRefreshTokenId(s.sessions, k).value;
    var s1 := if found.Some? then s.(sessions := s.sessions[found.value := s.sessions[found.value].Deactivated()]) else s;
    assert BlacklistStep(s1, access, userId, now).0.tokens == s1.tokens;
  }

  /** ... and deactivates exactly the sessions bound to `k`. */
  lemma LogoutRevokedDeactivates(s: Store, k: nat, userId: nat, access: Option<Parse>, now: nat)
    requires !UserSessionRepository.SharedBinding(s.sessions, k)
    ensures var t := LogoutRevoked(s, k, userId, access, now).store;
      forall j :: j in s.sessions ==>
        (j in t.sessions &&
         t.sessions[j] == if s.sessions[j].refreshTokenId == k then s.sessions[j].Deactivated() else s.sessions[j])
  {
    var found := UserSessionRepository.FindByRefreshTokenId(s.sessions, k).value;
    var s1 := if found.Some? then s.(sessions := s.sessions[found.value := s.sessions[found.value].Deactivated()]) else s;
    DeactivateBound(s.sessions, k);
    assert BlacklistStep(s1, access, userId, now).0.sessions == s1.sessions;
  }

  /** The session update inside logout deactivates exactly the sessions
    * bound to token `k`, when no two share it. */
  lemma DeactivateBound(rows: UserSessionRepository.Rows, k: nat)
    requires !UserSessionRepository.SharedBinding(rows, k)
    ensures var found := UserSessionRepository.FindByRefreshTokenId(rows, k).value;
      var r := if found.Some? then rows[found.value := rows[found.value].Deactivated()] else rows;
      forall j :: j in rows ==> (j in r && r[j] == if rows[j].refreshTokenId == k then rows[j].Deactivated() else rows[j])
  {
  }

  /** Logout with the caught blacklisting failure kept out of the
    * transaction: it commits, the refresh token is revoked for good, the
    * session bound to it is deactivated, and the logout entry written,
    * whether or not the access token could be blacklisted. */
  lemma LogoutRevokes(s: Store, refreshValue: string, access: Option<Parse>, now: nat)
    requires StoreValid(s)
    requires ValidateRefreshToken(s.tokens, refreshValue, now).Ok?
    requires !UserSessionRepository.SharedBinding(s.sessions, ValidateRefreshToken(s.tokens, refreshValue, now).value)
    ensures var k := ValidateRefreshToken(s.tokens, refreshValue, now).value;
      var (r, t) := EndTransaction(s, LogoutEffect(s, refreshValue, access, now).(rollbackOnly := false), false);
      && r == Ok(())
      && t.tokens == s.tokens[k := s.tokens[k].WithRevocation(LogoutReason, now)]
      && RefreshTokenRepository.TokensUnique(t.tokens)
      && (forall n: nat :: ValidateRefreshToken(t.tokens, refreshValue, n).Err?)
      && (forall j :: j in s.sessions ==>
            (j in t.sessions &&
             t.sessions[j] == if s.sessions[j].refreshTokenId == k then s.sessions[j].Deactivated() else s.sessions[j]))
      && t.audit == s.audit + [AuditEntry(Some(s.tokens[k].userId), LOGOUT, Succeeded)]
  {
    var k := ValidateRefreshToken(s.tokens, refreshValue, now).value;
    var s1 := s.(tokens := s.tokens[k := s.tokens[k].WithRevocation(LogoutReason, now)]);
    assert LogoutEffect(s, refreshValue, access, now) == LogoutRevoked(s1, k, s.tokens[k].userId, access, now);
    LogoutRevokedCompletes(s1, k, s.tokens[k].userId, access, now);
    LogoutRevokedDeactivates(s1, k, s.tokens[k].userId, access, now);
    var rows := s1.tokens;
    assert RefreshTokenRepository.TokensUnique(rows) by {
      assert forall j :: j in rows ==> rows[j].token == s.tokens[j].token;
    }
    forall n: nat ensures ValidateRefreshToken(rows, refreshValue, n).Err? {
      assert !rows[k].Valid(n);
    }
  }

  // ---------------------------------------------------------------------
  // Logout everywhere

  /** After `logoutAll` the user has no unrevoked token and no active
    * session, none of the user's tokens is ever valid again, and other
    * users' tokens and sessions are as they were. */
  lemma LogoutAllEndsEverything(s: Store, userId: nat, now: nat)
    ensures var t := LogoutAllEffect(s, userId, now).store;
      && LogoutAllEffect(s, userId, now).result == Ok(())
      && RefreshTokenRepository.CountByUserIdAndRevokedAtIsNull(t.tokens, userId) == 0
      && (forall k, n: nat :: k in RefreshTokenRepository.TokensOf(t.tokens, userId) ==> !t.tokens[k].Valid(n))
      && UserSessionRepository.CountByUserIdAndIsActiveTrue(t.sessions, userId) == 0
      && t.tokens.Keys == s.tokens.Keys && t.sessions.Keys == s.sessions.Keys
      && (forall k :: k in s.tokens && s.tokens[k].userId != userId ==> t.tokens[k] == s.tokens[k])
      && (forall k :: k in s.sessions && s.sessions[k].userId != userId ==> t.sessions[k] == s.sessions[k])
      && t.audit == s.audit + [AuditEntry(Some(userId), LOGOUT_ALL, Succeeded)]
  {
    RefreshTokenRepository.RevokeAllEffect(s.tokens, userId, now, LogoutAllReason, now);
    RefreshTokenRepository.CountZeroIffAllRevoked(RefreshTokenRepository.RevokeAllByUserId(s.tokens, userId, now, LogoutAllReason), userId);
    UserSessionRepository.DeactivateAllEffect(s.sessions, userId, userId + 1);
  }

  // ---------------------------------------------------------------------
  // Refresh

  /** With every session bound to a token id handed out already, the
    * session lookup by the new token's id finds nothing: a refresh never
    * touches a session (the one bound to the old token keeps its last
    * access time), and never fails on that lookup. */
  lemma RefreshLeavesSessionsAlone(s: Store, refreshValue: string, c: Client, jti: string, newValue: string, now: nat,
                                   accessMs: nat, refreshMs: nat)
    requires StoreValid(s) && SessionsBound(s)
    ensures var o := RefreshEffect(s, refreshValue, c, jti, newValue, now, accessMs, refreshMs);
      && o.store.sessions == s.sessions
      && ((ValidateRefreshToken(s.tokens, refreshValue, now).Ok? &&
           s.tokens[ValidateRefreshToken(s.tokens, refreshValue, now).value].userId in s.users) ==> o.result.Ok?)
  {
    if ValidateRefreshToken(s.tokens, refreshValue, now).Ok? {
      RefreshUnfolds(s, refreshValue, c, jti, newValue, now, accessMs, refreshMs);
      assert UserSessionRepository.FindByRefreshTokenId(s.sessions, s.tokenNext) == Ok(None);
    }
  }

  /** A successful refresh revokes the presented token, so presenting it
    * again fails, and issues a valid token with the new value for the
    * same user under the next token id. */
  lemma RefreshRotates(s: Store, refreshValue: string, c: Client, jti: string, newValue: string, now: nat,
                       accessMs: nat, refreshMs: nat)
    requires StoreValid(s)
    requires newValue != refreshValue
    ensures var (r, t) := EndTransaction(s, RefreshEffect(s, refreshValue, c, jti, newValue, now, accessMs, refreshMs), false);
      r.Ok? ==>
        && ValidateRefreshToken(s.tokens, refreshValue, now).Ok?
        && var oldId := ValidateRefreshToken(s.tokens, refreshValue, now).value;
        && t.tokens[oldId].Revoked() && t.tokens[oldId].token == refreshValue
        && s.tokenNext in t.tokens && t.tokens[s.tokenNext].token == newValue
        && t.tokens[s.tokenNext].userId == s.tokens[oldId].userId && t.tokens[s.tokenNext].Valid(now)
        && r.value.refreshToken == newValue && r.value.userId == s.tokens[oldId].userId
  {
    if ValidateRefreshToken(s.tokens, refreshValue, now).Ok? {
      RefreshUnfolds(s, refreshValue, c, jti, newValue, now, accessMs, refreshMs);
    }
  }

  // ---------------------------------------------------------------------
  // Register

  /** A taken username is refused before anything is written. */
  lemma RegisterRefusesTakenName(s: Store, req: RegisterRequest, encode: string -> string, now: nat)
    requires StoreValid(s)
    requires UserRepository.ExistsByUsername(s.users, req.username)
    ensures EndTransaction(s, RegisterEffect(s, req, encode, now), false)
      == (Err(BadRequest(UsernameTaken(req.username))), s)
  {
  }

  /** The insert that ends `register`: when it succeeds, the new row is
    * the given one stamped with its creation time, under the next user id,
    * with the unique constraints still holding, and the register entry is
    * written. */
  lemma CreateAccountStores(s: Store, u: UserRecord, now: nat)
    requires UserRepository.Unique(s.users) && forall k :: k in s.users ==> k < s.userNext
    ensures var o := CreateAccount(s, u, now);
      o.result.Ok? ==>
        && o.result.value == s.userNext
        && o.store == s.(users := s.users[s.userNext := u.(createdAt := Some(now))], userNext := s.userNext + 1,
                         audit := s.audit + [AuditEntry(Some(s.userNext), REGISTER, Succeeded)])
        && UserRepository.Unique(o.store.users)
        && UserRepository.ExistsByUsername(o.store.users, u.username)
  {
    var o := CreateAccount(s, u, now);
    if o.result.Ok? {
      assert o.store.users[s.userNext].username == u.username;
    }
  }

  /** The account a registration stores under user id `id`, with the
    * role table `roles` it leaves: ACTIVE, the requested name and contact
    * data, the encoded password, no failures, created now, and exactly one
    * role, which is the USER role. */
  predicate RegisteredAs(u: UserRecord, roles: RoleRepository.Rows, req: RegisterRequest, encode: string -> string, now: nat)
  {
    && u.username == req.username && u.email == req.email && u.phoneNumber == req.phoneNumber
    && u.password == encode(req.password) && u.status == ACTIVE
    && u.failedLoginAttempts == 0 && u.lockedUntil.None? && u.createdAt == Some(now)
    && |u.roles| == 1
    && (forall k :: k in u.roles ==> k in roles && roles[k].name == UserRole)
  }

  /** A registration that completes stores, under the next user id, the
    * account `RegisteredAs` describes, with the USER role found or
    * created, and writes the register entry. The name is then taken. */
  lemma RegisterEffectStores(s: Store, req: RegisterRequest, encode: string -> string, now: nat)
    requires StoreValid(s)
    ensures var o := RegisterEffect(s, req, encode, now);
      o.result.Ok? ==>
        && o.result.value == s.userNext && o.result.value in o.store.users
        && RegisteredAs(o.store.users[o.result.value], o.store.roles, req, encode, now)
        && o.store.audit == s.audit + [AuditEntry(Some(o.result.value), REGISTER, Succeeded)]
        && UserRepository.ExistsByUsername(o.store.users, req.username)
  {
    var found := RoleRepository.FindByName(s.roles, UserRole);
    if !UserRepository.ExistsByUsername(s.users, req.username) {
      if found.Some? {
        var u := NewAccount(req, encode).(roles := {found.value});
        assert RegisterEffect(s, req, encode, now) == CreateAccount(s, u, now);
        NewAccountStored(s, u, req, encode, now);
      } else {
        var s1 := s.(roles := s.roles[s.roleNext := DefaultUserRole], roleNext := s.roleNext + 1);
        var u := NewAccount(req, encode).(roles := {s.roleNext});
        assert RegisterEffect(s, req, encode, now) == CreateAccount(s1, u, now);
        NewAccountStored(s1, u, req, encode, now);
      }
    }
  }

  /** The insert of a new account holding one USER role. */
  lemma NewAccountStored(s: Store, u: UserRecord, req: RegisterRequest, encode: string -> string, now: nat)
    requires UserRepository.Unique(s.users) && forall k :: k in s.users ==> k < s.userNext
    requires exists k :: u == NewAccount(req, encode).(roles := {k}) && k in s.roles && s.roles[k].name == UserRole
    ensures var o := CreateAccount(s, u, now);
      o.result.Ok? ==>
        && o.result.value == s.userNext && o.result.value in o.store.users
        && RegisteredAs(o.store.users[o.result.value], o.store.roles, req, encode, now)
        && o.store.audit == s.audit + [AuditEntry(Some(o.result.value), REGISTER, Succeeded)]
        && UserRepository.ExistsByUsername(o.store.users, req.username)
  {
    CreateAccountStores(s, u, now);
    var k :| u == NewAccount(req, encode).(roles := {k}) && k in s.roles && s.roles[k].name == UserRole;
    assert |u.roles| == 1;
  }

  /** A registration that commits leaves the account `RegisteredAs`
    * describes under the next user id, with its register entry; the name
    * is then taken, so registering it again is refused. */
  lemma RegisterCreatesActiveUser(s: Store, req: RegisterRequest, encode: string -> string, now: nat)
    requires StoreValid(s)
    ensures var (r, t) := EndTransaction(s, RegisterEffect(s, req, encode, now), false);
      r.Ok? ==>
        && r.value == s.userNext && r.value in t.users
        && RegisteredAs(t.users[r.value], t.roles, req, encode, now)
        && t.audit == s.audit + [AuditEntry(Some(r.value), REGISTER, Succeeded)]
        && UserRepository.ExistsByUsername(t.users, req.username)
  {
    RegisterEffectStores(s, req, encode, now);
  }

  // ---------------------------------------------------------------------
  // Password change

  /** A password change with the right current password stores the
    * encoded new password and the change time and otherwise keeps the
    * row (up to its modification time); asked to, it ends every token and
    * session of the user as `logoutAll` does. */
  lemma ChangePasswordStores(s: Store, userId: nat, current: string, next: string, logoutAll: bool,
                             matches: (string, string) -> bool, encode: string -> string, now: nat)
    requires userId in s.users && matches(current, s.users[userId].password)
    ensures var (r, t) := EndTransaction(s, ChangePasswordEffect(s, userId, current, next, logoutAll, matches, encode, now), false);
      && r == Ok(())
      && userId in t.users && t.users[userId].password == encode(next)
      && t.users[userId].passwordChangedAt == Some(now)
      && t.users[userId].(password := s.users[userId].password, passwordChangedAt := s.users[userId].passwordChangedAt,
                          updatedAt := s.users[userId].updatedAt) == s.users[userId]
      && (logoutAll ==> RefreshTokenRepository.CountByUserIdAndRevokedAtIsNull(t.tokens, userId) == 0
                        && UserSessionRepository.CountByUserIdAndIsActiveTrue(t.sessions, userId) == 0)
      && (!logoutAll ==> t.tokens == s.tokens && t.sessions == s.sessions)
      && t.audit == s.audit + [AuditEntry(Some(userId), PASSWORD_CHANGE, Succeeded)]
  {
    var u := s.users[userId];
    var s1 := s.(users := s.users[userId := UserRepository.Touched(u, u.(password := encode(next), passwordChangedAt := Some(now)), now)]);
    if logoutAll {
      RefreshTokenRepository.RevokeAllEffect(s1.tokens, userId, now, PasswordChangedReason, now);
      UserSessionRepository.DeactivateAllEffect(s1.sessions, userId, userId + 1);
    }
  }

  /** A wrong current password is refused, and since the refusal rolls the
    * transaction back, nothing it wrote survives, not even its failure
    * entry. */
  lemma ChangePasswordRefusal(s: Store, userId: nat, current: string, next: string, logoutAll: bool,
                              matches: (string, string) -> bool, encode: string -> string, now: nat)
    requires userId !in s.users || !matches(current, s.users[userId].password)
    ensures var (r, t) := EndTransaction(s, ChangePasswordEffect(s, userId, current, next, logoutAll, matches, encode, now), false);
      && r == Err(BadRequest(if userId in s.users then WrongCurrentPassword else UserNotFound))
      && t == s
  {
  }
}
