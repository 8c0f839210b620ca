// The authentication flows: register, login, logout, logout everywhere,
// token refresh and password change. Each flow is first stated as its
// effect on the tables (a function of the tables before it), then run
// by a method against the tables themselves. The password encoder is an
// oracle; ids and times are handed in.

module AuthServices {
  import opened Common
  import opened ServiceErrors
  import opened AuditTrail
  import opened AuthStore
  import opened Users
  import opened UserSessions
  import opened RefreshTokens
  import UserRepository
  import RoleRepository
  import PermissionRepository
  import RefreshTokenRepository
  import TokenBlacklistRepository
  import UserSessionRepository
  import opened UserMapper
  import opened TokenServices

  const BadCredentials: string := "Invalid username or password"
  /** The locked-account message; the lock's end time that follows it is
    * not modelled. */
  const AccountLocked: string := "Account is locked. Try again after "
  const AccountDisabled: string := "Account is disabled. Please contact support."
  const UserNotFound: string := "User not found"
  const WrongCurrentPassword: string := "Current password is incorrect"
  const NullJti: string := "null value in column jti violates not-null constraint"
  const LogoutReason: string := "User logout"
  const LogoutAllReason: string := "Logout all sessions"
  const PasswordChangedReason: string := "Password changed"
  const UserRole: string := "USER"

  function UsernameTaken(username: string): string
  {
    "Username '" + username + "' already exists"
  }

  /** Where a request comes from. */
  datatype Client = Client(ipAddress: string, userAgent: string, deviceInfo: string)

  datatype RegisterRequest = RegisterRequest(
    username: string, email: Option<string>, phoneNumber: Option<string>, password: string)

  /** The login answer; the access token is shown by its claims. */
  datatype AuthResponse = AuthResponse(
    accessToken: Claims,
    refreshToken: string,
    expiresIn: nat,
    userId: nat,
    username: string,
    email: Option<string>,
    roles: set<string>,
    permissions: set<string>)

  // ---------------------------------------------------------------------
  // Login decision

  datatype Verdict = Locked | Disabled | WrongPassword | Accepted

  /** The checks of `login` on a found user, in their order: the lock
    * (which may lift an expired lock), then DISABLED, then the password.
    * Returns the verdict and the user's columns afterwards. */
  function CheckLogin(u: UserRecord, passwordMatches: bool, ip: string, now: nat): (r: (Verdict, UserRecord))
    ensures u.LockCheck(now).0 ==> r == (Locked, u)
    ensures r.0 == Disabled <==> u.status == DISABLED
    ensures r.0 in {Locked, Disabled} ==> r.1 == u
    ensures r.0 == WrongPassword ==> !passwordMatches && r.1 == u.LockCheck(now).1.AfterFailedAttempt(now)
    ensures r.0 == Accepted <==> !u.LockCheck(now).0 && u.status != DISABLED && passwordMatches
    ensures r.0 == Accepted ==> r.1 == u.LockCheck(now).1.AfterLogin(ip, now)
    ensures r.1.username == u.username && r.1.email == u.email && r.1.roles == u.roles && r.1.password == u.password
  {
    var (locked, v) := u.LockCheck(now);
    if locked then (Locked, v)
    else if v.status == DISABLED then (Disabled, v)
    else if !passwordMatches then (WrongPassword, v.AfterFailedAttempt(now))
    else (Accepted, v.AfterLogin(ip, now))
  }

  function Rejection(v: Verdict): string
  {
    match v
    case Locked => AccountLocked
    case Disabled => AccountDisabled
    case _ => BadCredentials
  }

  /** The response for a user: fresh access claims and role and
    * permission names resolved through the role and permission tables. */
  function Response(s: Store, id: nat, u: UserRecord, refreshValue: string, jti: string, now: nat, accessMs: nat): AuthResponse
  {
    var views := ResolveRoles(u.roles, s.roles, s.perms);
    AuthResponse(AccessClaims(id, u, views, jti, now, accessMs), refreshValue, accessMs / 1000, id,
                 u.username, u.email, MapRoles(Some(views)).value, MapPermissions(Some(views)).value)
  }

  // ---------------------------------------------------------------------
  // Effects on the tables, before the transaction ends

  function NewAccount(req: RegisterRequest, encode: string -> string): UserRecord
  {
    Blank().(username := req.username, email := req.email, phoneNumber := req.phoneNumber,
             password := encode(req.password), status := ACTIVE)
  }

  const DefaultUserRole: RoleRepository.RoleRecord := RoleRepository.RoleRecord(UserRole, Some("Default user role"), {})

  /** `register`: refuses a taken username; finds the USER role or creates
    * it; stores an ACTIVE account holding exactly that role. The email is
    * not checked first, so a taken email fails at the insert. */
  function RegisterEffect(s: Store, req: RegisterRequest, encode: string -> string, now: nat): AuthStore.Outcome<nat>
    requires StoreValid(s)
  {
    if UserRepository.ExistsByUsername(s.users, req.username) then
      Outcome(Err(BadRequest(UsernameTaken(req.username))), s, false)
    else
      var found := RoleRepository.FindByName(s.roles, UserRole);
      if found.Some? then CreateAccount(s, NewAccount(req, encode).(roles := {found.value}), now)
      else CreateAccount(s.(roles := s.roles[s.roleNext := DefaultUserRole], roleNext := s.roleNext + 1),
                         NewAccount(req, encode).(roles := {s.roleNext}), now)
  }

  /** The insert that ends `register`, refused when the username or the
    * email is taken. */
  function CreateAccount(s: Store, u: UserRecord, now: nat): AuthStore.Outcome<nat>
  {
    if UserRepository.Clashes(s.users, u, None) then
      Outcome(Err(DataAccess(UserRepository.DuplicateUser)), s, false)
    else
      Outcome(Ok(s.userNext),
              s.(users := s.users[s.userNext := u.(createdAt := Some(now))], userNext := s.userNext + 1,
                 audit := s.audit + [AuditEntry(Some(s.userNext), REGISTER, Succeeded)]),
              false)
  }

  /** `login`. An unknown name, a locked or disabled account and a wrong
    * password are refused, each with a failure entry; a wrong password also
    * counts the failed attempt. The user's columns are stored as the checks
    * left them (a lapsed lock lifted, the attempt counted). */
  function LoginEffect(s: Store, username: string, password: string, c: Client, matches: (string, string) -> bool,
                       jti: string, refreshValue: string, now: nat, accessMs: nat, refreshMs: nat): AuthStore.Outcome<AuthResponse>
  {
    match UserRepository.FindByUsernameOrEmail(s.users, username)
    case Err(e) => Outcome(Err(DataAccess(e)), s, false)
    case Ok(None) =>
      Outcome(Err(BadRequest(BadCredentials)), s.(audit := s.audit + [AuditEntry(None, LOGIN_FAILED, Failed)]), false)
    case Ok(Some(id)) =>
      LoginChecked(s, id, CheckLogin(s.users[id], matches(password, s.users[id].password), c.ipAddress, now),
                   c, jti, refreshValue, now, accessMs, refreshMs)
  }

  /** A found user after the checks: the row is stored as the checks left
    * it, then the login is refused or carried out. */
  function LoginChecked(s: Store, id: nat, v: (Verdict, UserRecord), c: Client, jti: string, refreshValue: string,
                        now: nat, accessMs: nat, refreshMs: nat): AuthStore.Outcome<AuthResponse>
    requires id in s.users
  {
    var s1 := s.(users := s.users[id := UserRepository.Touched(s.users[id], v.1, now)]);
    if v.0 != Accepted then
      Outcome(Err(BadRequest(Rejection(v.0))), s1.(audit := s1.audit + [AuditEntry(Some(id), LOGIN_FAILED, Failed)]), false)
    else LoginAccepted(s1, id, c, jti, refreshValue, now, accessMs, refreshMs)
  }

  /** The refresh token a login stores for user `id`. */
  function LoginToken(id: nat, c: Client, refreshValue: string, now: nat, refreshMs: nat): TokenRecord
  {
    Issued(refreshValue, id, c.deviceInfo, c.ipAddress, c.userAgent, now + refreshMs / 1000).(createdAt := Some(now))
  }

  /** The session a login stores for user `id`, bound to token `tokenId`. */
  function LoginSession(id: nat, tokenId: nat, c: Client, now: nat): SessionRecord
  {
    Opened(id, tokenId, c.deviceInfo, c.ipAddress)
      .(userAgent := Some(c.userAgent), createdAt := Some(now), lastAccessAt := Some(now))
  }

  /** A successful login, after the user's row is stored: a refresh token,
    * an active session bound to it, a success entry, and the tokens with
    * the user's role and permission names. */
  function LoginAccepted(s: Store, id: nat, c: Client, jti: string, refreshValue: string, now: nat,
                         accessMs: nat, refreshMs: nat): AuthStore.Outcome<AuthResponse>
    requires id in s.users
  {
    Outcome(Ok(Response(s, id, s.users[id], refreshValue, jti, now, accessMs)),
            s.(tokens := s.tokens[s.tokenNext := LoginToken(id, c, refreshValue, now, refreshMs)],
               tokenNext := s.tokenNext + 1,
               sessions := s.sessions[s.sessionNext := LoginSession(id, s.tokenNext, c, now)],
               sessionNext := s.sessionNext + 1,
               audit := s.audit + [AuditEntry(Some(id), LOGIN, Succeeded)]),
            false)
  }

  /** The blacklisting inside `logout`: the store afterwards, and whether a
    * step failed (the failure itself is caught). A token that cannot be
    * parsed, a token without a jti and a jti listed already all fail. */
  function BlacklistStep(s: Store, access: Option<Parse>, userId: nat, now: nat): (r: (Store, bool))
    ensures r.1 ==> r.0 == s
    ensures access.None? ==> r == (s, false)
    ensures r.0 == s.(blacklist := r.0.blacklist, blacklistNext := r.0.blacklistNext)
    ensures s.blacklistNext <= r.0.blacklistNext
  {
    match access
    case None => (s, false)
    case Some(p) =>
      if JtiOf(p).Err? || ExpirationOf(p).Err? || JtiOf(p).value.None? then (s, true)
      else
        var jti := JtiOf(p).value.value;
        if TokenBlacklistRepository.ExistsByJti(s.blacklist, jti) then (s, true)
        else
          (s.(blacklist := s.blacklist[s.blacklistNext :=
                TokenBlacklistRepository.BlacklistRecord(jti, userId, AccessType, ExpirationOf(p).value, LogoutReason, now)],
              blacklistNext := s.blacklistNext + 1), false)
  }

  /** `logout`: the refresh token must validate; it is revoked, the session
    * bound to it deactivated, and the access token (when one is given)
    * blacklisted. The outcome is marked rollback-only when the caught
    * blacklisting failed, because that failure passed through the token
    * service's own transactional boundary. */
  function LogoutEffect(s: Store, refreshValue: string, access: Option<Parse>, now: nat): AuthStore.Outcome<()>
    requires StoreValid(s)
  {
    match ValidateRefreshToken(s.tokens, refreshValue, now)
    case Err(f) => Outcome(Err(f), s, false)
    case Ok(k) =>
      LogoutRevoked(s.(tokens := s.tokens[k := s.tokens[k].WithRevocation(LogoutReason, now)]),
                    k, s.tokens[k].userId, access, now)
  }

  /** The rest of `logout`, once the refresh token with id `k` is revoked. */
  function LogoutRevoked(s: Store, k: nat, userId: nat, access: Option<Parse>, now: nat): AuthStore.Outcome<()>
  {
    match UserSessionRepository.FindByRefreshTokenId(s.sessions, k)
    case Err(e) => Outcome(Err(DataAccess(e)), s, false)
    case Ok(found) =>
      var s1 := if found.Some? then s.(sessions := s.sessions[found.value := s.sessions[found.value].Deactivated()])
                else s;
      var (s2, failed) := BlacklistStep(s1, access, userId, now);
      Outcome(Ok(()), s2.(audit := s2.audit + [AuditEntry(Some(userId), LOGOUT, Succeeded)]), failed)
  }

  /** `logoutAll`: every unrevoked token of the user revoked, every session
    * of the user deactivated. */
  function LogoutAllEffect(s: Store, userId: nat, now: nat): AuthStore.Outcome<()>
  {
    Outcome(Ok(()),
            s.(tokens := RefreshTokenRepository.RevokeAllByUserId(s.tokens, userId, now, LogoutAllReason),
               sessions := UserSessionRepository.DeactivateAllByUserId(s.sessions, userId),
               audit := s.audit + [AuditEntry(Some(userId), LOGOUT_ALL, Succeeded)]),
            false)
  }

  /** `refreshToken`: rotates the token, then touches the session bound to
    * the new token's id, if any, and answers fresh tokens. */
  function RefreshEffect(s: Store, refreshValue: string, c: Client, jti: string, newValue: string, now: nat,
                         accessMs: nat, refreshMs: nat): AuthStore.Outcome<AuthResponse>
    requires StoreValid(s)
  {
    match ValidateRefreshToken(s.tokens, refreshValue, now)
    case Err(f) => Outcome(Err(f), s, false)
    case Ok(oldId) =>
      var newRow := Successor(s.tokens[oldId], newValue, c.ipAddress, c.userAgent, now + refreshMs / 1000)
                       .(createdAt := Some(now));
      RefreshRotated(s.(tokens := Rotation(s.tokens, oldId, s.tokenNext, newRow, now), tokenNext := s.tokenNext + 1),
                     s.tokens[oldId].userId, s.tokenNext, newValue, jti, now, accessMs)
  }

  /** The rest of `refreshToken`, once the successor is stored under
    * `newId`. */
  function RefreshRotated(s: Store, userId: nat, newId: nat, newValue: string, jti: string, now: nat,
                          accessMs: nat): AuthStore.Outcome<AuthResponse>
  {
    if userId !in s.users then Outcome(Err(BadRequest(UserNotFound)), s, false)
    else
      match UserSessionRepository.FindByRefreshTokenId(s.sessions, newId)
      case Err(e) => Outcome(Err(DataAccess(e)), s, false)
      case Ok(found) =>
        var s1 := if found.Some? then s.(sessions := s.sessions[found.value := s.sessions[found.value].Touched(now)])
                  else s;
        Outcome(Ok(Response(s, userId, s.users[userId], newValue, jti, now, accessMs)),
                s1.(audit := s1.audit + [AuditEntry(Some(userId), TOKEN_REFRESH, Succeeded)]), false)
  }

  /** `changePassword`: the current password must match; the new one is
    * encoded and stamped, and on request every token and session of the
    * user is ended. */
  function ChangePasswordEffect(s: Store, userId: nat, current: string, next: string, logoutAll: bool,
                                matches: (string, string) -> bool, encode: string -> string, now: nat): AuthStore.Outcome<()>
  {
    if userId !in s.users then Outcome(Err(BadRequest(UserNotFound)), s, false)
    else if !matches(current, s.users[userId].password) then
      Outcome(Err(BadRequest(WrongCurrentPassword)),
              s.(audit := s.audit + [AuditEntry(Some(userId), PASSWORD_CHANGE, Failed)]), false)
    else
      var u := s.users[userId];
      PasswordStored(s.(users := s.users[userId := UserRepository.Touched(u, u.(password := encode(next), passwordChangedAt := Some(now)), now)]),
                     userId, logoutAll, now)
  }

  /** The rest of `changePassword`, once the new password is stored. */
  function PasswordStored(s: Store, userId: nat, logoutAll: bool, now: nat): AuthStore.Outcome<()>
  {
    var s1 := if logoutAll then
                s.(tokens := RefreshTokenRepository.RevokeAllByUserId(s.tokens, userId, now, PasswordChangedReason),
                   sessions := UserSessionRepository.DeactivateAllByUserId(s.sessions, userId))
              else s;
    Outcome(Ok(()), s1.(audit := s1.audit + [AuditEntry(Some(userId), PASSWORD_CHANGE, Succeeded)]), false)
  }

  /** No flow moves a counter back or writes the permission table; this is
    * what lets a rollback restore a valid store. */
  lemma RegisterAdvances(s: Store, req: RegisterRequest, encode: string -> string, now: nat)
    requires StoreValid(s)
    ensures var t := RegisterEffect(s, req, encode, now).store; CountersAdvanced(s, t) && t.perms == s.perms
  {
  }

  lemma LoginAdvances(s: Store, username: string, password: string, c: Client, matches: (string, string) -> bool,
                      jti: string, refreshValue: string, now: nat, accessMs: nat, refreshMs: nat)
    ensures var t := LoginEffect(s, username, password, c, matches, jti, refreshValue, now, accessMs, refreshMs).store;
      CountersAdvanced(s, t) && t.perms == s.perms
  {
    match UserRepository.FindByUsernameOrEmail(s.users, username)
    case Err(_) =>
    case Ok(None) =>
    case Ok(Some(id)) =>
      LoginUnfolds(s, username, password, c, matches, jti, refreshValue, now, accessMs, refreshMs, id);
      var v := CheckLogin(s.users[id], matches(password, s.users[id].password), c.ipAddress, now);
      LoginCheckedAdvances(s, id, v, c, jti, refreshValue, now, accessMs, refreshMs);
  }

  lemma LoginCheckedAdvances(s: Store, id: nat, v: (Verdict, UserRecord), c: Client, jti: string, refreshValue: string,
                             now: nat, accessMs: nat, refreshMs: nat)
    requires id in s.users
    ensures var t := LoginChecked(s, id, v, c, jti, refreshValue, now, accessMs, refreshMs).store;
      CountersAdvanced(s, t) && t.perms == s.perms
  {
  }

  lemma LogoutAdvances(s: Store, refreshValue: string, access: Option<Parse>, now: nat)
    requires StoreValid(s)
    ensures var t := LogoutEffect(s, refreshValue, access, now).store; CountersAdvanced(s, t) && t.perms == s.perms
  {
    match ValidateRefreshToken(s.tokens, refreshValue, now)
    case Err(_) =>
    case Ok(k) =>
      var s1 := s.(tokens := s.tokens[k := s.tokens[k].WithRevocation(LogoutReason, now)]);
      LogoutRevokedAdvances(s1, k, s.tokens[k].userId, access, now);
  }

  lemma LogoutRevokedAdvances(s: Store, k: nat, userId: nat, access: Option<Parse>, now: nat)
    ensures var t := LogoutRevoked(s, k, userId, access, now).store; CountersAdvanced(s, t) && t.perms == s.perms
  {
  }

  lemma RefreshAdvances(s: Store, refreshValue: string, c: Client, jti: string, newValue: string, now: nat,
                        accessMs: nat, refreshMs: nat)
    requires StoreValid(s)
    ensures var t := RefreshEffect(s, refreshValue, c, jti, newValue, now, accessMs, refreshMs).store;
      CountersAdvanced(s, t) && t.perms == s.perms
  {
  }

  lemma ChangePasswordAdvances(s: Store, userId: nat, current: string, next: string, logoutAll: bool,
                               matches: (string, string) -> bool, encode: string -> string, now: nat)
    ensures var t := ChangePasswordEffect(s, userId, current, next, logoutAll, matches, encode, now).store;
      CountersAdvanced(s, t) && t.perms == s.perms
  {
  }

  /** A found user, unfolded. */
  lemma LoginUnfolds(s: Store, username: string, password: string, c: Client, matches: (string, string) -> bool,
                     jti: string, refreshValue: string, now: nat, accessMs: nat, refreshMs: nat, id: nat)
    requires UserRepository.FindByUsernameOrEmail(s.users, username) == Ok(Some(id))
    ensures id in s.users
    ensures LoginEffect(s, username, password, c, matches, jti, refreshValue, now, accessMs, refreshMs)
      == LoginChecked(s, id, CheckLogin(s.users[id], matches(password, s.users[id].password), c.ipAddress, now),
                      c, jti, refreshValue, now, accessMs, refreshMs)
  {
  }

  /** The successful rotation inside `refreshToken`, unfolded. */
  lemma RefreshUnfolds(s: Store, refreshValue: string, c: Client, jti: string, newValue: string, now: nat,
                       accessMs: nat, refreshMs: nat)
    requires StoreValid(s) && ValidateRefreshToken(s.tokens, refreshValue, now).Ok?
    ensures var oldId := ValidateRefreshToken(s.tokens, refreshValue, now).value;
      var newRow := Successor(s.tokens[oldId], newValue, c.ipAddress, c.userAgent, now + refreshMs / 1000).(createdAt := Some(now));
      RefreshEffect(s, refreshValue, c, jti, newValue, now, accessMs, refreshMs)
      == RefreshRotated(s.(tokens := Rotation(s.tokens, oldId, s.tokenNext, newRow, now), tokenNext := s.tokenNext + 1),
                        s.tokens[oldId].userId, s.tokenNext, newValue, jti, now, accessMs)
  {
  }

  // ---------------------------------------------------------------------
  // The service over the tables

  class AuthService {
    const users: UserRepository.UserTable
    const roles: RoleRepository.RoleTable
    const perms: PermissionRepository.PermissionTable
    const tokens: TokenService
    const sessions: UserSessionRepository.UserSessionTable
    const audit: AuditLog
    /** The access-token lifetime in milliseconds, the same property the
      * token service reads. */
    const accessTokenExpiration: nat

    function Current(): Store
      reads this, users, roles, perms, tokens, tokens.refreshTokens, tokens.blacklist, sessions, audit
    {
      Store(users.rows, users.nextId, roles.rows, roles.nextId, perms.rows,
            tokens.refreshTokens.rows, tokens.refreshTokens.nextId, tokens.blacklist.rows, tokens.blacklist.nextId,
            sessions.rows, sessions.nextId, audit.entries)
    }

    /** Every table keeps its constraints, every session is bound to a token
      * id handed out already, and both services read one lifetime. */
    predicate Valid()
      reads this, users, roles, perms, tokens, tokens.refreshTokens, tokens.blacklist, sessions, audit
    {
      && users.Valid() && roles.Valid() && perms.Valid() && tokens.Valid() && sessions.Valid()
      && accessTokenExpiration == tokens.accessTokenExpiration
    }

    constructor (users: UserRepository.UserTable, roles: RoleRepository.RoleTable,
                 perms: PermissionRepository.PermissionTable, tokens: TokenService,
                 sessions: UserSessionRepository.UserSessionTable, audit: AuditLog)
      ensures this.users == users && this.roles == roles && this.perms == perms
      ensures this.tokens == tokens && this.sessions == sessions && this.audit == audit
      ensures accessTokenExpiration == tokens.accessTokenExpiration
    {
      this.users := users;
      this.roles := roles;
      this.perms := perms;
      this.tokens := tokens;
      this.sessions := sessions;
      this.audit := audit;
      this.accessTokenExpiration := tokens.accessTokenExpiration;
    }

    /** The rollback: every row back as it was, counters as they are. */
    method Restore(before: Store)
      requires Valid() && StoreValid(before)
      requires CountersAdvanced(before, Current()) && before.perms == perms.rows
      modifies users, roles, tokens.refreshTokens, tokens.blacklist, sessions, audit
      ensures Current() == RolledBack(before, old(Current()))
      ensures Valid()
    {
      RolledBackValid(before, Current());
      users.rows := before.users;
      roles.rows := before.roles;
      tokens.refreshTokens.rows := before.tokens;
      tokens.blacklist.rows := before.blacklist;
      sessions.rows := before.sessions;
      audit.entries := before.audit;
    }

    method AttemptRegister(req: RegisterRequest, encode: string -> string, now: nat) returns (r: Result<nat, Failure>)
      requires Valid()
      modifies users, roles, audit
      ensures Valid()
      ensures var o := RegisterEffect(old(Current()), req, encode, now); r == o.result && Current() == o.store
    {
      if UserRepository.ExistsByUsername(users.rows, req.username) {
        return Err(BadRequest(UsernameTaken(req.username)));
      }
      var found := RoleRepository.FindByName(roles.rows, UserRole);
      var roleId: nat;
      if found.Some? {
        roleId := found.value;
      } else {
        var ins := roles.Insert(DefaultUserRole);
        roleId := ins.value;
      }
      r := InsertAccount(NewAccount(req, encode).(roles := {roleId}), now);
    }

    /** The user's `save` and the success entry that end `register`. */
    method InsertAccount(u: UserRecord, now: nat) returns (r: Result<nat, Failure>)
      requires Valid()
      modifies users, audit
      ensures Valid()
      ensures var o := CreateAccount(old(Current()), u, now); r == o.result && Current() == o.store
    {
      var user := new User.FromRecord(u);
      var saved := users.Save(user, now);
      if saved.Err? {
        return Err(DataAccess(saved.error));
      }
      audit.Append(AuditEntry(Some(saved.value), REGISTER, Succeeded));
      r := Ok(saved.value);
    }

    method Register(req: RegisterRequest, encode: string -> string, now: nat) returns (r: Result<nat, Failure>)
      requires Valid()
      modifies users, roles, tokens.refreshTokens, tokens.blacklist, sessions, audit
      ensures Valid()
      ensures (r, Current()) == EndTransaction(old(Current()), RegisterEffect(old(Current()), req, encode, now), false)
    {
      var before := Current();
      r := AttemptRegister(req, encode, now);
      RegisterAdvances(before, req, encode, now);
      if r.Err? {
        Restore(before);
      }
    }

    method AttemptLogin(username: string, password: string, c: Client, matches: (string, string) -> bool,
                        jti: string, refreshValue: string, now: nat) returns (r: Result<AuthResponse, Failure>)
      requires Valid()
      requires !RefreshTokenRepository.TokenTaken(tokens.refreshTokens.rows, refreshValue, None)
      modifies users, tokens.refreshTokens, sessions, audit
      ensures Valid()
      ensures var o := LoginEffect(old(Current()), username, password, c, matches, jti, refreshValue, now,
                                   accessTokenExpiration, tokens.refreshTokenExpiration);
        r == o.result && Current() == o.store
    {
      var found := UserRepository.FindByUsernameOrEmail(users.rows, username);
      if found.Err? {
        return Err(DataAccess(found.error));
      }
      if found.value.None? {
        audit.Append(AuditEntry(None, LOGIN_FAILED, Failed));
        return Err(BadRequest(BadCredentials));
      }
      var id := found.value.value;
      LoginUnfolds(Current(), username, password, c, matches, jti, refreshValue, now,
                   accessTokenExpiration, tokens.refreshTokenExpiration, id);
      var user, verdict := CheckUser(id, password, matches, c.ipAddress, now);
      StoreUser(id, user, now);
      if verdict != Accepted {
        audit.Append(AuditEntry(Some(id), LOGIN_FAILED, Failed));
        return Err(BadRequest(Rejection(verdict)));
      }
      r := AcceptLogin(id, c, jti, refreshValue, now);
    }

    /** The checks of `login` on the loaded entity: lock, status, password,
      * and the entity's columns as they leave them. */
    method CheckUser(id: nat, password: string, matches: (string, string) -> bool, ip: string, now: nat)
      returns (user: User, verdict: Verdict)
      requires id in users.rows
      ensures fresh(user) && user.id == Some(id)
      ensures (verdict, user.Record()) == CheckLogin(users.rows[id], matches(password, users.rows[id].password), ip, now)
    {
      user := new User.Load(id, users.rows[id]);
      var locked := user.IsAccountLocked(now);
      if locked {
        return user, Locked;
      }
      if user.status == DISABLED {
        return user, Disabled;
      }
      if !matches(password, user.password) {
        user.IncrementFailedAttempts(now);
        return user, WrongPassword;
      }
      user.RecordLogin(ip, now);
      verdict := Accepted;
    }

    /** Dirty checking at the end of the flow, or an explicit `save`: the
      * loaded user's row takes its current columns. The username and email
      * are those of the row, so no constraint can fail. */
    method StoreUser(id: nat, user: User, now: nat)
      requires Valid() && user.id == Some(id) && id in users.rows
      requires user.username == users.rows[id].username && user.email == users.rows[id].email
      modifies users, user
      ensures Valid()
      ensures Current() == old(Current()).(users := old(users.rows)[id := UserRepository.Touched(old(users.rows)[id], old(user.Record()), now)])
    {
      UserRepository.KeysKeptNoClash(users.rows, id, user.Record());
      var saved := users.Save(user, now);
    }

    /** The successful end of `login`, once the user's row is stored. */
    method AcceptLogin(id: nat, c: Client, jti: string, refreshValue: string, now: nat)
      returns (r: Result<AuthResponse, Failure>)
      requires Valid() && id in users.rows
      requires !RefreshTokenRepository.TokenTaken(tokens.refreshTokens.rows, refreshValue, None)
      modifies tokens.refreshTokens, sessions, audit
      ensures Valid()
      ensures var o := LoginAccepted(old(Current()), id, c, jti, refreshValue, now,
                                     accessTokenExpiration, tokens.refreshTokenExpiration);
        r == o.result && Current() == o.store
    {
      var before := Current();
      OpenSession(id, c, refreshValue, now);
      audit.Append(AuditEntry(Some(id), LOGIN, Succeeded));
      r := Ok(Response(before, id, users.rows[id], refreshValue, jti, now, accessTokenExpiration));
    }

    /** The refresh token and the session of a successful login. */
    method OpenSession(id: nat, c: Client, refreshValue: string, now: nat)
      requires Valid()
      requires !RefreshTokenRepository.TokenTaken(tokens.refreshTokens.rows, refreshValue, None)
      modifies tokens.refreshTokens, sessions
      ensures Valid()
      ensures Current() == old(Current()).(
        tokens := old(tokens.refreshTokens.rows)[old(tokens.refreshTokens.nextId) :=
                    LoginToken(id, c, refreshValue, now, tokens.refreshTokenExpiration)],
        tokenNext := old(tokens.refreshTokens.nextId) + 1,
        sessions := old(sessions.rows)[old(sessions.nextId) := LoginSession(id, old(tokens.refreshTokens.nextId), c, now)],
        sessionNext := old(sessions.nextId) + 1)
    {
      var token := tokens.GenerateRefreshToken(id, c.deviceInfo, c.ipAddress, c.userAgent, refreshValue, now);
      var session := new UserSession(id, token.id.value, c.deviceInfo, c.ipAddress);
      session.SetUserAgent(c.userAgent);
      var ss := sessions.Save(session, now);
    }

    /** `login`, with the failed attempt and the failure entries kept when
      * the login is refused (as written they are rolled back with the
      * refusal: see `LoginAsWritten`). */
    method Login(username: string, password: string, c: Client, matches: (string, string) -> bool,
                 jti: string, refreshValue: string, now: nat) returns (r: Result<AuthResponse, Failure>)
      requires Valid()
      requires !RefreshTokenRepository.TokenTaken(tokens.refreshTokens.rows, refreshValue, None)
      modifies users, roles, tokens.refreshTokens, tokens.blacklist, sessions, audit
      ensures Valid()
      ensures (r, Current()) == EndTransaction(old(Current()),
                LoginEffect(old(Current()), username, password, c, matches, jti, refreshValue, now,
                            accessTokenExpiration, tokens.refreshTokenExpiration), true)
    {
      var before := Current();
      r := AttemptLogin(username, password, c, matches, jti, refreshValue, now);
      LoginAdvances(before, username, password, c, matches, jti, refreshValue, now,
                    accessTokenExpiration, tokens.refreshTokenExpiration);
      if r.Err? && !r.error.BadRequest? {
        Restore(before);
      }
    }

    /** `login` as written: every refusal rolls back, the failed-attempt
      * count included. */
    method LoginAsWritten(username: string, password: string, c: Client, matches: (string, string) -> bool,
                          jti: string, refreshValue: string, now: nat) returns (r: Result<AuthResponse, Failure>)
      requires Valid()
      requires !RefreshTokenRepository.TokenTaken(tokens.refreshTokens.rows, refreshValue, None)
      modifies users, roles, tokens.refreshTokens, tokens.blacklist, sessions, audit
      ensures Valid()
      ensures (r, Current()) == EndTransaction(old(Current()),
                LoginEffect(old(Current()), username, password, c, matches, jti, refreshValue, now,
                            accessTokenExpiration, tokens.refreshTokenExpiration), false)
    {
      var before := Current();
      r := AttemptLogin(username, password, c, matches, jti, refreshValue, now);
      LoginAdvances(before, username, password, c, matches, jti, refreshValue, now,
                    accessTokenExpiration, tokens.refreshTokenExpiration);
      if r.Err? {
        Restore(before);
      }
    }

    method AttemptLogout(refreshValue: string, access: Option<Parse>, now: nat)
      returns (r: Result<(), Failure>, blacklistFailed: bool)
      requires Valid()
      modifies tokens.refreshTokens, tokens.blacklist, sessions, audit
      ensures Valid()
      ensures var o := LogoutEffect(old(Current()), refreshValue, access, now);
        r == o.result && Current() == o.store && blacklistFailed == o.rollbackOnly
    {
      var v := ValidateRefreshToken(tokens.refreshTokens.rows, refreshValue, now);
      if v.Err? {
        return Err(v.error), false;
      }
      var k := v.value;
      var userId := tokens.refreshTokens.rows[k].userId;
      RefreshTokenRepository.FindByTokenIsTheHolder(tokens.refreshTokens.rows, refreshValue, k);
      var revoked := tokens.RevokeRefreshToken(refreshValue, LogoutReason, now);
      r, blacklistFailed := FinishLogout(k, userId, access, now);
    }

    /** The rest of `logout`, once the refresh token is revoked. */
    method FinishLogout(k: nat, userId: nat, access: Option<Parse>, now: nat)
      returns (r: Result<(), Failure>, blacklistFailed: bool)
      requires Valid()
      modifies tokens.blacklist, sessions, audit
      ensures Valid()
      ensures var o := LogoutRevoked(old(Current()), k, userId, access, now);
        r == o.result && Current() == o.store && blacklistFailed == o.rollbackOnly
    {
      var found := UserSessionRepository.FindByRefreshTokenId(sessions.rows, k);
      if found.Err? {
        return Err(DataAccess(found.error)), false;
      }
      if found.value.Some? {
        var sid := found.value.value;
        var session := new UserSession.Load(sid, sessions.rows[sid]);
        session.Deactivate();
        var saved := sessions.Save(session, now);
      }
      blacklistFailed := Blacklist(access, userId, now);
      audit.Append(AuditEntry(Some(userId), LOGOUT, Succeeded));
      r := Ok(());
    }

    /** The guarded blacklisting of `logout`; a failure is reported, not
      * thrown. */
    method Blacklist(access: Option<Parse>, userId: nat, now: nat) returns (failed: bool)
      requires Valid()
      modifies tokens.blacklist
      ensures Valid()
      ensures (Current(), failed) == BlacklistStep(old(Current()), access, userId, now)
    {
      failed := false;
      if access.Some? {
        var jti := JtiOf(access.value);
        var exp := ExpirationOf(access.value);
        if jti.Err? || exp.Err? || jti.value.None? {
          failed := true;
        } else {
          var listed := tokens.BlacklistAccessToken(jti.value.value, userId, exp.value, LogoutReason, now);
          failed := listed.Err?;
        }
      }
    }

    /** `logout` with the blacklisting kept out of the logout's transaction:
      * a failure there skips the blacklisting and nothing else. */
    method Logout(refreshValue: string, access: Option<Parse>, now: nat) returns (r: Result<(), Failure>)
      requires Valid()
      modifies users, roles, tokens.refreshTokens, tokens.blacklist, sessions, audit
      ensures Valid()
      ensures (r, Current()) == EndTransaction(old(Current()),
                LogoutEffect(old(Current()), refreshValue, access, now).(rollbackOnly := false), false)
    {
      var before := Current();
      var failed;
      r, failed := AttemptLogout(refreshValue, access, now);
      LogoutAdvances(before, refreshValue, access, now);
      if r.Err? {
        Restore(before);
      }
    }

    /** `logout` as written: a caught blacklisting failure still dooms the
      * transaction, so the logout fails at commit and nothing is revoked. */
    method LogoutAsWritten(refreshValue: string, access: Option<Parse>, now: nat) returns (r: Result<(), Failure>)
      requires Valid()
      modifies users, roles, tokens.refreshTokens, tokens.blacklist, sessions, audit
      ensures Valid()
      ensures (r, Current()) == EndTransaction(old(Current()), LogoutEffect(old(Current()), refreshValue, access, now), false)
    {
      var before := Current();
      var failed;
      r, failed := AttemptLogout(refreshValue, access, now);
      LogoutAdvances(before, refreshValue, access, now);
      if r.Err? {
        Restore(before);
      } else if failed {
        Restore(before);
        r := Err(UnexpectedRollback);
      }
    }

    /** `logoutAll`: cannot fail. */
    method LogoutAll(userId: nat, now: nat)
      requires Valid()
      modifies tokens.refreshTokens, sessions, audit
      ensures Valid()
      ensures Current() == LogoutAllEffect(old(Current()), userId, now).store
    {
      var count := tokens.RevokeAllUserTokens(userId, LogoutAllReason, now);
      var deactivated := sessions.DeactivateAllByUserIdUpdate(userId);
      audit.Append(AuditEntry(Some(userId), LOGOUT_ALL, Succeeded));
    }

    /** The rotation that starts `refreshToken`, over the whole store. */
    method RotateInStore(refreshValue: string, c: Client, newValue: string, now: nat)
      returns (rotated: Result<RefreshToken, Failure>)
      requires Valid()
      requires !RefreshTokenRepository.TokenTaken(tokens.refreshTokens.rows, newValue, None)
      modifies tokens.refreshTokens
      ensures Valid()
      ensures ValidateRefreshToken(old(Current()).tokens, refreshValue, now).Err? ==>
        rotated == Err(ValidateRefreshToken(old(Current()).tokens, refreshValue, now).error) && Current() == old(Current())
      ensures ValidateRefreshToken(old(Current()).tokens, refreshValue, now).Ok? ==>
        var s := old(Current());
        var oldId := ValidateRefreshToken(s.tokens, refreshValue, now).value;
        var newRow := Successor(s.tokens[oldId], newValue, c.ipAddress, c.userAgent,
                                now + tokens.refreshTokenExpiration / 1000).(createdAt := Some(now));
        && rotated.Ok? && rotated.value.userId == s.tokens[oldId].userId && rotated.value.id == Some(s.tokenNext)
        && Current() == s.(tokens := Rotation(s.tokens, oldId, s.tokenNext, newRow, now), tokenNext := s.tokenNext + 1)
    {
      rotated := tokens.RotateRefreshToken(refreshValue, c.ipAddress, c.userAgent, newValue, now);
    }

    method AttemptRefresh(refreshValue: string, c: Client, jti: string, newValue: string, now: nat)
      returns (r: Result<AuthResponse, Failure>)
      requires Valid()
      requires !RefreshTokenRepository.TokenTaken(tokens.refreshTokens.rows, newValue, None)
      modifies tokens.refreshTokens, sessions, audit
      ensures Valid()
      ensures var o := RefreshEffect(old(Current()), refreshValue, c, jti, newValue, now,
                                     accessTokenExpiration, tokens.refreshTokenExpiration);
        r == o.result && Current() == o.store
    {
      ghost var before := Current();
      var rotated := RotateInStore(refreshValue, c, newValue, now);
      if rotated.Err? {
        return Err(rotated.error);
      }
      ghost var mid := Current();
      var userId, newId := rotated.value.userId, rotated.value.id.value;
      RefreshUnfolds(before, refreshValue, c, jti, newValue, now, accessTokenExpiration, tokens.refreshTokenExpiration);
      assert RefreshEffect(before, refreshValue, c, jti, newValue, now, accessTokenExpiration, tokens.refreshTokenExpiration)
          == RefreshRotated(mid, userId, newId, newValue, jti, now, accessTokenExpiration);
      r := FinishRefresh(userId, newId, newValue, jti, now);
    }

    /** The rest of `refreshToken`, once the successor is stored. */
    method FinishRefresh(userId: nat, newId: nat, newValue: string, jti: string, now: nat)
      returns (r: Result<AuthResponse, Failure>)
      requires Valid()
      modifies sessions, audit
      ensures Valid()
      ensures var o := RefreshRotated(old(Current()), userId, newId, newValue, jti, now, accessTokenExpiration);
        r == o.result && Current() == o.store
    {
      var before := Current();
      if userId !in users.rows {
        return Err(BadRequest(UserNotFound));
      }
      var found := UserSessionRepository.FindByRefreshTokenId(sessions.rows, newId);
      if found.Err? {
        return Err(DataAccess(found.error));
      }
      if found.value.Some? {
        var sid := found.value.value;
        var session := new UserSession.Load(sid, sessions.rows[sid]);
        session.UpdateLastAccess(now);
        var saved := sessions.Save(session, now);
      }
      audit.Append(AuditEntry(Some(userId), TOKEN_REFRESH, Succeeded));
      r := Ok(Response(before, userId, users.rows[userId], newValue, jti, now, accessTokenExpiration));
    }

    method RefreshToken(refreshValue: string, c: Client, jti: string, newValue: string, now: nat)
      returns (r: Result<AuthResponse, Failure>)
      requires Valid()
      requires !RefreshTokenRepository.TokenTaken(tokens.refreshTokens.rows, newValue, None)
      modifies users, roles, tokens.refreshTokens, tokens.blacklist, sessions, audit
      ensures Valid()
      ensures (r, Current()) == EndTransaction(old(Current()),
                RefreshEffect(old(Current()), refreshValue, c, jti, newValue, now,
                              accessTokenExpiration, tokens.refreshTokenExpiration), false)
    {
      var before := Current();
      r := AttemptRefresh(refreshValue, c, jti, newValue, now);
      RefreshAdvances(before, refreshValue, c, jti, newValue, now, accessTokenExpiration, tokens.refreshTokenExpiration);
      if r.Err? {
        Restore(before);
      }
    }

    method AttemptChangePassword(userId: nat, current: string, next: string, logoutAll: bool,
                                 matches: (string, string) -> bool, encode: string -> string, now: nat)
      returns (r: Result<(), Failure>)
      requires Valid()
      modifies users, tokens.refreshTokens, sessions, audit
      ensures Valid()
      ensures var o := ChangePasswordEffect(old(Current()), userId, current, next, logoutAll, matches, encode, now);
        r == o.result && Current() == o.store
    {
      if userId !in users.rows {
        return Err(BadRequest(UserNotFound));
      }
      var user := new User.Load(userId, users.rows[userId]);
      if !matches(current, user.password) {
        audit.Append(AuditEntry(Some(userId), PASSWORD_CHANGE, Failed));
        return Err(BadRequest(WrongCurrentPassword));
      }
      user.password := encode(next);
      user.passwordChangedAt := Some(now);
      StoreUser(userId, user, now);
      r := FinishPasswordChange(userId, logoutAll, now);
    }

    /** The rest of `changePassword`, once the new password is stored. */
    method FinishPasswordChange(userId: nat, logoutAll: bool, now: nat) returns (r: Result<(), Failure>)
      requires Valid()
      modifies tokens.refreshTokens, sessions, audit
      ensures Valid()
      ensures var o := PasswordStored(old(Current()), userId, logoutAll, now); r == o.result && Current() == o.store
    {
      if logoutAll {
        var count := tokens.RevokeAllUserTokens(userId, PasswordChangedReason, now);
        var deactivated := sessions.DeactivateAllByUserIdUpdate(userId);
      }
      audit.Append(AuditEntry(Some(userId), PASSWORD_CHANGE, Succeeded));
      r := Ok(());
    }

    method ChangePassword(userId: nat, current: string, next: string, logoutAll: bool,
                          matches: (string, string) -> bool, encode: string -> string, now: nat)
      returns (r: Result<(), Failure>)
      requires Valid()
      modifies users, roles, tokens.refreshTokens, tokens.blacklist, sessions, audit
      ensures Valid()
      ensures (r, Current()) == EndTransaction(old(Current()),
                ChangePasswordEffect(old(Current()), userId, current, next, logoutAll, matches, encode, now), false)
    {
      var before := Current();
      r := AttemptChangePassword(userId, current, next, logoutAll, matches, encode, now);
      ChangePasswordAdvances(before, userId, current, next, logoutAll, matches, encode, now);
      if r.Err? {
        Restore(before);
      }
    }
  }
}
