// Account administration: status changes, role grants and revocations,
// forced logout, profile updates, and the read side that flattens a
// user's roles into role and permission names. The acting admin's id and
// the clock reading are handed in.

module UserServices {
  import opened Common
  import opened ServiceErrors
  import opened AuditTrail
  import opened Users
  import opened UserSessions
  import opened RefreshTokens
  import UserRepository
  import RoleRepository
  import PermissionRepository
  import RefreshTokenRepository
  import UserSessionRepository
  import opened UserMapper

  const UserNotFound: string := "User not found"
  const RoleNotFound: string := "Role not found"
  const LastRole: string := "User must have at least one role"
  const ForceLogoutReason: string := "Force logout by admin"

  /** `getUserById`. */
  function UserById(rows: UserRepository.Rows, id: nat): (r: Result<UserRecord, Failure>)
    ensures r.Ok? <==> id in rows
    ensures r.Ok? ==> r.value == rows[id]
    ensures r.Err? ==> r.error == BadRequest(UserNotFound)
  {
    if id in rows then Ok(rows[id]) else Err(BadRequest(UserNotFound))
  }

  // ---------------------------------------------------------------------
  // Status

  /** The columns after `updateUserStatus` sets `status`: a manual lock
    * clears the lock's end time; nothing else changes, the failed-attempt
    * counter included. */
  function WithStatus(u: UserRecord, status: Status): (r: UserRecord)
    ensures r.status == status && r.failedLoginAttempts == u.failedLoginAttempts
    ensures r.lockedUntil == if status == LOCKED then None else u.lockedUntil
    ensures r.(status := u.status, lockedUntil := u.lockedUntil) == u
  {
    if status == LOCKED then u.(status := status, lockedUntil := None) else u.(status := status)
  }

  /** The audit action of a status change. */
  function StatusAction(status: Status): (a: Action)
    ensures a == USER_LOCK <==> status == LOCKED
    ensures a == USER_DISABLE <==> status == DISABLED
    ensures a == USER_UNLOCK <==> status == ACTIVE
  {
    match status
    case LOCKED => USER_LOCK
    case DISABLED => USER_DISABLE
    case ACTIVE => USER_UNLOCK
  }

  /** A manual lock never lifts by itself: every later check reports the
    * account locked and leaves it as it is. */
  lemma ManualLockHasNoExpiry(u: UserRecord, t: nat)
    ensures WithStatus(u, LOCKED).LockCheck(t) == (true, WithStatus(u, LOCKED))
  {
  }

  /** An admin unlock keeps the failed-attempt counter, so an account that
    * was locked by five failures is locked again by the next failure. */
  lemma UnlockKeepsCounter(u: UserRecord, t: nat)
    requires u.failedLoginAttempts + 1 >= MaxFailedAttempts
    ensures !WithStatus(u, ACTIVE).LockCheck(t).0
    ensures WithStatus(u, ACTIVE).AfterFailedAttempt(t).status == LOCKED
    ensures WithStatus(u, ACTIVE).AfterFailedAttempt(t).lockedUntil == Some(t + LockSeconds)
  {
  }

  // ---------------------------------------------------------------------
  // Roles

  /** Removing one role from a set of more than one leaves at least one. */
  lemma RemovalKeepsARole(roles: set<nat>, roleId: nat)
    requires |roles| > 1
    ensures |roles - {roleId}| >= 1
  {
    if roleId in roles {
      assert roles == (roles - {roleId}) + {roleId};
    } else {
      assert roles - {roleId} == roles;
    }
  }

  // ---------------------------------------------------------------------
  // The read side

  /** `getUserRoleNames`: the names of the user's roles. */
  function RoleNames(users: UserRepository.Rows, roles: RoleRepository.Rows, perms: PermissionRepository.Rows,
                     userId: nat): (r: Result<set<string>, Failure>)
    ensures r.Ok? <==> userId in users
    ensures r.Err? ==> r.error == BadRequest(UserNotFound)
    ensures r.Ok? ==> forall n :: n in r.value <==>
      exists k :: k in users[userId].roles && k in roles && roles[k].name == n
  {
    if userId !in users then Err(BadRequest(UserNotFound))
    else
      var views := ResolveRoles(users[userId].roles, roles, perms);
      var names := MapRoles(Some(views)).value;
      assert forall n :: n in names ==> exists k :: k in users[userId].roles && k in roles && roles[k].name == n;
      assert forall k :: k in users[userId].roles && k in roles ==> roles[k].name in names by {
        forall k | k in users[userId].roles && k in roles ensures roles[k].name in names {
          ResolvedRoleFlattened(users[userId].roles, roles, perms, k, 0);
        }
      }
      Ok(names)
  }

  /** `getUserPermissionNames`: the names of every permission of every
    * role of the user. */
  function PermissionNames(users: UserRepository.Rows, roles: RoleRepository.Rows, perms: PermissionRepository.Rows,
                           userId: nat): (r: Result<set<string>, Failure>)
    ensures r.Ok? <==> userId in users
    ensures r.Err? ==> r.error == BadRequest(UserNotFound)
    ensures r.Ok? ==> forall n :: n in r.value <==>
      exists k, p :: k in users[userId].roles && k in roles && p in roles[k].permissions && p in perms
                     && perms[p].name == n
  {
    if userId !in users then Err(BadRequest(UserNotFound))
    else
      var views := ResolveRoles(users[userId].roles, roles, perms);
      var names := MapPermissions(Some(views)).value;
      assert forall n :: n in names ==>
        exists k, p :: k in users[userId].roles && k in roles && p in roles[k].permissions && p in perms
                       && perms[p].name == n;
      assert forall k, p :: k in users[userId].roles && k in roles && p in roles[k].permissions && p in perms
                            ==> perms[p].name in names by {
        forall k, p | k in users[userId].roles && k in roles && p in roles[k].permissions && p in perms
          ensures perms[p].name in names
        {
          ResolvedRoleFlattened(users[userId].roles, roles, perms, k, p);
        }
      }
      Ok(names)
  }

  /** `hasRole`: membership in the role names. */
  function HasRole(users: UserRepository.Rows, roles: RoleRepository.Rows, perms: PermissionRepository.Rows,
                   userId: nat, roleName: string): (r: Result<bool, Failure>)
    ensures r.Ok? <==> userId in users
    ensures r.Err? ==> r.error == BadRequest(UserNotFound)
    ensures r.Ok? ==> (r.value <==> exists k :: k in users[userId].roles && k in roles && roles[k].name == roleName)
  {
    match RoleNames(users, roles, perms, userId)
    case Err(e) => Err(e)
    case Ok(names) => Ok(roleName in names)
  }

  /** `hasPermission`: membership in the permission names. */
  function HasPermission(users: UserRepository.Rows, roles: RoleRepository.Rows, perms: PermissionRepository.Rows,
                         userId: nat, permissionName: string): (r: Result<bool, Failure>)
    ensures r.Ok? <==> userId in users
    ensures r.Err? ==> r.error == BadRequest(UserNotFound)
    ensures r.Ok? ==> (r.value <==>
      exists k, p :: k in users[userId].roles && k in roles && p in roles[k].permissions && p in perms
                     && perms[p].name == permissionName)
  {
    match PermissionNames(users, roles, perms, userId)
    case Err(e) => Err(e)
    case Ok(names) => Ok(permissionName in names)
  }

  /** `getUserSessions`: the user's active sessions only. */
  function UserSessionIds(rows: UserSessionRepository.Rows, userId: nat): (r: set<nat>)
    ensures forall k :: k in r <==> k in rows && rows[k].userId == userId && rows[k].isActive
  {
    UserSessionRepository.ActiveSessionsOf(rows, userId)
  }

  // ---------------------------------------------------------------------
  // Profile

  /** The profile fields of an update request, null standing for "leave
    * as it is", and the phone number, which lives on the user. */
  datatype UpdateProfileRequest = UpdateProfileRequest(
    fullName: Option<string>,
    dateOfBirth: Option<string>,
    country: Option<string>,
    gender: Option<string>,
    age: Option<string>,
    avatarUrl: Option<string>,
    genres: Option<set<string>>,
    phone: Option<string>)

  function Overwrite<T>(given: Option<T>, current: Option<T>): (r: Option<T>)
    ensures given.Some? ==> r == given
    ensures given.None? ==> r == current
  {
    if given.Some? then given else current
  }

  /** The profile after `updateProfile`: each field the request carries
    * replaces the stored one; the genres are replaced as a whole. */
  function MergedProfile(p: ProfileRecord, req: UpdateProfileRequest): ProfileRecord
  {
    ProfileRecord(Overwrite(req.fullName, p.fullName), Overwrite(req.dateOfBirth, p.dateOfBirth),
                  Overwrite(req.country, p.country), Overwrite(req.gender, p.gender),
                  Overwrite(req.age, p.age), Overwrite(req.avatarUrl, p.avatarUrl),
                  if req.genres.Some? then req.genres.value else p.genres)
  }

  /** The empty request, and every request's own effect. */
  const NoChanges: UpdateProfileRequest := UpdateProfileRequest(None, None, None, None, None, None, None, None)

  /** Exactly the fields the request carries change, to the request's
    * values; an empty request changes nothing; and repeating an update is
    * the same as doing it once. */
  lemma ProfileMergeLaws(p: ProfileRecord, req: UpdateProfileRequest)
    ensures var m := MergedProfile(p, req);
      && (req.fullName.Some? ==> m.fullName == req.fullName) && (req.fullName.None? ==> m.fullName == p.fullName)
      && (req.dateOfBirth.Some? ==> m.dateOfBirth == req.dateOfBirth) && (req.dateOfBirth.None? ==> m.dateOfBirth == p.dateOfBirth)
      && (req.country.Some? ==> m.country == req.country) && (req.country.None? ==> m.country == p.country)
      && (req.gender.Some? ==> m.gender == req.gender) && (req.gender.None? ==> m.gender == p.gender)
      && (req.age.Some? ==> m.age == req.age) && (req.age.None? ==> m.age == p.age)
      && (req.avatarUrl.Some? ==> m.avatarUrl == req.avatarUrl) && (req.avatarUrl.None? ==> m.avatarUrl == p.avatarUrl)
      && (req.genres.Some? ==> m.genres == req.genres.value) && (req.genres.None? ==> m.genres == p.genres)
    ensures MergedProfile(p, NoChanges) == p
    ensures MergedProfile(MergedProfile(p, req), req) == MergedProfile(p, req)
  {
  }

  /** The user's columns after `updateProfile`: only the phone number, and
    * only when the request carries one. */
  function WithPhone(u: UserRecord, req: UpdateProfileRequest): (r: UserRecord)
    ensures r.phoneNumber == Overwrite(req.phone, u.phoneNumber)
    ensures r.(phoneNumber := u.phoneNumber) == u
  {
    if req.phone.Some? then u.(phoneNumber := req.phone) else u
  }

  /** The profile table, keyed by the user's id. */
  class ProfileTable {
    var rows: map<nat, ProfileRecord>

    constructor ()
      ensures rows == map[]
    {
      rows := map[];
    }

    /** `save`: insert or overwrite the user's profile. */
    method Save(userId: nat, p: ProfileRecord)
      modifies this
      ensures rows == old(rows)[userId := p]
    {
      rows := rows[userId := p];
    }
  }

  // ---------------------------------------------------------------------
  // The service over the tables

  class UserService {
    const users: UserRepository.UserTable
    const roles: RoleRepository.RoleTable
    const perms: PermissionRepository.PermissionTable
    const tokens: RefreshTokenRepository.RefreshTokenTable
    const sessions: UserSessionRepository.UserSessionTable
    const profiles: ProfileTable
    const audit: AuditLog

    constructor (users: UserRepository.UserTable, roles: RoleRepository.RoleTable,
                 perms: PermissionRepository.PermissionTable, tokens: RefreshTokenRepository.RefreshTokenTable,
                 sessions: UserSessionRepository.UserSessionTable, profiles: ProfileTable, audit: AuditLog)
      ensures this.users == users && this.roles == roles && this.perms == perms && this.tokens == tokens
      ensures this.sessions == sessions && this.profiles == profiles && this.audit == audit
    {
      this.users := users;
      this.roles := roles;
      this.perms := perms;
      this.tokens := tokens;
      this.sessions := sessions;
      this.profiles := profiles;
      this.audit := audit;
    }

    /** The loaded user, changed to `next` and saved; the username and
      * email are the row's, so no constraint can fail. */
    method StoreUser(id: nat, next: UserRecord, now: nat)
      requires users.Valid() && id in users.rows
      requires next.username == users.rows[id].username && next.email == users.rows[id].email
      modifies users
      ensures users.Valid() && users.nextId == old(users.nextId)
      ensures users.rows == old(users.rows)[id := UserRepository.Touched(old(users.rows)[id], next, now)]
    {
      var user := new User.Load(id, next);
      UserRepository.KeysKeptNoClash(users.rows, id, next);
      var saved := users.Save(user, now);
    }

    /** `updateUserStatus`: the user must exist; the new status is stored
      * (a manual lock without an end time) and the admin action logged. */
    method UpdateUserStatus(userId: nat, status: Status, adminId: nat, now: nat) returns (r: Result<UserRecord, Failure>)
      requires users.Valid()
      modifies users, audit
      ensures users.Valid() && users.nextId == old(users.nextId)
      ensures userId !in old(users.rows) ==>
        r == Err(BadRequest(UserNotFound)) && users.rows == old(users.rows) && audit.entries == old(audit.entries)
      ensures userId in old(users.rows) ==>
        var u := UserRepository.Touched(old(users.rows)[userId], WithStatus(old(users.rows)[userId], status), now);
        && r == Ok(u) && users.rows == old(users.rows)[userId := u]
        && audit.entries == old(audit.entries) + [AuditEntry(Some(adminId), StatusAction(status), ByAdmin(userId))]
    {
      var found := UserById(users.rows, userId);
      if found.Err? {
        return Err(found.error);
      }
      var next := WithStatus(found.value, status);
      StoreUser(userId, next, now);
      audit.Append(AuditEntry(Some(adminId), StatusAction(status), ByAdmin(userId)));
      r := Ok(users.rows[userId]);
    }

    /** `addRoleToUser`: the user, then the role, must exist; the role is
      * added to the user's set and the grant logged. */
    method AddRoleToUser(userId: nat, roleId: nat, adminId: nat, now: nat) returns (r: Result<UserRecord, Failure>)
      requires users.Valid()
      modifies users, audit
      ensures users.Valid() && users.nextId == old(users.nextId)
      ensures userId !in old(users.rows) ==>
        r == Err(BadRequest(UserNotFound)) && users.rows == old(users.rows) && audit.entries == old(audit.entries)
      ensures userId in old(users.rows) && roleId !in roles.rows ==>
        r == Err(BadRequest(RoleNotFound)) && users.rows == old(users.rows) && audit.entries == old(audit.entries)
      ensures userId in old(users.rows) && roleId in roles.rows ==>
        var u0 := old(users.rows)[userId];
        var u := UserRepository.Touched(u0, u0.(roles := u0.roles + {roleId}), now);
        && r == Ok(u) && users.rows == old(users.rows)[userId := u]
        && audit.entries == old(audit.entries) + [AuditEntry(Some(adminId), ROLE_ASSIGN, ByAdmin(userId))]
    {
      var found := UserById(users.rows, userId);
      if found.Err? {
        return Err(found.error);
      }
      if roleId !in roles.rows {
        return Err(BadRequest(RoleNotFound));
      }
      var u0 := found.value;
      StoreUser(userId, u0.(roles := u0.roles + {roleId}), now);
      audit.Append(AuditEntry(Some(adminId), ROLE_ASSIGN, ByAdmin(userId)));
      r := Ok(users.rows[userId]);
    }

    /** `removeRoleFromUser`: the user, then the role, must exist, and the
      * user must hold more than one role (whether or not it holds this
      * one); the role is taken out and the revocation logged. A user who
      * held a role keeps at least one. */
    method RemoveRoleFromUser(userId: nat, roleId: nat, adminId: nat, now: nat) returns (r: Result<UserRecord, Failure>)
      requires users.Valid()
      modifies users, audit
      ensures users.Valid() && users.nextId == old(users.nextId)
      ensures userId !in old(users.rows) ==>
        r == Err(BadRequest(UserNotFound)) && users.rows == old(users.rows) && audit.entries == old(audit.entries)
      ensures userId in old(users.rows) && roleId !in roles.rows ==>
        r == Err(BadRequest(RoleNotFound)) && users.rows == old(users.rows) && audit.entries == old(audit.entries)
      ensures userId in old(users.rows) && roleId in roles.rows && |old(users.rows)[userId].roles| <= 1 ==>
        r == Err(BadRequest(LastRole)) && users.rows == old(users.rows) && audit.entries == old(audit.entries)
      ensures userId in old(users.rows) && roleId in roles.rows && |old(users.rows)[userId].roles| > 1 ==>
        var u0 := old(users.rows)[userId];
        var u := UserRepository.Touched(u0, u0.(roles := u0.roles - {roleId}), now);
        && r == Ok(u) && users.rows == old(users.rows)[userId := u] && |u.roles| >= 1
        && audit.entries == old(audit.entries) + [AuditEntry(Some(adminId), ROLE_REVOKE, ByAdmin(userId))]
    {
      var found := UserById(users.rows, userId);
      if found.Err? {
        return Err(found.error);
      }
      if roleId !in roles.rows {
        return Err(BadRequest(RoleNotFound));
      }
      var u0 := found.value;
      if |u0.roles| <= 1 {
        return Err(BadRequest(LastRole));
      }
      RemovalKeepsARole(u0.roles, roleId);
      StoreUser(userId, u0.(roles := u0.roles - {roleId}), now);
      audit.Append(AuditEntry(Some(adminId), ROLE_REVOKE, ByAdmin(userId)));
      r := Ok(users.rows[userId]);
    }

    /** `forceLogoutUser`: every unrevoked token of the user revoked, every
      * session of the user deactivated, the admin action logged. The user
      * is not looked up, so an unknown id is logged too. */
    method ForceLogoutUser(userId: nat, adminId: nat, now: nat)
      requires tokens.Valid() && sessions.Valid()
      modifies tokens, sessions, audit
      ensures tokens.Valid() && sessions.Valid()
      ensures tokens.rows == RefreshTokenRepository.RevokeAllByUserId(old(tokens.rows), userId, now, ForceLogoutReason)
      ensures sessions.rows == UserSessionRepository.DeactivateAllByUserId(old(sessions.rows), userId)
      ensures tokens.nextId == old(tokens.nextId) && sessions.nextId == old(sessions.nextId)
      ensures RefreshTokenRepository.CountByUserIdAndRevokedAtIsNull(tokens.rows, userId) == 0
      ensures UserSessionIds(sessions.rows, userId) == {}
      ensures audit.entries == old(audit.entries) + [AuditEntry(Some(adminId), LOGOUT_ALL, ByAdmin(userId))]
    {
      RefreshTokenRepository.RevokeAllEffect(tokens.rows, userId, now, ForceLogoutReason, now);
      UserSessionRepository.DeactivateAllEffect(sessions.rows, userId, userId + 1);
      var revoked := tokens.RevokeAllByUserIdUpdate(userId, now, ForceLogoutReason);
      var deactivated := sessions.DeactivateAllByUserIdUpdate(userId);
      audit.Append(AuditEntry(Some(adminId), LOGOUT_ALL, ByAdmin(userId)));
    }

    /** `updateProfile`: the user must exist; a missing profile starts
      * empty; the request's fields are merged into it and its phone into
      * the user; the profile is saved, then the user. */
    method UpdateProfile(userId: nat, req: UpdateProfileRequest, now: nat) returns (r: Result<UserRecord, Failure>)
      requires users.Valid()
      modifies users, profiles
      ensures users.Valid() && users.nextId == old(users.nextId)
      ensures userId !in old(users.rows) ==>
        r == Err(BadRequest(UserNotFound)) && users.rows == old(users.rows) && profiles.rows == old(profiles.rows)
      ensures userId in old(users.rows) ==>
        var p := if userId in old(profiles.rows) then old(profiles.rows)[userId] else EmptyProfile;
        var u := UserRepository.Touched(old(users.rows)[userId], WithPhone(old(users.rows)[userId], req), now);
        && profiles.rows == old(profiles.rows)[userId := MergedProfile(p, req)]
        && r == Ok(u) && users.rows == old(users.rows)[userId := u]
    {
      var found := UserById(users.rows, userId);
      if found.Err? {
        return Err(found.error);
      }
      var p := if userId in profiles.rows then profiles.rows[userId] else EmptyProfile;
      profiles.Save(userId, MergedProfile(p, req));
      StoreUser(userId, WithPhone(found.value, req), now);
      r := Ok(users.rows[userId]);
    }
  }
}
