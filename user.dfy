// An account: credentials, status, the failed-login counter with its
// automatic lock, and the set of roles it holds.

module Users {
  import opened Common

  datatype Status = ACTIVE | LOCKED | DISABLED

  /** Five consecutive failures lock the account ... */
  const MaxFailedAttempts: nat := 5
  /** ... for fifteen minutes. */
  const LockSeconds: nat := 15 * 60

  /** The persisted columns of a user, without its id. Roles are held by
    * id; the profile lives in its own table. */
  datatype UserRecord = UserRecord(
    username: string,
    email: Option<string>,
    phoneNumber: Option<string>,
    password: string,
    status: Status,
    failedLoginAttempts: nat,
    lockedUntil: Option<nat>,
    lastLoginAt: Option<nat>,
    lastLoginIp: Option<string>,
    passwordChangedAt: Option<nat>,
    roles: set<nat>,
    createdAt: Option<nat>,
    updatedAt: Option<nat>)
  {
    /** `isAccountLocked` at `now`: the answer, and the columns afterwards
      * (an expired timed lock is lifted as a side effect). */
    function LockCheck(now: nat): (bool, UserRecord)
    {
      if status == LOCKED && lockedUntil.Some? then
        if now > lockedUntil.value then
          (false, this.(status := ACTIVE, failedLoginAttempts := 0, lockedUntil := None))
        else (true, this)
      else (status == LOCKED, this)
    }

    /** `incrementFailedAttempts` at `now`. */
    function AfterFailedAttempt(now: nat): UserRecord
    {
      var n := failedLoginAttempts + 1;
      if n >= MaxFailedAttempts then
        this.(failedLoginAttempts := n, status := LOCKED, lockedUntil := Some(now + LockSeconds))
      else this.(failedLoginAttempts := n)
    }

    /** `resetFailedAttempts`. */
    function AfterReset(): UserRecord
    {
      this.(failedLoginAttempts := 0, status := ACTIVE, lockedUntil := None)
    }

    /** `recordLogin(ip)` at `now`. */
    function AfterLogin(ip: string, now: nat): UserRecord
    {
      this.(lastLoginAt := Some(now), lastLoginIp := Some(ip)).AfterReset()
    }
  }

  /** The columns of a user's profile, kept in its own table keyed by the
    * user's id. */
  datatype ProfileRecord = ProfileRecord(
    fullName: Option<string>,
    dateOfBirth: Option<string>,
    country: Option<string>,
    gender: Option<string>,
    age: Option<string>,
    avatarUrl: Option<string>,
    genres: set<string>)

  /** A profile built for a user who had none: every field empty. */
  const EmptyProfile: ProfileRecord := ProfileRecord(None, None, None, None, None, None, {})

  /** The columns of `new User()` with no setter called yet. */
  function Blank(): UserRecord
  {
    UserRecord("", None, None, "", ACTIVE, 0, None, None, None, None, {}, None, None)
  }

  class User {
    var id: Option<nat>
    var username: string
    var email: Option<string>
    var phoneNumber: Option<string>
    var password: string
    var status: Status
    var failedLoginAttempts: nat
    var lockedUntil: Option<nat>
    var lastLoginAt: Option<nat>
    var lastLoginIp: Option<string>
    var passwordChangedAt: Option<nat>
    var roles: set<nat>
    var createdAt: Option<nat>
    var updatedAt: Option<nat>

    function Record(): UserRecord
      reads this
    {
      UserRecord(username, email, phoneNumber, password, status, failedLoginAttempts, lockedUntil,
                 lastLoginAt, lastLoginIp, passwordChangedAt, roles, createdAt, updatedAt)
    }

    /** `new User()`: ACTIVE, no failed attempts and no roles. */
    constructor ()
      ensures id.None? && Record() == Blank()
    {
      id := None;
      username := "";
      email := None;
      phoneNumber := None;
      password := "";
      status := ACTIVE;
      failedLoginAttempts := 0;
      lockedUntil := None;
      lastLoginAt := None;
      lastLoginIp := None;
      passwordChangedAt := None;
      roles := {};
      createdAt := None;
      updatedAt := None;
    }

    /** A new user whose setters have been given the columns `r`. */
    constructor FromRecord(r: UserRecord)
      ensures id.None? && Record() == r
    {
      id := None;
      username := r.username;
      email := r.email;
      phoneNumber := r.phoneNumber;
      password := r.password;
      status := r.status;
      failedLoginAttempts := r.failedLoginAttempts;
      lockedUntil := r.lockedUntil;
      lastLoginAt := r.lastLoginAt;
      lastLoginIp := r.lastLoginIp;
      passwordChangedAt := r.passwordChangedAt;
      roles := r.roles;
      createdAt := r.createdAt;
      updatedAt := r.updatedAt;
    }

    constructor Load(id: nat, r: UserRecord)
      ensures this.id == Some(id) && Record() == r
    {
      this.id := Some(id);
      username := r.username;
      email := r.email;
      phoneNumber := r.phoneNumber;
      password := r.password;
      status := r.status;
      failedLoginAttempts := r.failedLoginAttempts;
      lockedUntil := r.lockedUntil;
      lastLoginAt := r.lastLoginAt;
      lastLoginIp := r.lastLoginIp;
      passwordChangedAt := r.passwordChangedAt;
      roles := r.roles;
      createdAt := r.createdAt;
      updatedAt := r.updatedAt;
    }

    method IsAccountLocked(now: nat) returns (locked: bool)
      modifies this
      ensures id == old(id)
      ensures (locked, Record()) == old(Record()).LockCheck(now)
    {
      if status == LOCKED && lockedUntil.Some? {
        if now > lockedUntil.value {
          status := ACTIVE;
          failedLoginAttempts := 0;
          lockedUntil := None;
          return false;
        }
        return true;
      }
      return status == LOCKED;
    }

    method IncrementFailedAttempts(now: nat)
      modifies this
      ensures id == old(id)
      ensures Record() == old(Record()).AfterFailedAttempt(now)
    {
      failedLoginAttempts := failedLoginAttempts + 1;
      if failedLoginAttempts >= MaxFailedAttempts {
        status := LOCKED;
        lockedUntil := Some(now + LockSeconds);
      }
    }

    method ResetFailedAttempts()
      modifies this
      ensures id == old(id)
      ensures Record() == old(Record()).AfterReset()
    {
      failedLoginAttempts := 0;
      status := ACTIVE;
      lockedUntil := None;
    }

    method RecordLogin(ip: string, now: nat)
      modifies this
      ensures id == old(id)
      ensures Record() == old(Record()).AfterLogin(ip, now)
    {
      lastLoginAt := Some(now);
      lastLoginIp := Some(ip);
      ResetFailedAttempts();
    }

    /** `addRole`: set insertion. Adding a role already held changes
      * nothing, so adding twice is adding once. */
    method AddRole(roleId: nat)
      modifies this
      ensures id == old(id)
      ensures Record() == old(Record()).(roles := old(roles) + {roleId})
      ensures roleId in roles
      ensures roleId in old(roles) ==> Record() == old(Record())
    {
      roles := roles + {roleId};
    }

    /** `removeRole`: set removal. The role is gone, every other role is
      * kept, and removing a role not held changes nothing. */
    method RemoveRole(roleId: nat)
      modifies this
      ensures id == old(id)
      ensures Record() == old(Record()).(roles := old(roles) - {roleId})
      ensures roleId !in roles && forall q :: q != roleId ==> (q in roles <==> q in old(roles))
      ensures roleId !in old(roles) ==> Record() == old(Record())
    {
      roles := roles - {roleId};
    }
  }

  // ---------------------------------------------------------------------
  // Properties

  /** The four cases of `isAccountLocked`: an expired timed lock is lifted
    * (status ACTIVE, no attempts, no lock time) and reported unlocked; a
    * timed lock is still in force up to and including its end; a lock
    * without an end time never lifts; ACTIVE and DISABLED are not locked. */
  lemma LockCheckCases(u: UserRecord, now: nat)
    ensures u.status == LOCKED && u.lockedUntil.Some? && now > u.lockedUntil.value ==>
      u.LockCheck(now) == (false, u.(status := ACTIVE, failedLoginAttempts := 0, lockedUntil := None))
    ensures u.status == LOCKED && u.lockedUntil.Some? && now <= u.lockedUntil.value ==>
      u.LockCheck(now) == (true, u)
    ensures u.status == LOCKED && u.lockedUntil.None? ==> u.LockCheck(now) == (true, u)
    ensures u.status != LOCKED ==> u.LockCheck(now) == (false, u)
  {
  }

  /** A run of failed attempts at the given instants. */
  function FailedAttempts(u: UserRecord, times: seq<nat>): UserRecord
    decreases |times|
  {
    if times == [] then u else FailedAttempts(u.AfterFailedAttempt(times[0]), times[1..])
  }

  /** After n failed attempts the counter has grown by n. While it stays
    * below five nothing else changes; once a run takes it to five or more,
    * the account is LOCKED until fifteen minutes after the last attempt. */
  lemma {:induction false} FailedAttemptsAccumulate(u: UserRecord, times: seq<nat>)
    ensures FailedAttempts(u, times).failedLoginAttempts == u.failedLoginAttempts + |times|
    ensures u.failedLoginAttempts + |times| < MaxFailedAttempts ==>
      FailedAttempts(u, times) == u.(failedLoginAttempts := u.failedLoginAttempts + |times|)
    ensures |times| > 0 && u.failedLoginAttempts + |times| >= MaxFailedAttempts ==>
      FailedAttempts(u, times).status == LOCKED
      && FailedAttempts(u, times).lockedUntil == Some(times[|times| - 1] + LockSeconds)
    ensures FailedAttempts(u, times).roles == u.roles && FailedAttempts(u, times).password == u.password
    decreases |times|
  {
    if times != [] {
      var v := u.AfterFailedAttempt(times[0]);
      FailedAttemptsAccumulate(v, times[1..]);
      if |times| > 1 {
        assert times[1..][|times[1..]| - 1] == times[|times| - 1];
      }
    }
  }

  /** A fresh counter and five failures: the account is locked for exactly
    * the fifteen minutes after the fifth failure, and the first check after
    * that lifts the lock. */
  lemma FiveFailuresLockFifteenMinutes(u: UserRecord, times: seq<nat>, t: nat)
    requires u.failedLoginAttempts == 0 && |times| == MaxFailedAttempts
    ensures var v := FailedAttempts(u, times);
      && v.status == LOCKED
      && (t <= times[4] + LockSeconds ==> v.LockCheck(t).0)
      && (t > times[4] + LockSeconds ==> v.LockCheck(t) == (false, v.AfterReset()))
  {
    FailedAttemptsAccumulate(u, times);
  }

  /** `recordLogin` clears the counter and any lock and stamps the login;
    * credentials and roles are untouched. */
  lemma LoginResets(u: UserRecord, ip: string, now: nat)
    ensures var v := u.AfterLogin(ip, now);
      && v.failedLoginAttempts == 0 && v.status == ACTIVE && v.lockedUntil.None?
      && v.lastLoginAt == Some(now) && v.lastLoginIp == Some(ip)
      && v.password == u.password && v.roles == u.roles && v.username == u.username
      && !v.LockCheck(now).0
  {
  }

}
