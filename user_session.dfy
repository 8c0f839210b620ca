// A login session: which user, on which device, bound to which refresh
// token, and whether it is still active.

module UserSessions {
  import opened Common

  /** The persisted columns of a session, without its id. The device type,
    * browser, OS and location columns are never written by the modelled
    * code and are left out. */
  datatype SessionRecord = SessionRecord(
    userId: nat,
    refreshTokenId: nat,
    deviceInfo: string,
    ipAddress: string,
    userAgent: Option<string>,
    isActive: bool,
    lastAccessAt: Option<nat>,
    createdAt: Option<nat>)
  {
    /** The columns after `deactivate`. */
    function Deactivated(): SessionRecord { this.(isActive := false) }

    /** The columns after `updateLastAccess` at `now`. */
    function Touched(now: nat): SessionRecord { this.(lastAccessAt := Some(now)) }
  }

  /** The columns of a session made by the four-argument constructor. */
  function Opened(userId: nat, refreshTokenId: nat, deviceInfo: string, ipAddress: string): SessionRecord
  {
    SessionRecord(userId, refreshTokenId, deviceInfo, ipAddress, None, true, None, None)
  }

  class UserSession {
    var id: Option<nat>
    var userId: nat
    var refreshTokenId: nat
    var deviceInfo: string
    var ipAddress: string
    var userAgent: Option<string>
    var isActive: bool
    var lastAccessAt: Option<nat>
    var createdAt: Option<nat>

    function Record(): SessionRecord
      reads this
    {
      SessionRecord(userId, refreshTokenId, deviceInfo, ipAddress, userAgent, isActive, lastAccessAt, createdAt)
    }

    /** A new session starts active and copies its four arguments. */
    constructor (userId: nat, refreshTokenId: nat, deviceInfo: string, ipAddress: string)
      ensures id.None?
      ensures Record() == Opened(userId, refreshTokenId, deviceInfo, ipAddress)
    {
      this.id := None;
      this.userId := userId;
      this.refreshTokenId := refreshTokenId;
      this.deviceInfo := deviceInfo;
      this.ipAddress := ipAddress;
      this.userAgent := None;
      this.isActive := true;
      this.lastAccessAt := None;
      this.createdAt := None;
    }

    constructor Load(id: nat, r: SessionRecord)
      ensures this.id == Some(id) && Record() == r
    {
      this.id := Some(id);
      this.userId := r.userId;
      this.refreshTokenId := r.refreshTokenId;
      this.deviceInfo := r.deviceInfo;
      this.ipAddress := r.ipAddress;
      this.userAgent := r.userAgent;
      this.isActive := r.isActive;
      this.lastAccessAt := r.lastAccessAt;
      this.createdAt := r.createdAt;
    }

    method SetUserAgent(userAgent: string)
      modifies this
      ensures id == old(id)
      ensures Record() == old(Record()).(userAgent := Some(userAgent))
    {
      this.userAgent := Some(userAgent);
    }

    /** `@PrePersist onCreate`: creation and last access are the same instant. */
    method OnCreate(now: nat)
      modifies this
      ensures id == old(id)
      ensures Record() == old(Record()).(createdAt := Some(now), lastAccessAt := Some(now))
    {
      createdAt := Some(now);
      lastAccessAt := Some(now);
    }

    /** `updateLastAccess`: only the last-access time moves. */
    method UpdateLastAccess(now: nat)
      modifies this
      ensures id == old(id)
      ensures Record() == old(Record()).Touched(now)
    {
      lastAccessAt := Some(now);
    }

    /** `deactivate`. */
    method Deactivate()
      modifies this
      ensures id == old(id)
      ensures Record() == old(Record()).Deactivated()
    {
      isActive := false;
    }
  }

  // ---------------------------------------------------------------------
  // Properties

  /** A new session is active, bound to the given token, and carries no
    * timestamps until it is persisted. */
  lemma OpenedIsActive(userId: nat, refreshTokenId: nat, deviceInfo: string, ipAddress: string)
    ensures var s := Opened(userId, refreshTokenId, deviceInfo, ipAddress);
      s.isActive && s.userId == userId && s.refreshTokenId == refreshTokenId
      && s.deviceInfo == deviceInfo && s.ipAddress == ipAddress
      && s.createdAt.None? && s.lastAccessAt.None?
  {
  }

  /** Deactivating twice is deactivating once; touching a session keeps its
    * active flag and its token binding. */
  lemma DeactivateIdempotentTouchKeepsBinding(s: SessionRecord, now: nat)
    ensures s.Deactivated().Deactivated() == s.Deactivated() && !s.Deactivated().isActive
    ensures s.Deactivated().refreshTokenId == s.refreshTokenId && s.Deactivated().userId == s.userId
    ensures s.Touched(now).isActive == s.isActive
    ensures s.Touched(now).refreshTokenId == s.refreshTokenId
    ensures s.Touched(now).createdAt == s.createdAt
  {
  }
}
