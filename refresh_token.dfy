// A stored refresh token: an opaque value bound to a user and a device,
// valid until it expires or is revoked. Times are seconds on the server's
// clock; `now` stands for the clock reading at the call.

module RefreshTokens {
  import opened Common

  /** The persisted columns of a refresh token, without its id (the id is
    * the key of the token table). */
  datatype TokenRecord = TokenRecord(
    token: string,
    userId: nat,
    deviceInfo: string,
    ipAddress: string,
    userAgent: string,
    expiresAt: nat,
    revokedAt: Option<nat>,
    revokedReason: Option<string>,
    createdAt: Option<nat>)
  {
    /** `isExpired`: strictly after the expiry instant. */
    predicate Expired(now: nat) { now > expiresAt }

    /** `isRevoked`: a revocation time is recorded. */
    predicate Revoked() { revokedAt.Some? }

    /** `isValid`: neither expired nor revoked. */
    predicate Valid(now: nat) { !Expired(now) && !Revoked() }

    /** The columns after `revoke(reason)` at `now`. */
    function WithRevocation(reason: string, now: nat): TokenRecord
    {
      this.(revokedAt := Some(now), revokedReason := Some(reason))
    }
  }

  /** The columns of a token made by the six-argument constructor. */
  function Issued(token: string, userId: nat, deviceInfo: string, ipAddress: string,
                  userAgent: string, expiresAt: nat): TokenRecord
  {
    TokenRecord(token, userId, deviceInfo, ipAddress, userAgent, expiresAt, None, None, None)
  }

  /** The entity: its id is absent until the token table assigns one. */
  class RefreshToken {
    var id: Option<nat>
    var token: string
    var userId: nat
    var deviceInfo: string
    var ipAddress: string
    var userAgent: string
    var expiresAt: nat
    var revokedAt: Option<nat>
    var revokedReason: Option<string>
    var createdAt: Option<nat>

    function Record(): TokenRecord
      reads this
    {
      TokenRecord(token, userId, deviceInfo, ipAddress, userAgent, expiresAt,
                  revokedAt, revokedReason, createdAt)
    }

    constructor (token: string, userId: nat, deviceInfo: string, ipAddress: string,
                 userAgent: string, expiresAt: nat)
      ensures id.None?
      ensures Record() == Issued(token, userId, deviceInfo, ipAddress, userAgent, expiresAt)
    {
      this.id := None;
      this.token := token;
      this.userId := userId;
      this.deviceInfo := deviceInfo;
      this.ipAddress := ipAddress;
      this.userAgent := userAgent;
      this.expiresAt := expiresAt;
      this.revokedAt := None;
      this.revokedReason := None;
      this.createdAt := None;
    }

    /** The entity a finder hands out for the row stored under `id`. */
    constructor Load(id: nat, r: TokenRecord)
      ensures this.id == Some(id) && Record() == r
    {
      this.id := Some(id);
      this.token := r.token;
      this.userId := r.userId;
      this.deviceInfo := r.deviceInfo;
      this.ipAddress := r.ipAddress;
      this.userAgent := r.userAgent;
      this.expiresAt := r.expiresAt;
      this.revokedAt := r.revokedAt;
      this.revokedReason := r.revokedReason;
      this.createdAt := r.createdAt;
    }

    /** `@PrePersist onCreate`: stamps the creation time. */
    method OnCreate(now: nat)
      modifies this
      ensures id == old(id)
      ensures Record() == old(Record()).(createdAt := Some(now))
    {
      createdAt := Some(now);
    }

    predicate IsExpired(now: nat) reads this { Record().Expired(now) }
    predicate IsRevoked() reads this { Record().Revoked() }
    predicate IsValid(now: nat) reads this { Record().Valid(now) }

    /** `revoke(reason)`: no guard, so an earlier revocation is overwritten. */
    method Revoke(reason: string, now: nat)
      modifies this
      ensures id == old(id)
      ensures Record() == old(Record()).WithRevocation(reason, now)
      ensures forall t: nat :: !IsValid(t)
    {
      revokedAt := Some(now);
      revokedReason := Some(reason);
    }
  }

  // ---------------------------------------------------------------------
  // Properties

  /** Validity, unfolded: a token is good up to and including its expiry
    * instant, and only while no revocation is recorded. */
  lemma ValidityWindow(r: TokenRecord, now: nat)
    ensures r.Valid(now) <==> now <= r.expiresAt && r.revokedAt.None?
    ensures !r.Expired(r.expiresAt) && r.Expired(r.expiresAt + 1)
  {
  }

  /** A freshly issued token carries no revocation, so it is valid exactly
    * until its expiry instant. */
  lemma IssuedValidUntilExpiry(token: string, userId: nat, deviceInfo: string, ipAddress: string,
                               userAgent: string, expiresAt: nat, now: nat)
    ensures !Issued(token, userId, deviceInfo, ipAddress, userAgent, expiresAt).Revoked()
    ensures Issued(token, userId, deviceInfo, ipAddress, userAgent, expiresAt).Valid(now)
            <==> now <= expiresAt
  {
  }

  /** Revocation is permanent: a revoked token is invalid at every instant,
    * and nothing but the two revocation columns changes. */
  lemma RevokedNeverValid(r: TokenRecord, reason: string, at: nat)
    ensures forall now: nat :: !r.WithRevocation(reason, at).Valid(now)
    ensures r.WithRevocation(reason, at).token == r.token
    ensures r.WithRevocation(reason, at).userId == r.userId
    ensures r.WithRevocation(reason, at).expiresAt == r.expiresAt
    ensures r.WithRevocation(reason, at).revokedReason == Some(reason)
  {
  }

  /** A second revocation replaces the first one's time and reason: the
    * record of the original revocation is lost. */
  lemma RevokeOverwrites(r: TokenRecord, first: string, t1: nat, second: string, t2: nat)
    ensures r.WithRevocation(first, t1).WithRevocation(second, t2) == r.WithRevocation(second, t2)
    ensures t1 != t2 ==> r.WithRevocation(first, t1).WithRevocation(second, t2).revokedAt != Some(t1)
  {
  }
}
