// Issuing, rotating, revoking and blacklisting tokens. Refresh tokens live
// in the refresh-token table; an access token is represented by its claims
// (signing and parsing are not modelled, so a parse is an outcome handed
// in). Token values and jtis are random and handed in, assumed unused.

module TokenServices {
  import opened Common
  import opened ServiceErrors
  import opened RefreshTokens
  import opened RefreshTokenRepository
  import TokenBlacklistRepository
  import opened UserMapper
  import Users

  /** The configured defaults, in milliseconds: fifteen minutes (900
    * seconds) for an access token and seven days (604800 seconds) for a
    * refresh token. */
  const DefaultAccessTokenExpiration: nat := 900000
  const DefaultRefreshTokenExpiration: nat := 604800000

  const InvalidRefreshToken: string := "Invalid refresh token"
  const ExpiredOrRevoked: string := "Refresh token is expired or revoked"
  const TokenRevoked: string := "Token has been revoked"
  const RotationReason: string := "Token rotation"
  const AccessType: string := "ACCESS"

  /** The claims of an access token. `subject` is the user id (its decimal
    * rendering is not modelled); times are seconds. */
  datatype Claims = Claims(
    jti: Option<string>,
    subject: nat,
    username: string,
    email: Option<string>,
    roles: set<string>,
    permissions: set<string>,
    tokenType: string,
    issuedAt: nat,
    expiration: nat)

  /** What parsing and verifying a compact token yields: its claims, or the
    * failure the parser throws (expired, bad signature, malformed). */
  datatype Parse = Parsed(claims: Claims) | Rejected(failure: Failure)

  /** `generateAccessToken`: fresh jti, the user's role names, the union of
    * their permission names, type ACCESS, and an expiry the configured
    * number of milliseconds after issue. */
  function AccessClaims(userId: nat, u: Users.UserRecord, roles: set<RoleView>, jti: string,
                        now: nat, accessTokenExpiration: nat): (c: Claims)
    ensures c.jti == Some(jti) && c.subject == userId && c.tokenType == AccessType
    ensures c.username == u.username && c.email == u.email
    ensures forall n :: n in c.roles <==> exists x :: x in roles && x.name == n
    ensures forall n :: n in c.permissions <==> exists x :: x in roles && n in x.permissionNames
    ensures c.expiration - c.issuedAt == accessTokenExpiration / 1000
  {
    Claims(Some(jti), userId, u.username, u.email,
           MapRoles(Some(roles)).value, MapPermissions(Some(roles)).value, AccessType,
           now, now + accessTokenExpiration / 1000)
  }

  /** `validateRefreshToken`: the id of the stored token with this value,
    * provided it is neither expired nor revoked. */
  function ValidateRefreshToken(rows: Rows, value: string, now: nat): (r: Result<nat, Failure>)
    requires TokensUnique(rows)
    ensures r.Ok? <==> exists k :: k in rows && rows[k].token == value && rows[k].Valid(now)
    ensures r.Ok? ==> r.value in rows && rows[r.value].token == value && rows[r.value].Valid(now)
    ensures r == Err(IllegalArgument(InvalidRefreshToken)) <==> forall k :: k in rows ==> rows[k].token != value
    ensures r.Err? ==> r.error in {IllegalArgument(InvalidRefreshToken), IllegalArgument(ExpiredOrRevoked)}
  {
    match FindByToken(rows, value)
    case None => Err(IllegalArgument(InvalidRefreshToken))
    case Some(k) => if rows[k].Valid(now) then Ok(k) else Err(IllegalArgument(ExpiredOrRevoked))
  }

  /** The token a rotation issues: same user and device as the old one, the
    * caller's address and agent, a new value and a new expiry. */
  function Successor(prev: TokenRecord, value: string, ipAddress: string, userAgent: string, expiresAt: nat): TokenRecord
  {
    Issued(value, prev.userId, prev.deviceInfo, ipAddress, userAgent, expiresAt)
  }

  /** The table after a rotation: the old row revoked, the new row added. */
  function Rotation(rows: Rows, oldId: nat, newId: nat, newRow: TokenRecord, now: nat): Rows
    requires oldId in rows
  {
    rows[oldId := rows[oldId].WithRevocation(RotationReason, now)][newId := newRow]
  }

  /** `validateAccessToken`: the parsed claims, unless parsing failed or
    * the token's jti is on the blacklist. */
  function ValidateAccessToken(parse: Parse, blacklist: TokenBlacklistRepository.Rows): (r: Result<Claims, Failure>)
    ensures r.Ok? <==> parse.Parsed? && !(parse.claims.jti.Some?
                                            && TokenBlacklistRepository.ExistsByJti(blacklist, parse.claims.jti.value))
    ensures r.Ok? ==> r.value == parse.claims
    ensures parse.Rejected? ==> r == Err(parse.failure)
    ensures parse.Parsed? && r.Err? ==> r.error == Jwt(TokenRevoked)
  {
    match parse
    case Rejected(f) => Err(f)
    case Parsed(c) =>
      if c.jti.Some? && TokenBlacklistRepository.ExistsByJti(blacklist, c.jti.value) then Err(Jwt(TokenRevoked))
      else Ok(c)
  }

  /** `getJtiFromToken`: the parse's jti, or its failure. No blacklist check. */
  function JtiOf(parse: Parse): (r: Result<Option<string>, Failure>)
    ensures r.Ok? <==> parse.Parsed?
    ensures r.Ok? ==> r.value == parse.claims.jti
  {
    if parse.Parsed? then Ok(parse.claims.jti) else Err(parse.failure)
  }

  /** `getExpirationFromToken`: the parse's expiry, or its failure. */
  function ExpirationOf(parse: Parse): (r: Result<nat, Failure>)
    ensures r.Ok? <==> parse.Parsed?
    ensures r.Ok? ==> r.value == parse.claims.expiration
  {
    if parse.Parsed? then Ok(parse.claims.expiration) else Err(parse.failure)
  }

  class TokenService {
    const refreshTokens: RefreshTokenTable
    const blacklist: TokenBlacklistRepository.TokenBlacklistTable
    /** Configured lifetimes, in milliseconds. */
    const accessTokenExpiration: nat
    const refreshTokenExpiration: nat

    predicate Valid()
      reads this, refreshTokens, blacklist
    {
      refreshTokens.Valid() && blacklist.Valid()
    }

    constructor (refreshTokens: RefreshTokenTable, blacklist: TokenBlacklistRepository.TokenBlacklistTable,
                 accessTokenExpiration: nat, refreshTokenExpiration: nat)
      ensures this.refreshTokens == refreshTokens && this.blacklist == blacklist
      ensures this.accessTokenExpiration == accessTokenExpiration
      ensures this.refreshTokenExpiration == refreshTokenExpiration
    {
      this.refreshTokens := refreshTokens;
      this.blacklist := blacklist;
      this.accessTokenExpiration := accessTokenExpiration;
      this.refreshTokenExpiration := refreshTokenExpiration;
    }

    /** `generateRefreshToken`: stores an unrevoked token for the user,
      * expiring the configured number of seconds from now. */
    method GenerateRefreshToken(userId: nat, deviceInfo: string, ipAddress: string, userAgent: string,
                                value: string, now: nat) returns (t: RefreshToken)
      requires Valid()
      requires !TokenTaken(refreshTokens.rows, value, None)
      modifies refreshTokens
      ensures Valid() && fresh(t)
      ensures t.id == Some(old(refreshTokens.nextId)) && refreshTokens.nextId == old(refreshTokens.nextId) + 1
      ensures t.Record() == Issued(value, userId, deviceInfo, ipAddress, userAgent,
                                   now + refreshTokenExpiration / 1000).(createdAt := Some(now))
      ensures refreshTokens.rows == old(refreshTokens.rows)[t.id.value := t.Record()]
    {
      t := new RefreshToken(value, userId, deviceInfo, ipAddress, userAgent, now + refreshTokenExpiration / 1000);
      var r := refreshTokens.Save(t, now);
    }

    /** `rotateRefreshToken`: the old value must validate; it is then
      * revoked with reason "Token rotation" and its successor stored. */
    method RotateRefreshToken(oldValue: string, ipAddress: string, userAgent: string, newValue: string, now: nat)
      returns (r: Result<RefreshToken, Failure>)
      requires Valid()
      requires !TokenTaken(refreshTokens.rows, newValue, None)
      modifies refreshTokens
      ensures Valid()
      ensures ValidateRefreshToken(old(refreshTokens.rows), oldValue, now).Err? ==>
        r == Err(ValidateRefreshToken(old(refreshTokens.rows), oldValue, now).error)
        && refreshTokens.rows == old(refreshTokens.rows) && refreshTokens.nextId == old(refreshTokens.nextId)
      ensures ValidateRefreshToken(old(refreshTokens.rows), oldValue, now).Ok? ==>
        var oldId := ValidateRefreshToken(old(refreshTokens.rows), oldValue, now).value;
        var newRow := Successor(old(refreshTokens.rows)[oldId], newValue, ipAddress, userAgent,
                                now + refreshTokenExpiration / 1000).(createdAt := Some(now));
        && r.Ok? && fresh(r.value)
        && r.value.id == Some(old(refreshTokens.nextId)) && r.value.Record() == newRow
        && refreshTokens.rows == Rotation(old(refreshTokens.rows), oldId, old(refreshTokens.nextId), newRow, now)
        && refreshTokens.nextId == old(refreshTokens.nextId) + 1
    {
      var v := ValidateRefreshToken(refreshTokens.rows, oldValue, now);
      if v.Err? {
        return Err(v.error);
      }
      var oldId := v.value;
      var prev := new RefreshToken.Load(oldId, refreshTokens.rows[oldId]);
      prev.Revoke(RotationReason, now);
      var s := refreshTokens.Save(prev, now);
      assert !TokenTaken(old(refreshTokens.rows), prev.token, Some(oldId));
      var next := new RefreshToken(newValue, prev.userId, prev.deviceInfo, ipAddress, userAgent,
                                   now + refreshTokenExpiration / 1000);
      assert !TokenTaken(refreshTokens.rows, newValue, None) by {
        forall k | k in refreshTokens.rows ensures refreshTokens.rows[k].token != newValue {
          if k != oldId {
            assert refreshTokens.rows[k] == old(refreshTokens.rows)[k];
          }
        }
      }
      var n := refreshTokens.Save(next, now);
      return Ok(next);
    }

    /** `revokeRefreshToken`: revokes the token with this value whatever its
      * state; only an unknown value is an error. */
    method RevokeRefreshToken(value: string, reason: string, now: nat) returns (r: Result<(), Failure>)
      requires Valid()
      modifies refreshTokens
      ensures Valid() && refreshTokens.nextId == old(refreshTokens.nextId)
      ensures FindByToken(old(refreshTokens.rows), value).None? ==>
        r == Err(IllegalArgument(InvalidRefreshToken)) && refreshTokens.rows == old(refreshTokens.rows)
      ensures FindByToken(old(refreshTokens.rows), value).Some? ==>
        var k := FindByToken(old(refreshTokens.rows), value).value;
        r == Ok(()) && refreshTokens.rows == old(refreshTokens.rows)[k := old(refreshTokens.rows)[k].WithRevocation(reason, now)]
    {
      var found := FindByToken(refreshTokens.rows, value);
      if found.None? {
        return Err(IllegalArgument(InvalidRefreshToken));
      }
      var t := new RefreshToken.Load(found.value, refreshTokens.rows[found.value]);
      t.Revoke(reason, now);
      assert !TokenTaken(refreshTokens.rows, t.token, t.id);
      var s := refreshTokens.Save(t, now);
      return Ok(());
    }

    /** `revokeAllUserTokens`: the bulk revocation, answering its count. */
    method RevokeAllUserTokens(userId: nat, reason: string, now: nat) returns (count: nat)
      requires Valid()
      modifies refreshTokens
      ensures Valid() && refreshTokens.nextId == old(refreshTokens.nextId)
      ensures refreshTokens.rows == RevokeAllByUserId(old(refreshTokens.rows), userId, now, reason)
      ensures count == CountByUserIdAndRevokedAtIsNull(old(refreshTokens.rows), userId)
    {
      count := refreshTokens.RevokeAllByUserIdUpdate(userId, now, reason);
    }

    /** `blacklistAccessToken`: inserts an ACCESS entry; a jti listed
      * already violates the unique constraint. */
    method BlacklistAccessToken(jti: string, userId: nat, expiresAt: nat, reason: string, now: nat)
      returns (r: Result<(), Failure>)
      requires Valid()
      modifies blacklist
      ensures Valid()
      ensures TokenBlacklistRepository.ExistsByJti(old(blacklist.rows), jti) ==>
        r == Err(DataAccess(TokenBlacklistRepository.DuplicateJti))
        && blacklist.rows == old(blacklist.rows) && blacklist.nextId == old(blacklist.nextId)
      ensures !TokenBlacklistRepository.ExistsByJti(old(blacklist.rows), jti) ==>
        r == Ok(()) && blacklist.nextId == old(blacklist.nextId) + 1
        && blacklist.rows == old(blacklist.rows)[old(blacklist.nextId) :=
             TokenBlacklistRepository.BlacklistRecord(jti, userId, AccessType, expiresAt, reason, now)]
    {
      var ins := blacklist.Insert(jti, userId, AccessType, expiresAt, reason, now);
      if ins.Err? {
        return Err(DataAccess(ins.error));
      }
      return Ok(());
    }

    /** `isTokenBlacklisted`. */
    predicate IsTokenBlacklisted(jti: string)
      reads this, blacklist
    {
      TokenBlacklistRepository.ExistsByJti(blacklist.rows, jti)
    }

    /** `getActiveSessionsCount`: the user's unrevoked tokens, expired or
      * not; zero exactly when every one of the user's tokens is revoked. */
    function GetActiveSessionsCount(userId: nat): (r: nat)
      reads this, refreshTokens
      ensures r == 0 <==> forall k :: k in refreshTokens.rows && refreshTokens.rows[k].userId == userId
                                      ==> refreshTokens.rows[k].Revoked()
    {
      CountZeroIffAllRevoked(refreshTokens.rows, userId);
      CountByUserIdAndRevokedAtIsNull(refreshTokens.rows, userId)
    }

    /** `cleanupExpiredTokens`: both bulk deletes at the same instant. */
    method CleanupExpiredTokens(now: nat) returns (deletedRefreshTokens: nat, deletedBlacklistTokens: nat)
      requires Valid()
      modifies refreshTokens, blacklist
      ensures Valid()
      ensures refreshTokens.rows == DeleteExpiredTokens(old(refreshTokens.rows), now)
      ensures blacklist.rows == TokenBlacklistRepository.DeleteExpiredTokens(old(blacklist.rows), now)
      ensures refreshTokens.nextId == old(refreshTokens.nextId) && blacklist.nextId == old(blacklist.nextId)
      ensures deletedRefreshTokens == |ExpiredAt(old(refreshTokens.rows), now)|
      ensures deletedBlacklistTokens == |TokenBlacklistRepository.ExpiredAt(old(blacklist.rows), now)|
    {
      deletedRefreshTokens := refreshTokens.DeleteExpiredTokensUpdate(now);
      deletedBlacklistTokens := blacklist.DeleteExpiredTokensUpdate(now);
    }
  }

  // ---------------------------------------------------------------------
  // Properties

  /** Replay protection. After a rotation the old value is refused at every
    * later instant, as expired or revoked, by validation and so by a second
    * rotation; the successor validates exactly until its expiry. */
  lemma RotationBlocksReplay(rows: Rows, oldValue: string, newId: nat, newRow: TokenRecord, now: nat, t: nat)
    requires TokensUnique(rows)
    requires ValidateRefreshToken(rows, oldValue, now).Ok?
    requires newId !in rows && newRow.revokedAt.None?
    requires !TokenTaken(rows, newRow.token, None)
    ensures var r := Rotation(rows, ValidateRefreshToken(rows, oldValue, now).value, newId, newRow, now);
      && TokensUnique(r)
      && ValidateRefreshToken(r, oldValue, t) == Err(IllegalArgument(ExpiredOrRevoked))
      && (ValidateRefreshToken(r, newRow.token, t).Ok? <==> t <= newRow.expiresAt)
      && (ValidateRefreshToken(r, newRow.token, t).Ok? ==> ValidateRefreshToken(r, newRow.token, t).value == newId)
  {
    var oldId := ValidateRefreshToken(rows, oldValue, now).value;
    var r := Rotation(rows, oldId, newId, newRow, now);
    assert r.Keys == rows.Keys + {newId};
    forall a, b | a in r && b in r && r[a].token == r[b].token ensures a == b {
      if a != newId && b != newId {
        assert r[a].token == rows[a].token && r[b].token == rows[b].token;
      }
    }
    assert r[oldId].token == oldValue && !r[oldId].Valid(t);
    FindByTokenIsTheHolder(r, oldValue, oldId);
    FindByTokenIsTheHolder(r, newRow.token, newId);
  }

  /** Once a jti is listed, every token carrying it is refused as revoked,
    * and tokens without a jti are never checked against the list. */
  lemma BlacklistedTokenRejected(rows: TokenBlacklistRepository.Rows, k: nat,
                                 e: TokenBlacklistRepository.BlacklistRecord, c: Claims)
    requires k !in rows
    requires c.jti == Some(e.jti)
    ensures ValidateAccessToken(Parsed(c), rows[k := e]) == Err(Jwt(TokenRevoked))
    ensures ValidateAccessToken(Parsed(c.(jti := None)), rows) == Ok(c.(jti := None))
  {
    assert k in rows[k := e] && rows[k := e][k].jti == e.jti;
  }

}
