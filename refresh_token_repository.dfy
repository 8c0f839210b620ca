// The refresh-token table: rows keyed by their generated id, with a unique
// token column, two derived finders, a bulk revocation, a bulk delete of
// expired rows and a count of unrevoked rows.

module RefreshTokenRepository {
  import opened Common
  import opened RefreshTokens

  type Rows = map<nat, TokenRecord>

  const DuplicateToken: string := "duplicate key value violates unique constraint on refresh_tokens.token"
  const StaleEntity: string := "row was deleted by another transaction"

  /** The unique constraint on the token column. */
  predicate TokensUnique(rows: Rows)
  {
    forall a, b :: a in rows && b in rows && rows[a].token == rows[b].token ==> a == b
  }

  /** Some row other than `except` already holds token value `t`. */
  predicate TokenTaken(rows: Rows, t: string, except: Option<nat>)
  {
    exists k :: k in rows && rows[k].token == t && Some(k) != except
  }

  /** `findByToken`: the id of the one row holding `t`, if any. */
  function FindByToken(rows: Rows, t: string): (r: Option<nat>)
    requires TokensUnique(rows)
    ensures r.Some? ==> r.value in rows && rows[r.value].token == t
    ensures r.None? <==> forall k :: k in rows ==> rows[k].token != t
  {
    if exists k :: k in rows && rows[k].token == t then
      var k :| k in rows && rows[k].token == t; Some(k)
    else None
  }

  /** `findByUserIdAndRevokedAtIsNull`, as the ids it returns. */
  function UnrevokedOf(rows: Rows, userId: nat): set<nat>
  {
    set k | k in rows && rows[k].userId == userId && rows[k].revokedAt.None?
  }

  /** `findByUserId`, as the ids it returns. */
  function TokensOf(rows: Rows, userId: nat): set<nat>
  {
    set k | k in rows && rows[k].userId == userId
  }

  /** `countByUserIdAndRevokedAtIsNull`: expiry plays no part. */
  function CountByUserIdAndRevokedAtIsNull(rows: Rows, userId: nat): nat
  {
    |UnrevokedOf(rows, userId)|
  }

  /** The table after the bulk UPDATE of `revokeAllByUserId(userId, at, reason)`;
    * the UPDATE reports |UnrevokedOf(rows, userId)| changed rows. */
  function RevokeAllByUserId(rows: Rows, userId: nat, at: nat, reason: string): Rows
  {
    map k | k in rows :: if k in UnrevokedOf(rows, userId) then rows[k].WithRevocation(reason, at) else rows[k]
  }

  /** The table after the bulk DELETE of `deleteExpiredTokens(now)`. */
  function DeleteExpiredTokens(rows: Rows, now: nat): Rows
  {
    map k | k in rows && !(rows[k].expiresAt < now) :: rows[k]
  }

  /** The ids the bulk DELETE removes. */
  function ExpiredAt(rows: Rows, now: nat): set<nat>
  {
    set k | k in rows && rows[k].expiresAt < now
  }

  class RefreshTokenTable {
    var rows: Rows
    var nextId: nat

    /** The unique constraint holds, and every id was handed out already. */
    predicate Valid()
      reads this
    {
      TokensUnique(rows) && forall k :: k in rows ==> k < nextId
    }

    constructor ()
      ensures Valid() && rows == map[] && nextId == 0
    {
      rows := map[];
      nextId := 0;
    }

    /** `save`. A new entity (no id) is inserted under the next identity
      * value after its `@PrePersist` callback; an entity with an id
      * overwrites its row. Either way the token column must stay unique. */
    method Save(e: RefreshToken, now: nat) returns (r: Result<nat, string>)
      requires Valid()
      modifies this, e
      ensures Valid()
      ensures old(e.id).None? ==>
        if TokenTaken(old(rows), old(e.token), None) then
          r == Err(DuplicateToken) && rows == old(rows) && nextId == old(nextId)
          && e.id == old(e.id) && e.Record() == old(e.Record())
        else
          r == Ok(old(nextId)) && e.id == Some(old(nextId))
          && e.Record() == old(e.Record()).(createdAt := Some(now))
          && rows == old(rows)[old(nextId) := e.Record()] && nextId == old(nextId) + 1
      ensures old(e.id).Some? ==>
        e.id == old(e.id) && e.Record() == old(e.Record()) && nextId == old(nextId)
        && if old(e.id).value !in old(rows) then r == Err(StaleEntity) && rows == old(rows)
           else if TokenTaken(old(rows), old(e.token), old(e.id)) then r == Err(DuplicateToken) && rows == old(rows)
           else r == Ok(old(e.id).value) && rows == old(rows)[old(e.id).value := e.Record()]
    {
      if e.id.None? {
        if TokenTaken(rows, e.token, None) {
          return Err(DuplicateToken);
        }
        e.OnCreate(now);
        e.id := Some(nextId);
        rows := rows[nextId := e.Record()];
        r := Ok(nextId);
        nextId := nextId + 1;
      } else {
        var id := e.id.value;
        if id !in rows {
          return Err(StaleEntity);
        }
        if TokenTaken(rows, e.token, e.id) {
          return Err(DuplicateToken);
        }
        rows := rows[id := e.Record()];
        r := Ok(id);
      }
    }

    /** `revokeAllByUserId`: the bulk UPDATE, answering the number of rows
      * it changed. */
    method RevokeAllByUserIdUpdate(userId: nat, at: nat, reason: string) returns (count: nat)
      requires Valid()
      modifies this
      ensures Valid()
      ensures rows == RevokeAllByUserId(old(rows), userId, at, reason) && nextId == old(nextId)
      ensures count == |UnrevokedOf(old(rows), userId)|
    {
      count := |UnrevokedOf(rows, userId)|;
      rows := RevokeAllByUserId(rows, userId, at, reason);
      assert forall k :: k in rows ==> rows[k].token == old(rows)[k].token;
    }

    /** `deleteExpiredTokens`: the bulk DELETE, answering the number of rows
      * it removed. */
    method DeleteExpiredTokensUpdate(now: nat) returns (count: nat)
      requires Valid()
      modifies this
      ensures Valid()
      ensures rows == DeleteExpiredTokens(old(rows), now) && nextId == old(nextId)
      ensures count == |ExpiredAt(old(rows), now)|
    {
      count := |ExpiredAt(rows, now)|;
      rows := DeleteExpiredTokens(rows, now);
    }
  }

  // ---------------------------------------------------------------------
  // Properties

  /** With the unique constraint, a row holding `t` is the one found. */
  lemma FindByTokenIsTheHolder(rows: Rows, t: string, k: nat)
    requires TokensUnique(rows)
    requires k in rows && rows[k].token == t
    ensures FindByToken(rows, t) == Some(k)
  {
  }

  /** The bulk revocation touches exactly the user's unrevoked rows: they
    * get the given time and reason, while rows already revoked keep their
    * original time and reason and other users' rows stay as they were.
    * Afterwards the user has no unrevoked and no valid token. */
  lemma RevokeAllEffect(rows: Rows, userId: nat, at: nat, reason: string, now: nat)
    ensures var r := RevokeAllByUserId(rows, userId, at, reason);
      && r.Keys == rows.Keys
      && (forall k :: k in rows && rows[k].userId == userId && rows[k].revokedAt.None? ==>
            r[k] == rows[k].WithRevocation(reason, at))
      && (forall k :: k in rows && (rows[k].userId != userId || rows[k].revokedAt.Some?) ==>
            r[k] == rows[k])
      && CountByUserIdAndRevokedAtIsNull(r, userId) == 0
      && (forall k :: k in TokensOf(r, userId) ==> !r[k].Valid(now))
  {
    var r := RevokeAllByUserId(rows, userId, at, reason);
    assert UnrevokedOf(r, userId) == {};
  }

  /** Other users' unrevoked tokens, and so their counts, are untouched. */
  lemma RevokeAllLeavesOthers(rows: Rows, userId: nat, other: nat, at: nat, reason: string)
    requires other != userId
    ensures UnrevokedOf(RevokeAllByUserId(rows, userId, at, reason), other) == UnrevokedOf(rows, other)
    ensures CountByUserIdAndRevokedAtIsNull(RevokeAllByUserId(rows, userId, at, reason), other)
            == CountByUserIdAndRevokedAtIsNull(rows, other)
  {
  }

  /** A second bulk revocation changes nothing and reports zero rows. */
  lemma RevokeAllIdempotent(rows: Rows, userId: nat, at: nat, reason: string, at2: nat, reason2: string)
    ensures var r := RevokeAllByUserId(rows, userId, at, reason);
      RevokeAllByUserId(r, userId, at2, reason2) == r && |UnrevokedOf(r, userId)| == 0
  {
    var r := RevokeAllByUserId(rows, userId, at, reason);
    assert UnrevokedOf(r, userId) == {};
  }

  /** The bulk delete keeps exactly the rows with `expiresAt >= now`, revoked
    * or not, unchanged; the removed rows are the expired ones; and a
    * second delete at the same instant removes nothing. */
  lemma DeleteExpiredExact(rows: Rows, now: nat)
    ensures var r := DeleteExpiredTokens(rows, now);
      && (forall k :: k in r <==> k in rows && rows[k].expiresAt >= now)
      && (forall k :: k in r ==> r[k] == rows[k])
      && |rows| == |r| + |ExpiredAt(rows, now)|
      && DeleteExpiredTokens(r, now) == r
      && ExpiredAt(r, now) == {}
  {
    var r := DeleteExpiredTokens(rows, now);
    assert rows.Keys == r.Keys + ExpiredAt(rows, now);
    assert r.Keys !! ExpiredAt(rows, now);
  }

  /** The count of unrevoked tokens includes expired ones: a token past its
    * expiry adds to it as long as it is not revoked, so the count is at
    * least the number of tokens still valid. */
  lemma CountIncludesExpired(rows: Rows, userId: nat, now: nat)
    ensures var valid := set k | k in rows && rows[k].userId == userId && rows[k].Valid(now);
      valid <= UnrevokedOf(rows, userId) && |valid| <= CountByUserIdAndRevokedAtIsNull(rows, userId)
    ensures forall k :: (k in rows && rows[k].userId == userId && rows[k].revokedAt.None? && rows[k].Expired(now))
                        ==> k in UnrevokedOf(rows, userId)
  {
    var valid := set k | k in rows && rows[k].userId == userId && rows[k].Valid(now);
    assert valid <= UnrevokedOf(rows, userId);
    SubsetCard(valid, UnrevokedOf(rows, userId));
  }

  /** No unrevoked token is counted exactly when all of the user's tokens
    * are revoked. */
  lemma CountZeroIffAllRevoked(rows: Rows, userId: nat)
    ensures CountByUserIdAndRevokedAtIsNull(rows, userId) == 0 <==>
      forall k :: k in rows && rows[k].userId == userId ==> rows[k].Revoked()
  {
    if CountByUserIdAndRevokedAtIsNull(rows, userId) == 0 {
      forall k | k in rows && rows[k].userId == userId ensures rows[k].Revoked() {
        assert !rows[k].Revoked() ==> k in UnrevokedOf(rows, userId);
      }
    } else {
      var k :| k in UnrevokedOf(rows, userId);
      assert !rows[k].Revoked();
    }
  }

  lemma SubsetCard(a: set<nat>, b: set<nat>)
    requires a <= b
    ensures |a| <= |b|
  {
    assert b == a + (b - a);
  }
}
