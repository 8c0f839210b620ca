// The access-token blacklist table of the identity service: one row per
// revoked access-token id (jti), unique on jti, purged once the token it
// names has expired.

module TokenBlacklistRepository {
  import opened Common

  /** The columns of a blacklist entry, without its generated id. */
  datatype BlacklistRecord = BlacklistRecord(
    jti: string,
    userId: nat,
    tokenType: string,
    expiresAt: nat,
    reason: string,
    createdAt: nat)

  type Rows = map<nat, BlacklistRecord>

  const DuplicateJti: string := "duplicate key value violates unique constraint on token_blacklist.jti"

  /** The unique constraint on the jti column. */
  predicate JtisUnique(rows: Rows)
  {
    forall a, b :: a in rows && b in rows && rows[a].jti == rows[b].jti ==> a == b
  }

  /** `existsByJti`. */
  predicate ExistsByJti(rows: Rows, jti: string)
  {
    exists k :: k in rows && rows[k].jti == jti
  }

  /** `findByJti`: the id of the one entry for `jti`, if any. */
  function FindByJti(rows: Rows, jti: string): (r: Option<nat>)
    requires JtisUnique(rows)
    ensures r.Some? <==> ExistsByJti(rows, jti)
    ensures r.Some? ==> r.value in rows && rows[r.value].jti == jti
  {
    if ExistsByJti(rows, jti) then
      var k :| k in rows && rows[k].jti == jti; Some(k)
    else None
  }

  /** The table after `deleteExpiredTokens(now)`. */
  function DeleteExpiredTokens(rows: Rows, now: nat): Rows
  {
    map k | k in rows && !(rows[k].expiresAt < now) :: rows[k]
  }

  /** The ids that delete removes. */
  function ExpiredAt(rows: Rows, now: nat): set<nat>
  {
    set k | k in rows && rows[k].expiresAt < now
  }

  class TokenBlacklistTable {
    var rows: Rows
    var nextId: nat

    predicate Valid()
      reads this
    {
      JtisUnique(rows) && forall k :: k in rows ==> k < nextId
    }

    constructor ()
      ensures Valid() && rows == map[] && nextId == 0
    {
      rows := map[];
      nextId := 0;
    }

    /** `save` of a new entry; `@PrePersist` stamps `createdAt`. A jti that
      * is already listed violates the unique constraint. */
    method Insert(jti: string, userId: nat, tokenType: string, expiresAt: nat, reason: string, now: nat)
      returns (r: Result<nat, string>)
      requires Valid()
      modifies this
      ensures Valid()
      ensures if ExistsByJti(old(rows), jti) then
          r == Err(DuplicateJti) && rows == old(rows) && nextId == old(nextId)
        else
          r == Ok(old(nextId)) && nextId == old(nextId) + 1
          && rows == old(rows)[old(nextId) := BlacklistRecord(jti, userId, tokenType, expiresAt, reason, now)]
    {
      if ExistsByJti(rows, jti) {
        return Err(DuplicateJti);
      }
      rows := rows[nextId := BlacklistRecord(jti, userId, tokenType, expiresAt, reason, now)];
      r := Ok(nextId);
      nextId := nextId + 1;
    }

    /** `deleteExpiredTokens`: the bulk DELETE, answering how many rows went. */
    method DeleteExpiredTokensUpdate(now: nat) returns (count: nat)
      requires Valid()
      modifies this
      ensures Valid()
      ensures rows == DeleteExpiredTokens(old(rows), now) && nextId == old(nextId)
      ensures count == |ExpiredAt(old(rows), now)|
    {
      count := |ExpiredAt(rows, now)|;
      rows := DeleteExpiredTokens(rows, now);
    }
  }

  // ---------------------------------------------------------------------
  // Properties

  /** Listing a jti makes `existsByJti` true for it and leaves every other
    * jti's answer as it was. */
  lemma InsertListsJti(rows: Rows, k: nat, e: BlacklistRecord, other: string)
    requires k !in rows
    requires other != e.jti
    ensures ExistsByJti(rows[k := e], e.jti)
    ensures ExistsByJti(rows[k := e], other) <==> ExistsByJti(rows, other)
  {
    var r := rows[k := e];
    assert k in r && r[k].jti == e.jti;
    if ExistsByJti(r, other) {
      var j :| j in r && r[j].jti == other;
      assert j != k && j in rows;
    }
    if ExistsByJti(rows, other) {
      var j :| j in rows && rows[j].jti == other;
      assert j in r && r[j].jti == other;
    }
  }

  /** The delete keeps exactly the entries with `expiresAt >= now`,
    * unchanged, reports how many it removed, and removes nothing when run
    * again at the same instant. */
  lemma DeleteExpiredExact(rows: Rows, now: nat)
    ensures var r := DeleteExpiredTokens(rows, now);
      && (forall k :: k in r <==> k in rows && rows[k].expiresAt >= now)
      && (forall k :: k in r ==> r[k] == rows[k])
      && |rows| == |r| + |ExpiredAt(rows, now)|
      && DeleteExpiredTokens(r, now) == r
      && ExpiredAt(r, now) == {}
  {
    var r := DeleteExpiredTokens(rows, now);
    assert rows.Keys == r.Keys + ExpiredAt(rows, now);
    assert r.Keys !! ExpiredAt(rows, now);
  }

  /** A jti still listed after the delete is one whose entry had not
    * expired. */
  lemma DeleteKeepsLiveJtis(rows: Rows, now: nat, jti: string)
    ensures ExistsByJti(DeleteExpiredTokens(rows, now), jti) <==>
      exists k :: k in rows && rows[k].jti == jti && rows[k].expiresAt >= now
  {
    var r := DeleteExpiredTokens(rows, now);
    if ExistsByJti(r, jti) {
      var k :| k in r && r[k].jti == jti;
      assert k in rows && rows[k].jti == jti && rows[k].expiresAt >= now;
    }
    if exists k :: k in rows && rows[k].jti == jti && rows[k].expiresAt >= now {
      var k :| k in rows && rows[k].jti == jti && rows[k].expiresAt >= now;
      assert k in r && r[k].jti == jti;
    }
  }
}
