// The session table: rows keyed by their generated id, with finders by
// user and by bound refresh token, a bulk deactivation and a count of a
// user's active sessions.

module UserSessionRepository {
  import opened Common
  import opened UserSessions

  type Rows = map<nat, SessionRecord>

  const NonUniqueResult: string := "query did not return a unique result"
  const StaleEntity: string := "row was deleted by another transaction"

  /** `findByUserIdAndIsActiveTrue`, as the ids it returns. */
  function ActiveSessionsOf(rows: Rows, userId: nat): set<nat>
  {
    set k | k in rows && rows[k].userId == userId && rows[k].isActive
  }

  /** The ids of all sessions of a user, active or not. */
  function SessionsOf(rows: Rows, userId: nat): set<nat>
  {
    set k | k in rows && rows[k].userId == userId
  }

  /** `countByUserIdAndIsActiveTrue`. */
  function CountByUserIdAndIsActiveTrue(rows: Rows, userId: nat): nat
  {
    |ActiveSessionsOf(rows, userId)|
  }

  /** Two different sessions are bound to the same refresh token. */
  predicate SharedBinding(rows: Rows, refreshTokenId: nat)
  {
    exists a, b :: a in rows && b in rows && a != b
      && rows[a].refreshTokenId == refreshTokenId && rows[b].refreshTokenId == refreshTokenId
  }

  /** `findByRefreshTokenId`: the column is not unique, so a second match
    * makes the single-result query fail. */
  function FindByRefreshTokenId(rows: Rows, refreshTokenId: nat): (r: Result<Option<nat>, string>)
    ensures r.Err? <==> SharedBinding(rows, refreshTokenId)
    ensures r.Ok? && r.value.Some? ==>
      r.value.value in rows && rows[r.value.value].refreshTokenId == refreshTokenId
    ensures r.Ok? && r.value.None? <==>
      forall k :: k in rows ==> rows[k].refreshTokenId != refreshTokenId
  {
    if SharedBinding(rows, refreshTokenId) then Err(NonUniqueResult)
    else if exists k :: k in rows && rows[k].refreshTokenId == refreshTokenId then
      var k :| k in rows && rows[k].refreshTokenId == refreshTokenId; Ok(Some(k))
    else Ok(None)
  }

  /** The table after the bulk UPDATE `deactivateAllByUserId`; the UPDATE
    * reports |SessionsOf(rows, userId)| rows, active or not. */
  function DeactivateAllByUserId(rows: Rows, userId: nat): Rows
  {
    map k | k in rows :: if rows[k].userId == userId then rows[k].Deactivated() else rows[k]
  }

  class UserSessionTable {
    var rows: Rows
    var nextId: nat

    predicate Valid()
      reads this
    {
      forall k :: k in rows ==> k < nextId
    }

    constructor ()
      ensures Valid() && rows == map[] && nextId == 0
    {
      rows := map[];
      nextId := 0;
    }

    /** `save`: a new session is inserted under the next id after its
      * `@PrePersist` callback; a loaded one overwrites its row. */
    method Save(e: UserSession, now: nat) returns (r: Result<nat, string>)
      requires Valid()
      modifies this, e
      ensures Valid()
      ensures old(e.id).None? ==>
        r == Ok(old(nextId)) && e.id == Some(old(nextId))
        && e.Record() == old(e.Record()).(createdAt := Some(now), lastAccessAt := Some(now))
        && rows == old(rows)[old(nextId) := e.Record()] && nextId == old(nextId) + 1
      ensures old(e.id).Some? ==>
        e.id == old(e.id) && e.Record() == old(e.Record()) && nextId == old(nextId)
        && if old(e.id).value !in old(rows) then r == Err(StaleEntity) && rows == old(rows)
           else r == Ok(old(e.id).value) && rows == old(rows)[old(e.id).value := e.Record()]
    {
      if e.id.None? {
        e.OnCreate(now);
        e.id := Some(nextId);
        rows := rows[nextId := e.Record()];
        r := Ok(nextId);
        nextId := nextId + 1;
      } else {
        var id := e.id.value;
        if id !in rows {
          return Err(StaleEntity);
        }
        rows := rows[id := e.Record()];
        r := Ok(id);
      }
    }

    /** `deactivateAllByUserId`: the bulk UPDATE, answering the number of
      * rows it matched. */
    method DeactivateAllByUserIdUpdate(userId: nat) returns (count: nat)
      requires Valid()
      modifies this
      ensures Valid()
      ensures rows == DeactivateAllByUserId(old(rows), userId) && nextId == old(nextId)
      ensures count == |SessionsOf(old(rows), userId)|
    {
      count := |SessionsOf(rows, userId)|;
      rows := DeactivateAllByUserId(rows, userId);
    }
  }

  // ---------------------------------------------------------------------
  // Properties

  /** After the bulk deactivation the user has no active session left, and
    * every other user's sessions are exactly as they were. */
  lemma DeactivateAllEffect(rows: Rows, userId: nat, other: nat)
    requires other != userId
    ensures var r := DeactivateAllByUserId(rows, userId);
      && r.Keys == rows.Keys
      && CountByUserIdAndIsActiveTrue(r, userId) == 0
      && ActiveSessionsOf(r, userId) == {}
      && (forall k :: k in rows && rows[k].userId != userId ==> r[k] == rows[k])
      && ActiveSessionsOf(r, other) == ActiveSessionsOf(rows, other)
      && (forall k :: k in rows && rows[k].userId == userId ==>
            r[k] == rows[k].Deactivated())
  {
    var r := DeactivateAllByUserId(rows, userId);
    assert ActiveSessionsOf(r, userId) == {};
  }

  /** A session bound to a token that no other session shares is what the
    * lookup by token id finds. */
  lemma FindByRefreshTokenIdFindsTheBound(rows: Rows, k: nat)
    requires k in rows
    requires forall j :: j in rows && j != k ==> rows[j].refreshTokenId != rows[k].refreshTokenId
    ensures FindByRefreshTokenId(rows, rows[k].refreshTokenId) == Ok(Some(k))
  {
  }
}
