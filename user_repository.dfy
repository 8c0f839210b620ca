// The user table. The repository interface itself is not part of this
// model; its derived queries are read from their names (`existsByUsername`,
// `findByUsername`, `findByUsernameOrEmail`, `findById`), and the unique
// username and email columns come from the entity.

module UserRepository {
  import opened Common
  import opened Users

  type Rows = map<nat, UserRecord>

  const DuplicateUser: string := "duplicate key value violates unique constraint on users"
  const NonUniqueResult: string := "query did not return a unique result"
  const StaleEntity: string := "row was deleted by another transaction"

  /** The unique constraints: usernames, and emails where present (SQL
    * lets any number of rows have no email). */
  predicate Unique(rows: Rows)
  {
    (forall a, b :: a in rows && b in rows && rows[a].username == rows[b].username ==> a == b)
    && (forall a, b :: a in rows && b in rows && rows[a].email.Some? && rows[a].email == rows[b].email ==> a == b)
  }

  /** Inserting or overwriting row `except` with `r` would break a unique
    * constraint. */
  predicate Clashes(rows: Rows, r: UserRecord, except: Option<nat>)
  {
    exists k :: k in rows && Some(k) != except
      && (rows[k].username == r.username || (r.email.Some? && rows[k].email == r.email))
  }

  predicate ExistsByUsername(rows: Rows, username: string)
  {
    exists k :: k in rows && rows[k].username == username
  }

  function FindByUsername(rows: Rows, username: string): (r: Option<nat>)
    requires Unique(rows)
    ensures r.Some? <==> ExistsByUsername(rows, username)
    ensures r.Some? ==> r.value in rows && rows[r.value].username == username
  {
    if ExistsByUsername(rows, username) then
      var k :| k in rows && rows[k].username == username; Some(k)
    else None
  }

  predicate MatchesLogin(u: UserRecord, name: string)
  {
    u.username == name || u.email == Some(name)
  }

  /** `findByUsernameOrEmail(name, name)`: one user may have `name` as
    * username and another as email, and then the single-result query
    * fails. */
  function FindByUsernameOrEmail(rows: Rows, name: string): (r: Result<Option<nat>, string>)
    ensures r.Err? <==> exists a, b :: a in rows && b in rows && a != b
                                       && MatchesLogin(rows[a], name) && MatchesLogin(rows[b], name)
    ensures r.Ok? && r.value.Some? ==> r.value.value in rows && MatchesLogin(rows[r.value.value], name)
    ensures r.Ok? && r.value.None? <==> forall k :: k in rows ==> !MatchesLogin(rows[k], name)
  {
    if exists a, b :: a in rows && b in rows && a != b && MatchesLogin(rows[a], name) && MatchesLogin(rows[b], name)
    then Err(NonUniqueResult)
    else if exists k :: k in rows && MatchesLogin(rows[k], name) then
      var k :| k in rows && MatchesLogin(rows[k], name); Ok(Some(k))
    else Ok(None)
  }

  class UserTable {
    var rows: Rows
    var nextId: nat

    predicate Valid()
      reads this
    {
      Unique(rows) && forall k :: k in rows ==> k < nextId
    }

    constructor ()
      ensures Valid() && rows == map[] && nextId == 0
    {
      rows := map[];
      nextId := 0;
    }

    /** `save`. A new user gets the next id and its `@PrePersist` creation
      * time; a loaded user whose columns changed gets its `@PreUpdate`
      * modification time. Unique usernames and emails are enforced. */
    method Save(e: User, now: nat) returns (r: Result<nat, string>)
      requires Valid()
      modifies this, e
      ensures Valid()
      ensures old(e.id).None? ==>
        if Clashes(old(rows), old(e.Record()), None) then
          r == Err(DuplicateUser) && rows == old(rows) && nextId == old(nextId)
          && e.id == old(e.id) && e.Record() == old(e.Record())
        else
          r == Ok(old(nextId)) && e.id == Some(old(nextId))
          && e.Record() == old(e.Record()).(createdAt := Some(now))
          && rows == old(rows)[old(nextId) := e.Record()] && nextId == old(nextId) + 1
      ensures old(e.id).Some? ==>
        e.id == old(e.id) && nextId == old(nextId)
        && if old(e.id).value !in old(rows) then
             r == Err(StaleEntity) && rows == old(rows) && e.Record() == old(e.Record())
           else if Clashes(old(rows), old(e.Record()), old(e.id)) then
             r == Err(DuplicateUser) && rows == old(rows) && e.Record() == old(e.Record())
           else
             r == Ok(old(e.id).value)
             && e.Record() == Touched(old(rows)[old(e.id).value], old(e.Record()), now)
             && rows == old(rows)[old(e.id).value := e.Record()]
    {
      if e.id.None? {
        if Clashes(rows, e.Record(), None) {
          return Err(DuplicateUser);
        }
        e.createdAt := Some(now);
        e.id := Some(nextId);
        rows := rows[nextId := e.Record()];
        r := Ok(nextId);
        nextId := nextId + 1;
      } else {
        var id := e.id.value;
        if id !in rows {
          return Err(StaleEntity);
        }
        if Clashes(rows, e.Record(), e.id) {
          return Err(DuplicateUser);
        }
        if e.Record() != rows[id] {
          e.updatedAt := Some(now);
        }
        rows := rows[id := e.Record()];
        r := Ok(id);
      }
    }
  }

  /** Rewriting a row without changing its username or email cannot break
    * a unique constraint. */
  lemma KeysKeptNoClash(rows: Rows, id: nat, r: UserRecord)
    requires Unique(rows) && id in rows
    requires r.username == rows[id].username && r.email == rows[id].email
    ensures !Clashes(rows, r, Some(id))
  {
  }

  /** What an update stores: the new columns, with the modification time
    * stamped only when something changed. */
  function Touched(stored: UserRecord, current: UserRecord, now: nat): UserRecord
  {
    if current == stored then current else current.(updatedAt := Some(now))
  }
}
