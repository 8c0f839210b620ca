// The permission table: named `resource:action` grants, unique by name.

module PermissionRepository {
  import opened Common

  /** The columns of a permission, without its id. */
  datatype PermissionRecord = PermissionRecord(
    name: string,
    description: Option<string>,
    resource: Option<string>,
    action: Option<string>,
    createdAt: Option<nat>)

  type Rows = map<nat, PermissionRecord>

  const DuplicateName: string := "duplicate key value violates unique constraint on permissions.name"

  predicate NamesUnique(rows: Rows)
  {
    forall a, b :: a in rows && b in rows && rows[a].name == rows[b].name ==> a == b
  }

  /** `existsByName`. */
  predicate ExistsByName(rows: Rows, name: string)
  {
    exists k :: k in rows && rows[k].name == name
  }

  /** Some row other than `except` is named `name`. */
  predicate NameTaken(rows: Rows, name: string, except: nat)
  {
    exists k :: k in rows && k != except && rows[k].name == name
  }

  /** `findByName`. */
  function FindByName(rows: Rows, name: string): (r: Option<nat>)
    requires NamesUnique(rows)
    ensures r.Some? <==> ExistsByName(rows, name)
    ensures r.Some? ==> r.value in rows && rows[r.value].name == name
  {
    if ExistsByName(rows, name) then
      var k :| k in rows && rows[k].name == name; Some(k)
    else None
  }

  /** `findAllById`: the ids among `ids` that exist; the others are
    * dropped without complaint. */
  function FindAllById(rows: Rows, ids: set<nat>): (r: set<nat>)
    ensures r <= ids && r <= rows.Keys
    ensures forall k :: k in ids && k in rows ==> k in r
  {
    ids * rows.Keys
  }

  class PermissionTable {
    var rows: Rows
    var nextId: nat

    predicate Valid()
      reads this
    {
      NamesUnique(rows) && forall k :: k in rows ==> k < nextId
    }

    constructor ()
      ensures Valid() && rows == map[] && nextId == 0
    {
      rows := map[];
      nextId := 0;
    }

    /** `save` of a new permission; `@PrePersist` stamps `createdAt`. */
    method Insert(p: PermissionRecord, now: nat) returns (r: Result<nat, string>)
      requires Valid()
      modifies this
      ensures Valid()
      ensures if ExistsByName(old(rows), p.name) then
          r == Err(DuplicateName) && rows == old(rows) && nextId == old(nextId)
        else
          r == Ok(old(nextId)) && nextId == old(nextId) + 1
          && rows == old(rows)[old(nextId) := p.(createdAt := Some(now))]
    {
      if ExistsByName(rows, p.name) {
        return Err(DuplicateName);
      }
      rows := rows[nextId := p.(createdAt := Some(now))];
      r := Ok(nextId);
      nextId := nextId + 1;
    }

    /** `save` of a loaded permission. */
    method Update(id: nat, p: PermissionRecord) returns (r: Result<nat, string>)
      requires Valid() && id in rows
      modifies this
      ensures Valid() && nextId == old(nextId)
      ensures if NameTaken(old(rows), p.name, id) then r == Err(DuplicateName) && rows == old(rows)
              else r == Ok(id) && rows == old(rows)[id := p]
    {
      if NameTaken(rows, p.name, id) {
        return Err(DuplicateName);
      }
      rows := rows[id := p];
      r := Ok(id);
    }

    /** `delete`. */
    method Delete(id: nat)
      requires Valid()
      modifies this
      ensures Valid() && nextId == old(nextId)
      ensures rows == old(rows) - {id}
    {
      rows := rows - {id};
    }
  }
}
