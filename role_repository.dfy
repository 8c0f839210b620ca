// The role table. Neither the role entity nor its repository is part of
// this model; a role is read here as a name, a description and a set of
// permission ids, its derived queries from their names, and its name as
// unique like a permission's.

module RoleRepository {
  import opened Common

  datatype RoleRecord = RoleRecord(name: string, description: Option<string>, permissions: set<nat>)

  type Rows = map<nat, RoleRecord>

  const DuplicateName: string := "duplicate key value violates unique constraint on roles.name"

  predicate NamesUnique(rows: Rows)
  {
    forall a, b :: a in rows && b in rows && rows[a].name == rows[b].name ==> a == b
  }

  /** `existsByName`. */
  predicate ExistsByName(rows: Rows, name: string)
  {
    exists k :: k in rows && rows[k].name == name
  }

  predicate NameTaken(rows: Rows, name: string, except: nat)
  {
    exists k :: k in rows && k != except && rows[k].name == name
  }

  /** `findByName`. */
  function FindByName(rows: Rows, name: string): (r: Option<nat>)
    requires NamesUnique(rows)
    ensures r.Some? <==> ExistsByName(rows, name)
    ensures r.Some? ==> r.value in rows && rows[r.value].name == name
  {
    if ExistsByName(rows, name) then
      var k :| k in rows && rows[k].name == name; Some(k)
    else None
  }

  class RoleTable {
    var rows: Rows
    var nextId: nat

    predicate Valid()
      reads this
    {
      NamesUnique(rows) && forall k :: k in rows ==> k < nextId
    }

    constructor ()
      ensures Valid() && rows == map[] && nextId == 0
    {
      rows := map[];
      nextId := 0;
    }

    /** `save` of a new role. */
    method Insert(role: RoleRecord) returns (r: Result<nat, string>)
      requires Valid()
      modifies this
      ensures Valid()
      ensures if ExistsByName(old(rows), role.name) then
          r == Err(DuplicateName) && rows == old(rows) && nextId == old(nextId)
        else
          r == Ok(old(nextId)) && nextId == old(nextId) + 1 && rows == old(rows)[old(nextId) := role]
    {
      if ExistsByName(rows, role.name) {
        return Err(DuplicateName);
      }
      rows := rows[nextId := role];
      r := Ok(nextId);
      nextId := nextId + 1;
    }

    /** `save` of a loaded role. */
    method Update(id: nat, role: RoleRecord) returns (r: Result<nat, string>)
      requires Valid() && id in rows
      modifies this
      ensures Valid() && nextId == old(nextId)
      ensures if NameTaken(old(rows), role.name, id) then r == Err(DuplicateName) && rows == old(rows)
              else r == Ok(id) && rows == old(rows)[id := role]
    {
      if NameTaken(rows, role.name, id) {
        return Err(DuplicateName);
      }
      rows := rows[id := role];
      r := Ok(id);
    }

    /** `delete`. */
    method Delete(id: nat)
      requires Valid()
      modifies this
      ensures Valid() && nextId == old(nextId)
      ensures rows == old(rows) - {id}
    {
      rows := rows - {id};
    }
  }
}
