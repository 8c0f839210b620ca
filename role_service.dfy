// Role administration: creating, renaming, deleting and reading roles,
// granting and revoking their permissions, and seeding the default roles.
// Role names are stored upper-cased; ADMIN and USER cannot be deleted.

module RoleServices {
  import opened Common
  import opened ServiceErrors
  import opened RoleRepository
  import PermissionRepository
  import UserRepository

  const RoleNotFound: string := "Role not found"
  const PermissionNotFound: string := "Permission not found"
  const AdminRole: string := "ADMIN"
  const UserRole: string := "USER"
  const ModeratorRole: string := "MODERATOR"

  /** The constraint error of removing a role that a `user_roles` row
    * still points at. */
  const RoleStillHeld: string := "update or delete on roles violates foreign key constraint on user_roles"

  /** Some user row lists the role. */
  predicate HeldBySomeUser(users: UserRepository.Rows, id: nat)
  {
    exists u :: u in users && id in users[u].roles
  }

  function AlreadyExists(name: string): string
  {
    "Role '" + name + "' already exists"
  }

  function CannotDelete(name: string): string
  {
    "Cannot delete system role: " + name
  }

  /** The roles `deleteRole` refuses to delete. */
  predicate SystemRole(name: string)
  {
    name == AdminRole || name == UserRole
  }

  /** Every stored name is in upper case. */
  predicate NamesUpper(rows: Rows)
  {
    forall k :: k in rows ==> ToUpper(rows[k].name) == rows[k].name
  }

  /** A table and its next identity value. */
  datatype Snapshot = Snapshot(rows: Rows, nextId: nat)

  /** The name looked up before a role is stored under `ToUpper(name)`.
    * As written that is the raw name; `asWritten == false` selects the
    * corrected check of the name actually stored. */
  function CheckedName(name: string, asWritten: bool): string
  {
    if asWritten then name else ToUpper(name)
  }

  // ---------------------------------------------------------------------
  // Create and update, as functions of the table

  /** `createRole`: the row it inserts, or the error it ends with. A name
    * reported by the check is a BadRequest; a name that passes the check
    * but whose upper-cased form is taken violates the unique constraint. */
  function CreateOutcome(rows: Rows, name: string, description: Option<string>, asWritten: bool)
    : (r: Result<RoleRecord, Failure>)
    ensures r.Ok? <==> !ExistsByName(rows, CheckedName(name, asWritten)) && !ExistsByName(rows, ToUpper(name))
    ensures r.Ok? ==> r.value == RoleRecord(ToUpper(name), description, {})
    ensures ExistsByName(rows, CheckedName(name, asWritten)) ==> r == Err(BadRequest(AlreadyExists(name)))
    ensures !asWritten ==> r.Err? ==> r == Err(BadRequest(AlreadyExists(name)))
  {
    if ExistsByName(rows, CheckedName(name, asWritten)) then Err(BadRequest(AlreadyExists(name)))
    else if ExistsByName(rows, ToUpper(name)) then Err(DataAccess(DuplicateName))
    else Ok(RoleRecord(ToUpper(name), description, {}))
  }

  /** The role after `updateRole`'s setters: a given name that differs from
    * the current one replaces it upper-cased, a given description replaces
    * it; the permissions stay. */
  function Renamed(role: RoleRecord, name: Option<string>, description: Option<string>): (r: RoleRecord)
    ensures r.permissions == role.permissions
    ensures r.name == if name.Some? && name.value != role.name then ToUpper(name.value) else role.name
    ensures r.description == if description.Some? then description else role.description
  {
    var named := if name.Some? && name.value != role.name then role.(name := ToUpper(name.value)) else role;
    if description.Some? then named.(description := description) else named
  }

  /** `updateRole`: the role's new row, or the error it ends with. The
    * name check runs only when a different name is given. */
  function UpdateOutcome(rows: Rows, id: nat, name: Option<string>, description: Option<string>, asWritten: bool)
    : (r: Result<RoleRecord, Failure>)
    requires NamesUnique(rows)
    ensures id !in rows ==> r == Err(BadRequest(RoleNotFound))
    ensures id in rows && (name.None? || name.value == rows[id].name) ==>
      r == Ok(Renamed(rows[id], name, description))
    ensures id in rows && name.Some? && name.value != rows[id].name ==>
      if asWritten then
        (ExistsByName(rows, name.value) ==> r == Err(BadRequest(AlreadyExists(name.value))))
        && (!ExistsByName(rows, name.value) && !NameTaken(rows, ToUpper(name.value), id) ==>
              r == Ok(Renamed(rows[id], name, description)))
      else
        (NameTaken(rows, ToUpper(name.value), id) ==> r == Err(BadRequest(AlreadyExists(name.value))))
        && (!NameTaken(rows, ToUpper(name.value), id) ==> r == Ok(Renamed(rows[id], name, description)))
  {
    if id !in rows then Err(BadRequest(RoleNotFound))
    else if name.Some? && name.value != rows[id].name
            && (if asWritten then ExistsByName(rows, name.value) else NameTaken(rows, ToUpper(name.value), id)) then
      Err(BadRequest(AlreadyExists(name.value)))
    else
      var role := Renamed(rows[id], name, description);
      if NameTaken(rows, role.name, id) then Err(DataAccess(DuplicateName)) else Ok(role)
  }

  /** `getRoleById`. */
  function GetRoleById(rows: Rows, id: nat): (r: Result<RoleRecord, Failure>)
    ensures r.Ok? <==> id in rows
    ensures r.Ok? ==> r.value == rows[id]
    ensures r.Err? ==> r.error == BadRequest(RoleNotFound)
  {
    if id in rows then Ok(rows[id]) else Err(BadRequest(RoleNotFound))
  }

  /** `getRoleByName`: the name is looked up as given. */
  function GetRoleByName(rows: Rows, name: string): (r: Result<nat, Failure>)
    requires NamesUnique(rows)
    ensures r.Ok? <==> ExistsByName(rows, name)
    ensures r.Ok? ==> r.value in rows && rows[r.value].name == name
    ensures r.Err? ==> r.error == BadRequest("Role not found: " + name)
  {
    match FindByName(rows, name)
    case Some(k) => Ok(k)
    case None => Err(BadRequest("Role not found: " + name))
  }

  // ---------------------------------------------------------------------
  // Default roles

  datatype RoleDefault = RoleDefault(name: string, description: string)

  /** The roles `initializeDefaultRoles` makes sure of, in its order. */
  const DefaultRoles: seq<RoleDefault> := [
    RoleDefault(AdminRole, "Administrator with full access"),
    RoleDefault(UserRole, "Standard user role"),
    RoleDefault(ModeratorRole, "Moderator with limited admin access")]

  /** One `if (!existsByName(n)) createRole(n, d)` for an upper-case `n`. */
  function EnsureRole(t: Snapshot, d: RoleDefault): Snapshot
  {
    if ExistsByName(t.rows, d.name) then t
    else Snapshot(t.rows[t.nextId := RoleRecord(d.name, Some(d.description), {})], t.nextId + 1)
  }

  /** The defaults, one after the other. */
  function EnsureRoles(t: Snapshot, ds: seq<RoleDefault>): Snapshot
    decreases |ds|
  {
    if ds == [] then t else EnsureRoles(EnsureRole(t, ds[0]), ds[1..])
  }

  /** A step keeps every row, adds at most the named role under the next
    * id, and leaves the name present. */
  lemma EnsureRoleGrows(t: Snapshot, d: RoleDefault)
    requires forall k :: k in t.rows ==> k < t.nextId
    ensures var u := EnsureRole(t, d);
      && ExistsByName(u.rows, d.name)
      && t.rows.Keys <= u.rows.Keys && (forall k :: k in t.rows ==> u.rows[k] == t.rows[k])
      && t.nextId <= u.nextId && (forall k :: k in u.rows ==> k < u.nextId)
  {
    var u := EnsureRole(t, d);
    if !ExistsByName(t.rows, d.name) {
      assert u.rows[t.nextId].name == d.name;
    }
  }

  /** The run keeps every row, and afterwards every default name exists. */
  lemma {:induction false} EnsureRolesGrows(t: Snapshot, ds: seq<RoleDefault>)
    requires forall k :: k in t.rows ==> k < t.nextId
    ensures var u := EnsureRoles(t, ds);
      && (forall i :: 0 <= i < |ds| ==> ExistsByName(u.rows, ds[i].name))
      && t.rows.Keys <= u.rows.Keys && (forall k :: k in t.rows ==> u.rows[k] == t.rows[k])
      && (forall k :: k in u.rows ==> k < u.nextId)
    decreases |ds|
  {
    if ds != [] {
      var t1 := EnsureRole(t, ds[0]);
      EnsureRoleGrows(t, ds[0]);
      EnsureRolesGrows(t1, ds[1..]);
      var u := EnsureRoles(t, ds);
      assert ExistsByName(u.rows, ds[0].name) by {
        var k :| k in t1.rows && t1.rows[k].name == ds[0].name;
        assert k in u.rows && u.rows[k].name == ds[0].name;
      }
      forall i | 1 <= i < |ds| ensures ExistsByName(u.rows, ds[i].name) {
        assert ds[i] == ds[1..][i - 1];
      }
    }
  }

  /** With every default name present, the run changes nothing. */
  lemma {:induction false} EnsureRolesPresent(t: Snapshot, ds: seq<RoleDefault>)
    requires forall i :: 0 <= i < |ds| ==> ExistsByName(t.rows, ds[i].name)
    ensures EnsureRoles(t, ds) == t
    decreases |ds|
  {
    if ds != [] {
      assert EnsureRole(t, ds[0]) == t;
      EnsureRolesPresent(t, ds[1..]);
    }
  }

  lemma DefaultNamesUpper()
    ensures ToUpper(AdminRole) == AdminRole && ToUpper(UserRole) == UserRole && ToUpper(ModeratorRole) == ModeratorRole
  {
    UpperFixed(AdminRole);
    UpperFixed(UserRole);
    UpperFixed(ModeratorRole);
  }

  /** `initializeDefaultRoles` leaves ADMIN, USER and MODERATOR present,
    * keeps every existing role, and running it again changes nothing. */
  lemma InitializeDefaultRolesIdempotent(t: Snapshot)
    requires forall k :: k in t.rows ==> k < t.nextId
    ensures var u := EnsureRoles(t, DefaultRoles);
      && ExistsByName(u.rows, AdminRole) && ExistsByName(u.rows, UserRole) && ExistsByName(u.rows, ModeratorRole)
      && (forall k :: k in t.rows ==> k in u.rows && u.rows[k] == t.rows[k])
      && EnsureRoles(u, DefaultRoles) == u
  {
    EnsureRolesGrows(t, DefaultRoles);
    var u := EnsureRoles(t, DefaultRoles);
    assert DefaultRoles[0].name == AdminRole && DefaultRoles[1].name == UserRole && DefaultRoles[2].name == ModeratorRole;
    EnsureRolesPresent(u, DefaultRoles);
  }

  // ---------------------------------------------------------------------
  // Properties of create and update

  /** The case-variant name: with ADMIN stored and no row named "admin",
    * the check as written lets "admin" through to the insert, which the
    * unique constraint rejects as a data-access error; the corrected check
    * refuses it as a BadRequest. */
  lemma CaseVariantReachesConstraint(rows: Rows, k: nat)
    requires k in rows && rows[k].name == AdminRole
    requires !ExistsByName(rows, "admin")
    ensures CreateOutcome(rows, "admin", None, true) == Err(DataAccess(DuplicateName))
    ensures CreateOutcome(rows, "admin", None, false) == Err(BadRequest(AlreadyExists("admin")))
  {
    assert ToUpper("admin") == AdminRole;
    assert ExistsByName(rows, ToUpper("admin"));
  }

  /** With the corrected check a created or renamed role never meets the
    * unique constraint, and upper-case names stay upper-case. */
  lemma CorrectedKeepsNamesUpper(rows: Rows, id: nat, name: string, newName: Option<string>,
                                 description: Option<string>)
    requires NamesUnique(rows) && NamesUpper(rows)
    ensures CreateOutcome(rows, name, description, false) != Err(DataAccess(DuplicateName))
    ensures CreateOutcome(rows, name, description, false).Ok? ==>
      ToUpper(CreateOutcome(rows, name, description, false).value.name)
        == CreateOutcome(rows, name, description, false).value.name
    ensures UpdateOutcome(rows, id, newName, description, false) != Err(DataAccess(DuplicateName))
    ensures UpdateOutcome(rows, id, newName, description, false).Ok? ==>
      ToUpper(UpdateOutcome(rows, id, newName, description, false).value.name)
        == UpdateOutcome(rows, id, newName, description, false).value.name
  {
    ToUpperIdempotent(name);
    if newName.Some? {
      ToUpperIdempotent(newName.value);
    }
  }

  // ---------------------------------------------------------------------
  // The service over the tables

  class RoleService {
    const roles: RoleTable
    const perms: PermissionRepository.PermissionTable

    constructor (roles: RoleTable, perms: PermissionRepository.PermissionTable)
      ensures this.roles == roles && this.perms == perms
    {
      this.roles := roles;
      this.perms := perms;
    }

    /** `createRole`; `asWritten` selects the source's check of the raw
      * name, otherwise the stored name is checked. */
    method CreateRole(name: string, description: Option<string>, asWritten: bool) returns (r: Result<nat, Failure>)
      requires roles.Valid()
      modifies roles
      ensures roles.Valid()
      ensures match CreateOutcome(old(roles.rows), name, description, asWritten)
        case Err(e) => r == Err(e) && roles.rows == old(roles.rows) && roles.nextId == old(roles.nextId)
        case Ok(role) => r == Ok(old(roles.nextId)) && roles.rows == old(roles.rows)[old(roles.nextId) := role]
                         && roles.nextId == old(roles.nextId) + 1
    {
      if ExistsByName(roles.rows, CheckedName(name, asWritten)) {
        return Err(BadRequest(AlreadyExists(name)));
      }
      var saved := roles.Insert(RoleRecord(ToUpper(name), description, {}));
      if saved.Err? {
        return Err(DataAccess(saved.error));
      }
      r := Ok(saved.value);
    }

    /** `updateRole`. */
    method UpdateRole(id: nat, name: Option<string>, description: Option<string>, asWritten: bool)
      returns (r: Result<RoleRecord, Failure>)
      requires roles.Valid()
      modifies roles
      ensures roles.Valid() && roles.nextId == old(roles.nextId)
      ensures r == UpdateOutcome(old(roles.rows), id, name, description, asWritten)
      ensures roles.rows == if r.Ok? then old(roles.rows)[id := r.value] else old(roles.rows)
    {
      var found := GetRoleById(roles.rows, id);
      if found.Err? {
        return Err(found.error);
      }
      var role := found.value;
      if name.Some? && name.value != role.name {
        if asWritten && ExistsByName(roles.rows, name.value) {
          return Err(BadRequest(AlreadyExists(name.value)));
        }
        if !asWritten && NameTaken(roles.rows, ToUpper(name.value), id) {
          return Err(BadRequest(AlreadyExists(name.value)));
        }
      }
      role := Renamed(role, name, description);
      var saved := roles.Update(id, role);
      if saved.Err? {
        return Err(DataAccess(saved.error));
      }
      r := Ok(role);
    }

    /** `deleteRole`: an unknown id and the system roles are refused;
      * any other role is deleted, together with its own permission links.
      * `users` is the user table as the database holds it: its `user_roles`
      * join rows point at roles, so a role some user still holds cannot be
      * removed, the flush fails on that constraint and nothing changes. */
    method DeleteRole(id: nat, users: UserRepository.UserTable) returns (r: Result<(), Failure>)
      requires roles.Valid()
      modifies roles
      ensures roles.Valid() && roles.nextId == old(roles.nextId)
      ensures id !in old(roles.rows) ==> r == Err(BadRequest(RoleNotFound)) && roles.rows == old(roles.rows)
      ensures id in old(roles.rows) && SystemRole(old(roles.rows)[id].name) ==>
        r == Err(BadRequest(CannotDelete(old(roles.rows)[id].name))) && roles.rows == old(roles.rows)
      ensures id in old(roles.rows) && !SystemRole(old(roles.rows)[id].name) && HeldBySomeUser(users.rows, id) ==>
        r == Err(DataAccess(RoleStillHeld)) && roles.rows == old(roles.rows)
      ensures id in old(roles.rows) && !SystemRole(old(roles.rows)[id].name) && !HeldBySomeUser(users.rows, id) ==>
        r == Ok(()) && roles.rows == old(roles.rows) - {id}
    {
      var found := GetRoleById(roles.rows, id);
      if found.Err? {
        return Err(found.error);
      }
      if SystemRole(found.value.name) {
        return Err(BadRequest(CannotDelete(found.value.name)));
      }
      if HeldBySomeUser(users.rows, id) {
        return Err(DataAccess(RoleStillHeld));
      }
      roles.Delete(id);
      r := Ok(());
    }

    /** Saves a role whose name is unchanged, which the unique constraint
      * always lets through. */
    method StorePermissions(id: nat, permissions: set<nat>) returns (role: RoleRecord)
      requires roles.Valid() && id in roles.rows
      modifies roles
      ensures roles.Valid() && roles.nextId == old(roles.nextId)
      ensures role == old(roles.rows)[id].(permissions := permissions)
      ensures roles.rows == old(roles.rows)[id := role]
    {
      role := roles.rows[id].(permissions := permissions);
      assert !NameTaken(roles.rows, role.name, id);
      var saved := roles.Update(id, role);
    }

    /** `addPermissionToRole`: the role, then the permission, must exist;
      * the permission id is added to the role's set. */
    method AddPermissionToRole(id: nat, permissionId: nat) returns (r: Result<RoleRecord, Failure>)
      requires roles.Valid()
      modifies roles
      ensures roles.Valid() && roles.nextId == old(roles.nextId)
      ensures id !in old(roles.rows) ==> r == Err(BadRequest(RoleNotFound)) && roles.rows == old(roles.rows)
      ensures id in old(roles.rows) && permissionId !in perms.rows ==>
        r == Err(BadRequest(PermissionNotFound)) && roles.rows == old(roles.rows)
      ensures id in old(roles.rows) && permissionId in perms.rows ==>
        var role := old(roles.rows)[id];
        r == Ok(role.(permissions := role.permissions + {permissionId}))
        && roles.rows == old(roles.rows)[id := r.value]
    {
      var found := GetRoleById(roles.rows, id);
      if found.Err? {
        return Err(found.error);
      }
      if permissionId !in perms.rows {
        return Err(BadRequest(PermissionNotFound));
      }
      var role := StorePermissions(id, found.value.permissions + {permissionId});
      r := Ok(role);
    }

    /** `removePermissionFromRole`: the role, then the permission, must
      * exist; the permission id is taken out of the role's set. */
    method RemovePermissionFromRole(id: nat, permissionId: nat) returns (r: Result<RoleRecord, Failure>)
      requires roles.Valid()
      modifies roles
      ensures roles.Valid() && roles.nextId == old(roles.nextId)
      ensures id !in old(roles.rows) ==> r == Err(BadRequest(RoleNotFound)) && roles.rows == old(roles.rows)
      ensures id in old(roles.rows) && permissionId !in perms.rows ==>
        r == Err(BadRequest(PermissionNotFound)) && roles.rows == old(roles.rows)
      ensures id in old(roles.rows) && permissionId in perms.rows ==>
        var role := old(roles.rows)[id];
        r == Ok(role.(permissions := role.permissions - {permissionId}))
        && roles.rows == old(roles.rows)[id := r.value]
    {
      var found := GetRoleById(roles.rows, id);
      if found.Err? {
        return Err(found.error);
      }
      if permissionId !in perms.rows {
        return Err(BadRequest(PermissionNotFound));
      }
      var role := StorePermissions(id, found.value.permissions - {permissionId});
      r := Ok(role);
    }

    /** `setPermissions`: the role's set becomes the given ids that name a
      * permission; the others are dropped without complaint. */
    method SetPermissions(id: nat, permissionIds: set<nat>) returns (r: Result<RoleRecord, Failure>)
      requires roles.Valid()
      modifies roles
      ensures roles.Valid() && roles.nextId == old(roles.nextId)
      ensures id !in old(roles.rows) ==> r == Err(BadRequest(RoleNotFound)) && roles.rows == old(roles.rows)
      ensures id in old(roles.rows) ==>
        r == Ok(old(roles.rows)[id].(permissions := permissionIds * perms.rows.Keys))
        && roles.rows == old(roles.rows)[id := r.value]
    {
      var found := GetRoleById(roles.rows, id);
      if found.Err? {
        return Err(found.error);
      }
      var role := StorePermissions(id, PermissionRepository.FindAllById(perms.rows, permissionIds));
      r := Ok(role);
    }

    /** One `if (!existsByName(n)) createRole(n, d)`. */
    method EnsureDefault(d: RoleDefault)
      requires roles.Valid() && ToUpper(d.name) == d.name
      modifies roles
      ensures roles.Valid()
      ensures Snapshot(roles.rows, roles.nextId) == EnsureRole(old(Snapshot(roles.rows, roles.nextId)), d)
    {
      if !ExistsByName(roles.rows, d.name) {
        var created := CreateRole(d.name, Some(d.description), true);
      }
    }

    /** `initializeDefaultRoles`. */
    method InitializeDefaultRoles()
      requires roles.Valid()
      modifies roles
      ensures roles.Valid()
      ensures Snapshot(roles.rows, roles.nextId) == EnsureRoles(old(Snapshot(roles.rows, roles.nextId)), DefaultRoles)
    {
      ghost var goal := EnsureRoles(Snapshot(roles.rows, roles.nextId), DefaultRoles);
      DefaultNamesUpper();
      EnsureDefault(DefaultRoles[0]);
      assert goal == EnsureRoles(Snapshot(roles.rows, roles.nextId), DefaultRoles[1..]);
      EnsureDefault(DefaultRoles[1]);
      assert DefaultRoles[1..][1..] == DefaultRoles[2..];
      assert goal == EnsureRoles(Snapshot(roles.rows, roles.nextId), DefaultRoles[2..]);
      EnsureDefault(DefaultRoles[2]);
      assert DefaultRoles[2..][1..] == [];
      assert goal == EnsureRoles(Snapshot(roles.rows, roles.nextId), []);
    }
  }
}
