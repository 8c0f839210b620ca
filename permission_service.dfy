// Permission administration: creating, updating, deleting and reading
// `resource:action` permissions, and seeding the thirteen defaults.

module PermissionServices {
  import opened Common
  import opened ServiceErrors
  import opened PermissionRepository
  import RoleRepository

  const PermissionNotFound: string := "Permission not found"

  /** The constraint error of removing a permission that a
    * `role_permissions` row still points at. */
  const PermissionStillGranted: string :=
    "update or delete on permissions violates foreign key constraint on role_permissions"

  /** Some role row grants the permission. */
  predicate GrantedBySomeRole(roles: RoleRepository.Rows, id: nat)
  {
    exists r :: r in roles && id in roles[r].permissions
  }

  function AlreadyExists(name: string): string
  {
    "Permission '" + name + "' already exists"
  }

  /** A table and its next identity value. */
  datatype Snapshot = Snapshot(rows: Rows, nextId: nat)

  /** `createPermission`: the row it inserts (before `@PrePersist`), or the
    * BadRequest for a name already taken. */
  function CreateOutcome(rows: Rows, name: string, description: Option<string>, resource: Option<string>,
                         action: Option<string>): (r: Result<PermissionRecord, Failure>)
    ensures r.Err? <==> ExistsByName(rows, name)
    ensures r.Err? ==> r.error == BadRequest(AlreadyExists(name))
    ensures r.Ok? ==> r.value == PermissionRecord(name, description, resource, action, None)
  {
    if ExistsByName(rows, name) then Err(BadRequest(AlreadyExists(name)))
    else Ok(PermissionRecord(name, description, resource, action, None))
  }

  /** The permission after `updatePermission`'s setters: every given field
    * replaces the stored one, the creation time stays. */
  function Updated(p: PermissionRecord, name: Option<string>, description: Option<string>, resource: Option<string>,
                   action: Option<string>): (r: PermissionRecord)
    ensures r.name == if name.Some? then name.value else p.name
    ensures r.description == if description.Some? then description else p.description
    ensures r.resource == if resource.Some? then resource else p.resource
    ensures r.action == if action.Some? then action else p.action
    ensures r.createdAt == p.createdAt
  {
    PermissionRecord(if name.Some? then name.value else p.name,
                     if description.Some? then description else p.description,
                     if resource.Some? then resource else p.resource,
                     if action.Some? then action else p.action,
                     p.createdAt)
  }

  /** `updatePermission`: the new row, or the error it ends with. Only a
    * name that differs from the stored one is checked, and a name that
    * passes the check never meets the unique constraint. */
  function UpdateOutcome(rows: Rows, id: nat, name: Option<string>, description: Option<string>,
                         resource: Option<string>, action: Option<string>): (r: Result<PermissionRecord, Failure>)
    requires NamesUnique(rows)
    ensures id !in rows ==> r == Err(BadRequest(PermissionNotFound))
    ensures id in rows && name.Some? && name.value != rows[id].name && ExistsByName(rows, name.value) ==>
      r == Err(BadRequest(AlreadyExists(name.value)))
    ensures id in rows && !(name.Some? && name.value != rows[id].name && ExistsByName(rows, name.value)) ==>
      r == Ok(Updated(rows[id], name, description, resource, action))
      && !NameTaken(rows, r.value.name, id)
  {
    if id !in rows then Err(BadRequest(PermissionNotFound))
    else if name.Some? && name.value != rows[id].name && ExistsByName(rows, name.value) then
      Err(BadRequest(AlreadyExists(name.value)))
    else
      var p := Updated(rows[id], name, description, resource, action);
      if NameTaken(rows, p.name, id) then Err(DataAccess(DuplicateName)) else Ok(p)
  }

  /** `getPermissionById`. */
  function GetPermissionById(rows: Rows, id: nat): (r: Result<PermissionRecord, Failure>)
    ensures r.Ok? <==> id in rows
    ensures r.Ok? ==> r.value == rows[id]
    ensures r.Err? ==> r.error == BadRequest(PermissionNotFound)
  {
    if id in rows then Ok(rows[id]) else Err(BadRequest(PermissionNotFound))
  }

  /** `getPermissionByName`. */
  function GetPermissionByName(rows: Rows, name: string): (r: Result<nat, Failure>)
    requires NamesUnique(rows)
    ensures r.Ok? <==> ExistsByName(rows, name)
    ensures r.Ok? ==> r.value in rows && rows[r.value].name == name
    ensures r.Err? ==> r.error == BadRequest("Permission not found: " + name)
  {
    match FindByName(rows, name)
    case Some(k) => Ok(k)
    case None => Err(BadRequest("Permission not found: " + name))
  }

  /** `getPermissionsByResource`, as the ids it returns. */
  function PermissionsByResource(rows: Rows, resource: string): (r: set<nat>)
    ensures forall k :: k in r <==> k in rows && rows[k].resource == Some(resource)
  {
    set k | k in rows && rows[k].resource == Some(resource)
  }

  // ---------------------------------------------------------------------
  // Default permissions

  datatype PermissionDefault = PermissionDefault(name: string, description: string, resource: string, action: string)

  const MovieDefaults: seq<PermissionDefault> := [
    PermissionDefault("movie:read", "View movies", "movie", "read"),
    PermissionDefault("movie:write", "Create/update movies", "movie", "write"),
    PermissionDefault("movie:delete", "Delete movies", "movie", "delete")]

  const CustomerDefaults: seq<PermissionDefault> := [
    PermissionDefault("customer:read", "View customers", "customer", "read"),
    PermissionDefault("customer:write", "Create/update customers", "customer", "write"),
    PermissionDefault("customer:delete", "Delete customers", "customer", "delete")]

  const PaymentDefaults: seq<PermissionDefault> := [
    PermissionDefault("payment:read", "View payments", "payment", "read"),
    PermissionDefault("payment:write", "Create payments", "payment", "write")]

  const NotificationDefaults: seq<PermissionDefault> := [
    PermissionDefault("notification:read", "View notifications", "notification", "read"),
    PermissionDefault("notification:write", "Send notifications", "notification", "write")]

  const UserDefaults: seq<PermissionDefault> := [
    PermissionDefault("user:read", "View users", "user", "read"),
    PermissionDefault("user:write", "Manage users", "user", "write"),
    PermissionDefault("user:admin", "Full admin access", "user", "admin")]

  /** The thirteen permissions `initializeDefaultPermissions` makes sure
    * of, in its order. */
  const DefaultPermissions: seq<PermissionDefault> :=
    MovieDefaults + CustomerDefaults + PaymentDefaults + NotificationDefaults + UserDefaults

  /** The row a default is inserted as, stamped at `now`. */
  function DefaultRecord(d: PermissionDefault, now: nat): PermissionRecord
  {
    PermissionRecord(d.name, Some(d.description), Some(d.resource), Some(d.action), Some(now))
  }

  /** `createIfNotExists`. */
  function EnsurePermission(t: Snapshot, d: PermissionDefault, now: nat): Snapshot
  {
    if ExistsByName(t.rows, d.name) then t
    else Snapshot(t.rows[t.nextId := DefaultRecord(d, now)], t.nextId + 1)
  }

  /** The defaults, one after the other. */
  function EnsurePermissions(t: Snapshot, ds: seq<PermissionDefault>, now: nat): Snapshot
    decreases |ds|
  {
    if ds == [] then t else EnsurePermissions(EnsurePermission(t, ds[0], now), ds[1..], now)
  }

  /** Running two lists is running their concatenation. */
  lemma {:induction false} EnsurePermissionsAppend(t: Snapshot, a: seq<PermissionDefault>, b: seq<PermissionDefault>,
                                                   now: nat)
    ensures EnsurePermissions(t, a + b, now) == EnsurePermissions(EnsurePermissions(t, a, now), b, now)
    decreases |a|
  {
    if a == [] {
      assert a + b == b;
    } else {
      assert (a + b)[0] == a[0] && (a + b)[1..] == a[1..] + b;
      EnsurePermissionsAppend(EnsurePermission(t, a[0], now), a[1..], b, now);
    }
  }

  /** A run keeps every row, leaves every default name present, and keeps
    * the ids below the next one. */
  lemma {:induction false} EnsurePermissionsGrows(t: Snapshot, ds: seq<PermissionDefault>, now: nat)
    requires forall k :: k in t.rows ==> k < t.nextId
    ensures var u := EnsurePermissions(t, ds, now);
      && (forall i :: 0 <= i < |ds| ==> ExistsByName(u.rows, ds[i].name))
      && t.rows.Keys <= u.rows.Keys && (forall k :: k in t.rows ==> u.rows[k] == t.rows[k])
      && (forall k :: k in u.rows ==> k < u.nextId)
    decreases |ds|
  {
    if ds != [] {
      var t1 := EnsurePermission(t, ds[0], now);
      assert ExistsByName(t1.rows, ds[0].name) by {
        if !ExistsByName(t.rows, ds[0].name) {
          assert t1.rows[t.nextId].name == ds[0].name;
        }
      }
      EnsurePermissionsGrows(t1, ds[1..], now);
      var u := EnsurePermissions(t, ds, now);
      assert ExistsByName(u.rows, ds[0].name) by {
        var k :| k in t1.rows && t1.rows[k].name == ds[0].name;
        assert k in u.rows && u.rows[k].name == ds[0].name;
      }
      forall i | 1 <= i < |ds| ensures ExistsByName(u.rows, ds[i].name) {
        assert ds[i] == ds[1..][i - 1];
      }
    }
  }

  /** With every default name present, a run changes nothing, whenever it
    * happens. */
  lemma {:induction false} EnsurePermissionsPresent(t: Snapshot, ds: seq<PermissionDefault>, now: nat)
    requires forall i :: 0 <= i < |ds| ==> ExistsByName(t.rows, ds[i].name)
    ensures EnsurePermissions(t, ds, now) == t
    decreases |ds|
  {
    if ds != [] {
      assert EnsurePermission(t, ds[0], now) == t;
      EnsurePermissionsPresent(t, ds[1..], now);
    }
  }

  /** `initializeDefaultPermissions` leaves all thirteen names present and
    * every existing permission as it was; a second run, at any later
    * time, changes nothing. */
  lemma InitializeDefaultPermissionsIdempotent(t: Snapshot, now: nat, later: nat)
    requires forall k :: k in t.rows ==> k < t.nextId
    ensures var u := EnsurePermissions(t, DefaultPermissions, now);
      && (forall i :: 0 <= i < |DefaultPermissions| ==> ExistsByName(u.rows, DefaultPermissions[i].name))
      && (forall k :: k in t.rows ==> k in u.rows && u.rows[k] == t.rows[k])
      && EnsurePermissions(u, DefaultPermissions, later) == u
  {
    EnsurePermissionsGrows(t, DefaultPermissions, now);
    var u := EnsurePermissions(t, DefaultPermissions, now);
    EnsurePermissionsPresent(u, DefaultPermissions, later);
  }

  /** On an empty table the run stores exactly one row per default, under
    * consecutive ids. */
  lemma SeedsEmptyTable(ds: seq<PermissionDefault>, now: nat, n: nat)
    requires forall i, j :: 0 <= i < j < |ds| ==> ds[i].name != ds[j].name
    ensures var u := EnsurePermissions(Snapshot(map[], n), ds, now);
      && u.nextId == n + |ds| && (forall k :: k in u.rows <==> n <= k < n + |ds|)
  {
    SeedsFrom(Snapshot(map[], n), ds, now, n);
  }

  /** A run over names none of which is present adds one row per name. */
  lemma {:induction false} SeedsFrom(t: Snapshot, ds: seq<PermissionDefault>, now: nat, n: nat)
    requires forall i, j :: 0 <= i < j < |ds| ==> ds[i].name != ds[j].name
    requires forall i :: 0 <= i < |ds| ==> !ExistsByName(t.rows, ds[i].name)
    requires n <= t.nextId && forall k :: k in t.rows <==> n <= k < t.nextId
    ensures var u := EnsurePermissions(t, ds, now);
      && u.nextId == t.nextId + |ds| && (forall k :: k in u.rows <==> n <= k < t.nextId + |ds|)
    decreases |ds|
  {
    if ds != [] {
      var t1 := EnsurePermission(t, ds[0], now);
      assert t1 == Snapshot(t.rows[t.nextId := DefaultRecord(ds[0], now)], t.nextId + 1);
      forall i | 0 <= i < |ds[1..]| ensures !ExistsByName(t1.rows, ds[1..][i].name) {
        assert ds[1..][i] == ds[i + 1];
        assert t1.rows[t.nextId].name == ds[0].name != ds[i + 1].name;
      }
      SeedsFrom(t1, ds[1..], now, n);
    }
  }

  /** The thirteen default names are pairwise different, so a fresh table
    * ends up with exactly thirteen permissions. */
  lemma FreshTableGetsThirteen(now: nat)
    ensures |DefaultPermissions| == 13
    ensures var u := EnsurePermissions(Snapshot(map[], 0), DefaultPermissions, now);
      && u.nextId == 13 && (forall k :: k in u.rows <==> 0 <= k < 13)
  {
    DefaultNamesDistinct();
    SeedsEmptyTable(DefaultPermissions, now, 0);
  }

  lemma DefaultNamesDistinct()
    ensures |DefaultPermissions| == 13
    ensures forall i, j :: 0 <= i < j < |DefaultPermissions| ==> DefaultPermissions[i].name != DefaultPermissions[j].name
  {
  }

  // ---------------------------------------------------------------------
  // The service over the table

  class PermissionService {
    const perms: PermissionTable

    constructor (perms: PermissionTable)
      ensures this.perms == perms
    {
      this.perms := perms;
    }

    /** `createPermission`. */
    method CreatePermission(name: string, description: Option<string>, resource: Option<string>,
                            action: Option<string>, now: nat) returns (r: Result<nat, Failure>)
      requires perms.Valid()
      modifies perms
      ensures perms.Valid()
      ensures match CreateOutcome(old(perms.rows), name, description, resource, action)
        case Err(e) => r == Err(e) && perms.rows == old(perms.rows) && perms.nextId == old(perms.nextId)
        case Ok(p) => r == Ok(old(perms.nextId))
                      && perms.rows == old(perms.rows)[old(perms.nextId) := p.(createdAt := Some(now))]
                      && perms.nextId == old(perms.nextId) + 1
    {
      if ExistsByName(perms.rows, name) {
        return Err(BadRequest(AlreadyExists(name)));
      }
      var saved := perms.Insert(PermissionRecord(name, description, resource, action, None), now);
      r := Ok(saved.value);
    }

    /** `updatePermission`. */
    method UpdatePermission(id: nat, name: Option<string>, description: Option<string>, resource: Option<string>,
                            action: Option<string>) returns (r: Result<PermissionRecord, Failure>)
      requires perms.Valid()
      modifies perms
      ensures perms.Valid() && perms.nextId == old(perms.nextId)
      ensures r == UpdateOutcome(old(perms.rows), id, name, description, resource, action)
      ensures perms.rows == if r.Ok? then old(perms.rows)[id := r.value] else old(perms.rows)
    {
      var found := GetPermissionById(perms.rows, id);
      if found.Err? {
        return Err(found.error);
      }
      if name.Some? && name.value != found.value.name && ExistsByName(perms.rows, name.value) {
        return Err(BadRequest(AlreadyExists(name.value)));
      }
      var p := Updated(found.value, name, description, resource, action);
      var saved := perms.Update(id, p);
      r := Ok(p);
    }

    /** `deletePermission`: an unknown id is refused. `roles` is the role
      * table as the database holds it: its `role_permissions` join rows
      * point at permissions, so a permission some role still grants cannot
      * be removed, the flush fails on that constraint and nothing changes. */
    method DeletePermission(id: nat, roles: RoleRepository.RoleTable) returns (r: Result<(), Failure>)
      requires perms.Valid()
      modifies perms
      ensures perms.Valid() && perms.nextId == old(perms.nextId)
      ensures id !in old(perms.rows) ==> r == Err(BadRequest(PermissionNotFound)) && perms.rows == old(perms.rows)
      ensures id in old(perms.rows) && GrantedBySomeRole(roles.rows, id) ==>
        r == Err(DataAccess(PermissionStillGranted)) && perms.rows == old(perms.rows)
      ensures id in old(perms.rows) && !GrantedBySomeRole(roles.rows, id) ==>
        r == Ok(()) && perms.rows == old(perms.rows) - {id}
    {
      var found := GetPermissionById(perms.rows, id);
      if found.Err? {
        return Err(found.error);
      }
      if GrantedBySomeRole(roles.rows, id) {
        return Err(DataAccess(PermissionStillGranted));
      }
      perms.Delete(id);
      r := Ok(());
    }

    /** `createIfNotExists`: a present name is left alone. */
    method CreateIfNotExists(d: PermissionDefault, now: nat)
      requires perms.Valid()
      modifies perms
      ensures perms.Valid()
      ensures Snapshot(perms.rows, perms.nextId) == EnsurePermission(old(Snapshot(perms.rows, perms.nextId)), d, now)
    {
      if !ExistsByName(perms.rows, d.name) {
        var saved := perms.Insert(PermissionRecord(d.name, Some(d.description), Some(d.resource), Some(d.action), None),
                                  now);
      }
    }

    /** The movie, customer and user groups of three. */
    method CreateThree(ds: seq<PermissionDefault>, now: nat)
      requires perms.Valid() && |ds| == 3
      modifies perms
      ensures perms.Valid()
      ensures Snapshot(perms.rows, perms.nextId) == EnsurePermissions(old(Snapshot(perms.rows, perms.nextId)), ds, now)
    {
      ghost var goal := EnsurePermissions(Snapshot(perms.rows, perms.nextId), ds, now);
      CreateIfNotExists(ds[0], now);
      assert goal == EnsurePermissions(Snapshot(perms.rows, perms.nextId), ds[1..], now);
      CreateIfNotExists(ds[1], now);
      assert ds[1..][1..] == ds[2..];
      assert goal == EnsurePermissions(Snapshot(perms.rows, perms.nextId), ds[2..], now);
      CreateIfNotExists(ds[2], now);
      assert ds[2..][1..] == [];
    }

    /** The payment and notification groups of two. */
    method CreateTwo(ds: seq<PermissionDefault>, now: nat)
      requires perms.Valid() && |ds| == 2
      modifies perms
      ensures perms.Valid()
      ensures Snapshot(perms.rows, perms.nextId) == EnsurePermissions(old(Snapshot(perms.rows, perms.nextId)), ds, now)
    {
      ghost var goal := EnsurePermissions(Snapshot(perms.rows, perms.nextId), ds, now);
      CreateIfNotExists(ds[0], now);
      assert goal == EnsurePermissions(Snapshot(perms.rows, perms.nextId), ds[1..], now);
      CreateIfNotExists(ds[1], now);
      assert ds[1..][1..] == [];
    }

    /** `initializeDefaultPermissions`, group by group. */
    method InitializeDefaultPermissions(now: nat)
      requires perms.Valid()
      modifies perms
      ensures perms.Valid()
      ensures Snapshot(perms.rows, perms.nextId)
              == EnsurePermissions(old(Snapshot(perms.rows, perms.nextId)), DefaultPermissions, now)
    {
      ghost var t0 := Snapshot(perms.rows, perms.nextId);
      CreateThree(MovieDefaults, now);
      CreateThree(CustomerDefaults, now);
      CreateTwo(PaymentDefaults, now);
      CreateTwo(NotificationDefaults, now);
      CreateThree(UserDefaults, now);
      ghost var a := MovieDefaults + CustomerDefaults;
      ghost var b := a + PaymentDefaults;
      ghost var c := b + NotificationDefaults;
      EnsurePermissionsAppend(t0, MovieDefaults, CustomerDefaults, now);
      EnsurePermissionsAppend(t0, a, PaymentDefaults, now);
      EnsurePermissionsAppend(t0, b, NotificationDefaults, now);
      EnsurePermissionsAppend(t0, c, UserDefaults, now);
    }
  }
}
