// The read side of an account: roles flattened to role names and to the
// union of their permission names, and the user response built from a
// user and its profile.

module UserMapper {
  import opened Common
  import opened Users
  import RoleRepository
  import PermissionRepository

  /** A role as the mapper sees it: its name and its permissions' names. */
  datatype RoleView = RoleView(name: string, permissionNames: set<string>)

  /** The role objects a user's role ids stand for, with their permissions
    * resolved to names. */
  function ResolveRoles(roleIds: set<nat>, roles: RoleRepository.Rows, perms: PermissionRepository.Rows): set<RoleView>
  {
    set r | r in roleIds && r in roles ::
      RoleView(roles[r].name, set p | p in roles[r].permissions && p in perms :: perms[p].name)
  }

  /** `mapRoles`: null stays null, otherwise the set of role names. */
  function MapRoles(roles: Option<set<RoleView>>): (r: Option<set<string>>)
    ensures r.None? <==> roles.None?
    ensures roles.Some? ==> forall n :: n in r.value <==> exists x :: x in roles.value && x.name == n
  {
    match roles
    case None => None
    case Some(rs) => Some(set x | x in rs :: x.name)
  }

  /** `mapPermissions`: null stays null, otherwise the union of every
    * role's permission names. */
  function MapPermissions(roles: Option<set<RoleView>>): (r: Option<set<string>>)
    ensures r.None? <==> roles.None?
    ensures roles.Some? ==> forall n :: n in r.value <==> exists x :: x in roles.value && n in x.permissionNames
  {
    match roles
    case None => None
    case Some(rs) => Some(set x, n | x in rs && n in x.permissionNames :: n)
  }

  /** `mapPhone`. */
  function MapPhone(u: UserRecord): Option<string>
  {
    u.phoneNumber
  }

  function StatusName(s: Status): string
  {
    match s
    case ACTIVE => "ACTIVE"
    case LOCKED => "LOCKED"
    case DISABLED => "DISABLED"
  }

  datatype UserResponse = UserResponse(
    id: nat,
    username: string,
    email: Option<string>,
    status: string,
    roles: Option<set<string>>,
    permissions: Option<set<string>>,
    lastLoginAt: string,
    createdAt: string,
    fullName: Option<string>,
    avatarUrl: Option<string>,
    phone: Option<string>,
    country: Option<string>,
    dateOfBirth: Option<string>,
    gender: Option<string>,
    age: Option<string>,
    genres: Option<set<string>>)

  const NullCreatedAt: string := "NullPointerException: createdAt"

  /** `toUserResponse`. `show` renders a time as text. A missing last login
    * renders as "", a missing creation time cannot be rendered, and every
    * profile field is null when there is no profile. */
  function ToUserResponse(id: nat, u: UserRecord, roles: set<RoleView>, profile: Option<ProfileRecord>,
                          show: nat -> string): Result<UserResponse, string>
  {
    if u.createdAt.None? then Err(NullCreatedAt)
    else
      Ok(UserResponse(
        id, u.username, u.email, StatusName(u.status),
        MapRoles(Some(roles)), MapPermissions(Some(roles)),
        if u.lastLoginAt.Some? then show(u.lastLoginAt.value) else "",
        show(u.createdAt.value),
        if profile.Some? then profile.value.fullName else None,
        if profile.Some? then profile.value.avatarUrl else None,
        MapPhone(u),
        if profile.Some? then profile.value.country else None,
        if profile.Some? then profile.value.dateOfBirth else None,
        if profile.Some? then profile.value.gender else None,
        if profile.Some? then profile.value.age else None,
        if profile.Some? then Some(profile.value.genres) else None))
  }

  // ---------------------------------------------------------------------
  // Properties

  /** Flattening distributes over a union of role sets, so the names of a
    * user's roles and permissions grow exactly by those of an added role. */
  lemma FlatteningDistributes(a: set<RoleView>, b: set<RoleView>)
    ensures MapRoles(Some(a + b)).value == MapRoles(Some(a)).value + MapRoles(Some(b)).value
    ensures MapPermissions(Some(a + b)).value == MapPermissions(Some(a)).value + MapPermissions(Some(b)).value
  {
    var l := MapRoles(Some(a + b)).value;
    var r := MapRoles(Some(a)).value + MapRoles(Some(b)).value;
    forall n | n in r ensures n in l {
      if n in MapRoles(Some(a)).value {
        var x :| x in a && x.name == n;
        assert x in a + b;
      } else {
        var x :| x in b && x.name == n;
        assert x in a + b;
      }
    }
    var pl := MapPermissions(Some(a + b)).value;
    var pr := MapPermissions(Some(a)).value + MapPermissions(Some(b)).value;
    forall n | n in pr ensures n in pl {
      if n in MapPermissions(Some(a)).value {
        var x :| x in a && n in x.permissionNames;
        assert x in a + b;
      } else {
        var x :| x in b && n in x.permissionNames;
        assert x in a + b;
      }
    }
  }

  /** A resolved role's own name and permission names are among the
    * flattened sets. */
  lemma ResolvedRoleFlattened(roleIds: set<nat>, roles: RoleRepository.Rows, perms: PermissionRepository.Rows,
                              r: nat, p: nat)
    requires r in roleIds && r in roles
    ensures roles[r].name in MapRoles(Some(ResolveRoles(roleIds, roles, perms))).value
    ensures p in roles[r].permissions && p in perms ==>
      perms[p].name in MapPermissions(Some(ResolveRoles(roleIds, roles, perms))).value
  {
    var v := RoleView(roles[r].name, set q | q in roles[r].permissions && q in perms :: perms[q].name);
    assert v in ResolveRoles(roleIds, roles, perms);
    if p in roles[r].permissions && p in perms {
      assert perms[p].name in v.permissionNames;
    }
  }

  /** The response's last-login text is "" exactly when there was no
    * login (given a renderer that never yields ""), its phone is the
    * user's phone number, and without a profile every profile field is
    * null. */
  lemma ResponseDefaults(id: nat, u: UserRecord, roles: set<RoleView>, show: nat -> string)
    requires u.createdAt.Some?
    requires forall t :: show(t) != ""
    ensures ToUserResponse(id, u, roles, None, show).Ok?
    ensures var r := ToUserResponse(id, u, roles, None, show).value;
      && (r.lastLoginAt == "" <==> u.lastLoginAt.None?)
      && r.phone == u.phoneNumber
      && r.fullName.None? && r.avatarUrl.None? && r.country.None? && r.genres.None?
      && r.status == StatusName(u.status)
  {
  }
}
