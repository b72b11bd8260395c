/**
 * `SysRoleService`: creating, updating, deleting and listing roles, granting
 * a role its menus and its data scope, and setting its status. The role
 * table and the role-menu, role-organisation and user-role link tables are
 * one immutable `Store`; the process cache is the filter layer's `Cache`.
 */
module SysRoleService {
  import opened Common
  import opened Text
  import opened SqlSugarFilter

  /** Code of the built-in administrator role, which cannot be deleted. */
  const SysAdminRole: string := "sys_admin"

  /** `ErrorCodeEnum` members the service raises; `RoleNotFound` is the null dereference of a missing role. */
  datatype ErrorCode =
    | D1002  // record not found
    | D1006  // a role with this name and code exists
    | D1016  // data scope beyond the caller's rights
    | D1019  // the administrator role cannot be deleted
    | D1025  // the role still has users
    | D3005  // status is not a `StatusEnum` member
    | RoleNotFound

  datatype Role = Role(
    id: int64,
    name: string,
    code: string,
    orderNo: int,
    dataScope: int,
    status: int,
    remark: Option<string>,
    createUserId: Option<int64>)

  datatype RoleMenu = RoleMenu(roleId: int64, menuId: int64)
  datatype RoleOrg = RoleOrg(roleId: int64, orgId: int64)
  datatype UserRole = UserRole(userId: int64, roleId: int64)

  /** The tables the service touches; `menuParents` maps a menu id to its parent id (0 for a top-level menu). */
  datatype Store = Store(
    roles: map<int64, Role>,
    menuParents: map<int64, int64>,
    roleMenus: set<RoleMenu>,
    roleOrgs: set<RoleOrg>,
    userRoles: set<UserRole>)

  /** Every role is stored under its own id. */
  predicate StoreWellKeyed(s: Store) {
    forall k | k in s.roles :: s.roles[k].id == k
  }

  /** The signed-in user: id and whether they are the super administrator. */
  datatype Caller = Caller(userId: int64, superAdmin: bool)

  /** `AddRoleInput` / `UpdateRoleInput`: the role's fields and the menus to grant (`None` for `null`). */
  datatype RoleInput = RoleInput(
    id: int64,
    name: string,
    code: string,
    orderNo: int,
    dataScope: int,
    status: int,
    remark: Option<string>,
    menuIdList: Option<seq<int64>>)

  /** `RoleOrgInput`: the role, the data scope to grant and the organisations of a custom scope. */
  datatype RoleOrgInput = RoleOrgInput(id: int64, dataScope: int, orgIdList: seq<int64>)

  // ---------------------------------------------------------------------------
  // Link tables
  // ---------------------------------------------------------------------------

  /** `GetOwnMenuList`: the menus granted to a role. */
  function OwnMenus(s: Store, roleId: int64): (r: set<int64>)
    ensures forall m :: m in r <==> RoleMenu(roleId, m) in s.roleMenus
  {
    set rm | rm in s.roleMenus && rm.roleId == roleId :: rm.menuId
  }

  /** `GetOwnOrgList`: the organisations granted to a role. */
  function OwnOrgs(s: Store, roleId: int64): (r: set<int64>)
    ensures forall o :: o in r <==> RoleOrg(roleId, o) in s.roleOrgs
  {
    set ro | ro in s.roleOrgs && ro.roleId == roleId :: ro.orgId
  }

  /** `GetUserIdList`: the users holding a role. */
  function UsersOfRole(s: Store, roleId: int64): set<int64> {
    set ur | ur in s.userRoles && ur.roleId == roleId :: ur.userId
  }

  /** `GetUserRoleIdList`: the roles a user holds. */
  function RolesOfUser(s: Store, userId: int64): set<int64> {
    set ur | ur in s.userRoles && ur.userId == userId :: ur.roleId
  }

  /** `GrantRoleMenu`: the role's menus become exactly `menuIds`; other roles' rows stay. */
  function GrantMenu(s: Store, roleId: int64, menuIds: seq<int64>): (r: Store)
    ensures OwnMenus(r, roleId) == set m | m in menuIds
    ensures forall rm: RoleMenu | rm.roleId != roleId :: rm in r.roleMenus <==> rm in s.roleMenus
    ensures r == s.(roleMenus := r.roleMenus)
  {
    var kept := set rm | rm in s.roleMenus && rm.roleId != roleId;
    var granted := set m | m in menuIds :: RoleMenu(roleId, m);
    var r := s.(roleMenus := kept + granted);
    assert forall m :: m in OwnMenus(r, roleId) <==> m in menuIds by {
      forall m ensures m in OwnMenus(r, roleId) <==> m in menuIds {
        if m in menuIds {
          assert RoleMenu(roleId, m) in r.roleMenus;
        }
      }
    }
    r
  }

  /**
   * `GrantRoleOrg`: the role's organisations become those of `orgIds` when
   * the scope is Define and none otherwise; other roles' rows stay.
   */
  function GrantOrg(s: Store, roleId: int64, dataScope: int, orgIds: seq<int64>): (r: Store)
    ensures OwnOrgs(r, roleId) == if dataScope == DataScopeDefine then set o | o in orgIds else {}
    ensures forall ro: RoleOrg | ro.roleId != roleId :: ro in r.roleOrgs <==> ro in s.roleOrgs
    ensures r == s.(roleOrgs := r.roleOrgs)
  {
    var kept := set ro | ro in s.roleOrgs && ro.roleId != roleId;
    var granted := if dataScope == DataScopeDefine then set o | o in orgIds :: RoleOrg(roleId, o) else {};
    var r := s.(roleOrgs := kept + granted);
    assert forall o :: o in OwnOrgs(r, roleId) <==> dataScope == DataScopeDefine && o in orgIds by {
      forall o ensures o in OwnOrgs(r, roleId) <==> dataScope == DataScopeDefine && o in orgIds {
        if dataScope == DataScopeDefine && o in orgIds {
          assert RoleOrg(roleId, o) in r.roleOrgs;
        }
      }
    }
    r
  }

  /** The top-level menus among `ids`: those whose parent is 0. */
  function TopLevelMenus(s: Store, ids: seq<int64>): set<int64> {
    set m | m in ids && m in s.menuParents && s.menuParents[m] == 0
  }

  /**
   * `UpdateRoleMenu`: a missing or empty list changes nothing; otherwise the
   * role's menus become the listed ones minus the top-level menus.
   */
  function UpdateRoleMenu(s: Store, roleId: int64, menuIdList: Option<seq<int64>>): (r: Store)
    ensures menuIdList.None? || |menuIdList.value| == 0 ==> r == s
    ensures menuIdList.Some? && |menuIdList.value| > 0 ==>
      forall m :: m in OwnMenus(r, roleId) <==>
        m in menuIdList.value && !(m in s.menuParents && s.menuParents[m] == 0)
    ensures forall rm: RoleMenu | rm.roleId != roleId :: rm in r.roleMenus <==> rm in s.roleMenus
    ensures r == s.(roleMenus := r.roleMenus)
  {
    if menuIdList.None? || |menuIdList.value| < 1 then s
    else
      var top := TopLevelMenus(s, menuIdList.value);
      GrantMenu(s, roleId, Filter(menuIdList.value, (m: int64) => m !in top))
  }

  // ---------------------------------------------------------------------------
  // Role table
  // ---------------------------------------------------------------------------

  predicate NameAndCodeTaken(s: Store, name: string, code: string, except: Option<int64>) {
    exists k | k in s.roles :: s.roles[k].name == name && s.roles[k].code == code && Some(k) != except
  }

  /**
   * `AddRole`: refuses a name and code pair already in use; otherwise inserts
   * the role under the id the generator chose, recording the caller as its
   * creator, and grants its menus.
   */
  function AddRole(s: Store, caller: Caller, newId: int64, input: RoleInput): (r: Result<Store, ErrorCode>)
    requires newId !in s.roles
    ensures r.Err? <==> NameAndCodeTaken(s, input.name, input.code, None)
    ensures r.Err? ==> r.error == D1006
    ensures r.Ok? ==> var t := r.value;
      && t.roles.Keys == s.roles.Keys + {newId}
      && (forall k | k in s.roles :: t.roles[k] == s.roles[k])
      && var added := t.roles[newId];
      && added.id == newId && added.name == input.name && added.code == input.code
      && added.orderNo == input.orderNo && added.dataScope == input.dataScope && added.status == input.status
      && added.remark == input.remark && added.createUserId == Some(caller.userId)
      && t == UpdateRoleMenu(s.(roles := t.roles), newId, input.menuIdList)
    ensures r.Ok? && StoreWellKeyed(s) ==> StoreWellKeyed(r.value)
  {
    if NameAndCodeTaken(s, input.name, input.code, None) then Err(D1006)
    else
      var role := Role(newId, input.name, input.code, input.orderNo, input.dataScope, input.status, input.remark, Some(caller.userId));
      Ok(UpdateRoleMenu(s.(roles := s.roles[newId := role]), newId, input.menuIdList))
  }

  /**
   * `UpdateRole`: refuses a name and code pair another role uses; otherwise
   * writes the input's columns over the role, leaving the data scope, the
   * creator and a remark the input leaves null as they were, then updates
   * its menus. An id with no role updates no row but still grants menus.
   */
  function UpdateRole(s: Store, input: RoleInput): (r: Result<Store, ErrorCode>)
    ensures r.Err? <==> NameAndCodeTaken(s, input.name, input.code, Some(input.id))
    ensures r.Err? ==> r.error == D1006
    ensures r.Ok? ==> var t := r.value;
      && t.roles.Keys == s.roles.Keys
      && (forall k | k in s.roles && k != input.id :: t.roles[k] == s.roles[k])
      && (input.id in s.roles ==>
            var before := s.roles[input.id];
            var after := t.roles[input.id];
            && after.id == before.id && after.dataScope == before.dataScope && after.createUserId == before.createUserId
            && after.name == input.name && after.code == input.code
            && after.orderNo == input.orderNo && after.status == input.status
            && after.remark == (if input.remark.Some? then input.remark else before.remark))
      && t == UpdateRoleMenu(s.(roles := t.roles), input.id, input.menuIdList)
    ensures r.Ok? && StoreWellKeyed(s) ==> StoreWellKeyed(r.value)
  {
    if NameAndCodeTaken(s, input.name, input.code, Some(input.id)) then Err(D1006)
    else
      var roles :=
        if input.id in s.roles then
          var before := s.roles[input.id];
          s.roles[input.id := before.(name := input.name, code := input.code, orderNo := input.orderNo,
                                      status := input.status, remark := if input.remark.Some? then input.remark else before.remark)]
        else s.roles;
      Ok(UpdateRoleMenu(s.(roles := roles), input.id, input.menuIdList))
  }

  /**
   * `DeleteRole`: a missing role is D1002, the administrator role D1019 and
   * a role with users D1025, checked in that order; otherwise the role and
   * every link row naming it are removed.
   */
  function DeleteRole(s: Store, id: int64): (r: Result<Store, ErrorCode>)
    ensures id !in s.roles ==> r == Err(D1002)
    ensures id in s.roles && s.roles[id].code == SysAdminRole ==> r == Err(D1019)
    ensures id in s.roles && s.roles[id].code != SysAdminRole && UsersOfRole(s, id) != {} ==> r == Err(D1025)
    ensures r.Ok? <==> id in s.roles && s.roles[id].code != SysAdminRole && UsersOfRole(s, id) == {}
    ensures r.Ok? ==> var t := r.value;
      && t.roles == s.roles - {id}
      && t.menuParents == s.menuParents
      && (forall rm :: rm in t.roleMenus <==> rm in s.roleMenus && rm.roleId != id)
      && (forall ro :: ro in t.roleOrgs <==> ro in s.roleOrgs && ro.roleId != id)
      && (forall ur :: ur in t.userRoles <==> ur in s.userRoles && ur.roleId != id)
  {
    if id !in s.roles then Err(D1002)
    else if s.roles[id].code == SysAdminRole then Err(D1019)
    else if |UsersOfRole(s, id)| > 0 then Err(D1025)
    else
      Ok(Store(
        s.roles - {id},
        s.menuParents,
        set rm | rm in s.roleMenus && rm.roleId != id,
        set ro | ro in s.roleOrgs && ro.roleId != id,
        set ur | ur in s.userRoles && ur.roleId != id))
  }

  /** `Enum.IsDefined(typeof(StatusEnum), status)`. */
  predicate IsStatus(status: int) {
    status == StatusEnable || status == StatusDisable
  }

  /**
   * `SetStatus`: refuses a value outside `StatusEnum`; otherwise sets the
   * status of the role with that id and returns the number of rows changed.
   */
  function SetStatus(s: Store, id: int64, status: int): (r: Result<(Store, nat), ErrorCode>)
    ensures r.Err? <==> !IsStatus(status)
    ensures r.Err? ==> r.error == D3005
    ensures r.Ok? ==> var (t, affected) := r.value;
      && (affected == 1 <==> id in s.roles)
      && affected <= 1
      && t.roles.Keys == s.roles.Keys
      && (id in s.roles ==> t.roles[id] == s.roles[id].(status := status))
      && (forall k | k in s.roles && k != id :: t.roles[k] == s.roles[k])
      && t == s.(roles := t.roles)
  {
    if !IsStatus(status) then Err(D3005)
    else if id in s.roles then Ok((s.(roles := s.roles[id := s.roles[id].(status := status)]), 1))
    else Ok((s, 0))
  }

  // ---------------------------------------------------------------------------
  // Data scope
  // ---------------------------------------------------------------------------

  /** The cache without the organisation entries of every user in `users`. */
  function EvictUsers(cache: Cache, users: set<int64>, configId: string): (r: Cache)
    ensures forall u, k | u in users && k in UserOrgCacheKeys(u, configId) :: k !in r
    ensures forall k | k in cache && (forall u | u in users :: k !in UserOrgCacheKeys(u, configId)) :: k in r && r[k] == cache[k]
    ensures r.Keys <= cache.Keys
  {
    map k | k in cache && (forall u | u in users :: k !in UserOrgCacheKeys(u, configId)) :: cache[k]
  }

  lemma EvictOneMore(cache: Cache, users: set<int64>, u: int64, configId: string)
    ensures DeleteUserOrgCache(EvictUsers(cache, users, configId), u, configId) == EvictUsers(cache, users + {u}, configId)
  {
    var a := DeleteUserOrgCache(EvictUsers(cache, users, configId), u, configId);
    var b := EvictUsers(cache, users + {u}, configId);
    assert a.Keys == b.Keys;
  }

  /** The ids a list holds. */
  function Elements(xs: seq<int64>): set<int64> {
    set u | u in xs
  }

  lemma PrefixElements(xs: seq<int64>, i: nat)
    requires i < |xs|
    ensures Elements(xs[..i + 1]) == Elements(xs[..i]) + {xs[i]}
  {
    assert xs[..i + 1] == xs[..i] + [xs[i]];
  }

  /** The loop that evicts a role's users one by one leaves the cache `EvictUsers` describes. */
  method EvictRoleUsers(cache: Cache, userIds: seq<int64>, configId: string) returns (r: Cache)
    ensures r == EvictUsers(cache, Elements(userIds), configId)
  {
    r := cache;
    assert EvictUsers(cache, {}, configId) == cache;
    for i := 0 to |userIds|
      invariant r == EvictUsers(cache, Elements(userIds[..i]), configId)
    {
      EvictOneMore(cache, Elements(userIds[..i]), userIds[i], configId);
      PrefixElements(userIds, i);
      r := DeleteUserOrgCache(r, userIds[i], configId);
    }
    assert userIds[..|userIds|] == userIds;
  }

  /** Why a caller who is not the super administrator may not grant this scope. */
  predicate ExceedsCallerRights(caller: Caller, input: RoleOrgInput, callerOrgs: seq<int64>) {
    && !caller.superAdmin
    && (|| input.dataScope == DataScopeAll
        || (&& input.dataScope == DataScopeDefine
            && |input.orgIdList| > 0
            && (|callerOrgs| == 0 || exists o | o in input.orgIdList :: o !in callerOrgs)))
  }

  datatype GrantOutcome = GrantOutcome(cache: Cache, result: Result<Store, ErrorCode>)

  /**
   * `GrantDataScope`: first evicts the organisation entries of every user of
   * the role, then refuses a scope beyond the caller's rights (All, or
   * organisations outside the caller's `callerOrgs`), then sets the role's
   * data scope and replaces its organisations.
   */
  function GrantDataScope(s: Store, cache: Cache, caller: Caller, configId: string,
                          callerOrgs: seq<int64>, input: RoleOrgInput): (r: GrantOutcome)
    ensures r.cache == EvictUsers(cache, UsersOfRole(s, input.id), configId)
    ensures r.result == Err(D1016) <==> ExceedsCallerRights(caller, input, callerOrgs)
    ensures r.result == Err(RoleNotFound) <==> !ExceedsCallerRights(caller, input, callerOrgs) && input.id !in s.roles
    ensures r.result.Ok? <==> !ExceedsCallerRights(caller, input, callerOrgs) && input.id in s.roles
    ensures r.result.Ok? ==> var t := r.result.value;
      && t.roles == s.roles[input.id := s.roles[input.id].(dataScope := input.dataScope)]
      && OwnOrgs(t, input.id) == (if input.dataScope == DataScopeDefine then set o | o in input.orgIdList else {})
      && (forall ro: RoleOrg | ro.roleId != input.id :: ro in t.roleOrgs <==> ro in s.roleOrgs)
      && t.roleMenus == s.roleMenus && t.userRoles == s.userRoles && t.menuParents == s.menuParents
  {
    var evicted := EvictUsers(cache, UsersOfRole(s, input.id), configId);
    if ExceedsCallerRights(caller, input, callerOrgs) then GrantOutcome(evicted, Err(D1016))
    else if input.id !in s.roles then GrantOutcome(evicted, Err(RoleNotFound))
    else
      var role := s.roles[input.id].(dataScope := input.dataScope);
      GrantOutcome(evicted, Ok(GrantOrg(s.(roles := s.roles[input.id := role]), input.id, input.dataScope, input.orgIdList)))
  }

  // ---------------------------------------------------------------------------
  // Listing
  // ---------------------------------------------------------------------------

  /** `Page` without ordering and paging: the roles the caller may see under the name and code filters. */
  function PageRoles(s: Store, caller: Caller, name: Option<string>, code: Option<string>): (r: set<int64>)
    ensures r <= ListRoles(s, caller)
    ensures !caller.superAdmin ==> forall k | k in r :: s.roles[k].createUserId == Some(caller.userId)
    ensures forall k | k in r :: && (IsNullOrWhiteSpace(name) || Contains(s.roles[k].name, name.value))
                                 && (IsNullOrWhiteSpace(code) || Contains(s.roles[k].code, code.value))
    ensures forall k | k in s.roles && (caller.superAdmin || s.roles[k].createUserId == Some(caller.userId))
                       && (IsNullOrWhiteSpace(name) || Contains(s.roles[k].name, name.value))
                       && (IsNullOrWhiteSpace(code) || Contains(s.roles[k].code, code.value)) :: k in r
    ensures caller.superAdmin && IsNullOrWhiteSpace(name) && IsNullOrWhiteSpace(code) ==> r == s.roles.Keys
  {
    set k | k in s.roles
      && (caller.superAdmin || s.roles[k].createUserId == Some(caller.userId))
      && (IsNullOrWhiteSpace(name) || Contains(s.roles[k].name, name.value))
      && (IsNullOrWhiteSpace(code) || Contains(s.roles[k].code, code.value))
  }

  /** `GetList` without ordering: all roles for the super administrator, else those the caller created or holds. */
  function ListRoles(s: Store, caller: Caller): (r: set<int64>)
    ensures r <= s.roles.Keys
    ensures caller.superAdmin ==> r == s.roles.Keys
    ensures !caller.superAdmin ==> forall k | k in r ::
      s.roles[k].createUserId == Some(caller.userId) || k in RolesOfUser(s, caller.userId)
    ensures forall k | k in s.roles && k in RolesOfUser(s, caller.userId) :: k in r
    ensures forall k | k in s.roles && s.roles[k].createUserId == Some(caller.userId) :: k in r
  {
    if caller.superAdmin then s.roles.Keys
    else set k | k in s.roles && (s.roles[k].createUserId == Some(caller.userId) || k in RolesOfUser(s, caller.userId))
  }

  // ---------------------------------------------------------------------------
  // Properties
  // ---------------------------------------------------------------------------

  /** A caller who is not the super administrator pages only through roles they created. */
  lemma PageShowsOwnRolesOnly(s: Store, caller: Caller, name: Option<string>, code: Option<string>)
    requires !caller.superAdmin
    ensures forall k | k in PageRoles(s, caller, name, code) :: k in s.roles && s.roles[k].createUserId == Some(caller.userId)
    ensures PageRoles(s, caller, name, code) <= ListRoles(s, caller)
  {
  }

  /** With blank filters the super administrator pages through every role. */
  lemma SuperAdminPagesAll(s: Store, caller: Caller, name: Option<string>, code: Option<string>)
    requires caller.superAdmin && IsNullOrWhiteSpace(name) && IsNullOrWhiteSpace(code)
    ensures PageRoles(s, caller, name, code) == s.roles.Keys == ListRoles(s, caller)
  {
  }

  /** A name filter equal to a role's whole name keeps that role. */
  lemma PageNameFilterKeepsExactName(s: Store, caller: Caller, k: int64, code: Option<string>)
    requires k in s.roles && (caller.superAdmin || s.roles[k].createUserId == Some(caller.userId))
    requires IsNullOrWhiteSpace(code)
    ensures k in PageRoles(s, caller, Some(s.roles[k].name), code)
  {
    ContainsSubstring(s.roles[k].name, s.roles[k].name, 0);
  }

  /**
   * The name filter is sound: every role on a page filtered by a non-blank
   * name holds the filter text somewhere in its name.
   */
  lemma PageNameFilterSound(s: Store, caller: Caller, name: string, code: Option<string>, k: int64)
    requires !IsBlank(name) && k in PageRoles(s, caller, Some(name), code)
    ensures exists i | 0 <= i :: OccursAt(s.roles[k].name, name, i)
  {
    ContainsFound(s.roles[k].name, name);
  }

  /** A caller who is not the super administrator lists only roles they created or hold. */
  lemma ListShowsOwnOrHeldOnly(s: Store, caller: Caller, k: int64)
    requires !caller.superAdmin && k in ListRoles(s, caller)
    ensures k in s.roles
    ensures s.roles[k].createUserId == Some(caller.userId) || UserRole(caller.userId, k) in s.userRoles
  {
    if s.roles[k].createUserId != Some(caller.userId) {
      var ur :| ur in s.userRoles && ur.userId == caller.userId && ur.roleId == k;
      assert ur == UserRole(caller.userId, k);
    }
  }

  /** The role a caller adds is on their page and in their list. */
  lemma AddedRoleVisibleToCreator(s: Store, caller: Caller, newId: int64, input: RoleInput)
    requires newId !in s.roles
    requires AddRole(s, caller, newId, input).Ok?
    ensures var t := AddRole(s, caller, newId, input).value;
      && newId in PageRoles(t, caller, None, None)
      && newId in ListRoles(t, caller)
  {
  }

  /** Granting menus and reading them back gives the granted set. */
  lemma GrantMenuReadBack(s: Store, roleId: int64, menuIds: seq<int64>, other: int64)
    requires other != roleId
    ensures OwnMenus(GrantMenu(s, roleId, menuIds), roleId) == set m | m in menuIds
    ensures OwnMenus(GrantMenu(s, roleId, menuIds), other) == OwnMenus(s, other)
  {
    var t := GrantMenu(s, roleId, menuIds);
    assert forall m :: m in OwnMenus(t, other) <==> m in OwnMenus(s, other) by {
      forall m ensures m in OwnMenus(t, other) <==> m in OwnMenus(s, other) {
        if m in OwnMenus(s, other) {
          assert RoleMenu(other, m) in s.roleMenus;
        }
        if m in OwnMenus(t, other) {
          assert RoleMenu(other, m) in t.roleMenus;
        }
      }
    }
  }

  /** A top-level menu in the list is never granted. */
  lemma TopLevelMenuNeverGranted(s: Store, roleId: int64, menuIds: seq<int64>, m: int64)
    requires |menuIds| > 0 && m in s.menuParents && s.menuParents[m] == 0
    ensures m !in OwnMenus(UpdateRoleMenu(s, roleId, Some(menuIds)), roleId)
  {
  }

  /**
   * A caller who is not the super administrator can neither grant the scope
   * All nor a custom scope over organisations outside their own.
   */
  lemma GrantStaysWithinCallerRights(s: Store, cache: Cache, caller: Caller, configId: string,
                                     callerOrgs: seq<int64>, input: RoleOrgInput)
    requires !caller.superAdmin
    requires GrantDataScope(s, cache, caller, configId, callerOrgs, input).result.Ok?
    ensures var t := GrantDataScope(s, cache, caller, configId, callerOrgs, input).result.value;
      && t.roles[input.id].dataScope != DataScopeAll
      && OwnOrgs(t, input.id) <= set o | o in callerOrgs
  {
  }

  /** A refused grant still evicts the cached organisation data of the role's users. */
  lemma RefusedGrantStillEvicts(s: Store, cache: Cache, caller: Caller, configId: string,
                                callerOrgs: seq<int64>, input: RoleOrgInput, u: int64)
    requires ExceedsCallerRights(caller, input, callerOrgs)
    requires u in UsersOfRole(s, input.id)
    ensures var r := GrantDataScope(s, cache, caller, configId, callerOrgs, input);
      && r.result == Err(D1016)
      && MaxDataScopeKey(ObjectExtension.FormatInt64(u)) !in r.cache
      && OrgListKey(configId, ObjectExtension.FormatInt64(u)) !in r.cache
  {
    assert MaxDataScopeKey(ObjectExtension.FormatInt64(u)) in UserOrgCacheKeys(u, configId);
    assert OrgListKey(configId, ObjectExtension.FormatInt64(u)) in UserOrgCacheKeys(u, configId);
  }

  /** A deleted role leaves no role-menu, role-organisation or user-role row behind. */
  lemma DeleteLeavesNoLinks(s: Store, id: int64)
    requires DeleteRole(s, id).Ok?
    ensures var t := DeleteRole(s, id).value;
      id !in t.roles && OwnMenus(t, id) == {} && OwnOrgs(t, id) == {} && UsersOfRole(t, id) == {}
  {
  }

  /** Setting a valid status twice is the same as setting it once. */
  lemma SetStatusIdempotent(s: Store, id: int64, status: int)
    requires IsStatus(status)
    ensures SetStatus(SetStatus(s, id, status).value.0, id, status).value.0 == SetStatus(s, id, status).value.0
  {
  }
}
