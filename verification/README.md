# Yuonie data-access core in Dafny

A model of the multi-tenant data-access core of the Yuonie .NET backend:
how a repository picks the database connection it works on (main, log, a
`[Tenant]`-tagged database, or the caller's tenant database, created on
first use), how the row filters "own rows only", "rows of my organisations"
and custom provider filters are built per user and memoised in the process
cache, how a role's data scope is granted and the affected users' cached
filters evicted, the role service's other rules (duplicate names, protected
administrator role, cascading deletes, status codes, visibility of roles),
the lenient `ObjToLong` conversion, the reflection test
`HasImplementedRawGeneric`, the post-configuration of the connection and
cache options, and the sort-clause builder.

Everything is immutable data and pure functions, apart from two loops
written as methods (`HasImplementedRawGeneric` and the eviction loop of
`GrantDataScope`). The ORM's connection registry is a map from config id to
configuration, a scope is known by its config id, the attached query
filters are a set (they are conjoined), and the process cache is a map
from a key datatype to cached values. Library calls the core cannot see
(SM2 decryption, JSON validation and deserialisation, the organisation
service's list of visible organisations, the id generator) are parameters.

One module per source file: `Common` (options, results, `long` range,
fixed config ids), `Text` (.NET white space, `Trim`, `Join`, `Split`,
`Contains`), `ObjectExtension`, `DbConnectionOptions`, `CacheOptions`,
`SqlSugarOrderBuilder`, `EntityModel` (what reflection tells about an
entity class), `ConnectionRegistry` (SqlSugar's `ITenant`),
`SysTenantService`, `SqlSugarRepository`, `SqlSugarFilter`,
`SysRoleService`.

## Model

| member | source | states |
|---|---|---|
| ObjectExtension.FormatInt64 | Yuonie.Net/Yuonie.NET.Core/Service/Tenant/SysTenantService.cs:38 | the text of a `long` is non-empty, starts with a minus sign or a digit and ends with a digit |
| ObjectExtension.ParseInt64 | Yuonie.Net/Yuonie.NET.Core/Extension/ObjectExtension.cs:50 | text that parses holds a digit and nothing but number white space, signs and digits |
| ObjectExtension.ParseFormatRoundTrip | Yuonie.Net/Yuonie.NET.Core/Extension/ObjectExtension.cs:50 | `long.TryParse` of the text of any `long` gives that `long` back |
| ObjectExtension.ParseOutOfRange | Yuonie.Net/Yuonie.NET.Core/Extension/ObjectExtension.cs:50 | digit strings beyond the `long` range do not parse, signed or not |
| ObjectExtension.ParseIgnoresNumberWhite | Yuonie.Net/Yuonie.NET.Core/Extension/ObjectExtension.cs:50 | white space around a number does not change what it parses to |
| ObjectExtension.ObjToLong | Yuonie.Net/Yuonie.NET.Core/Extension/ObjectExtension.cs:47-56 | a non-zero result comes only from a value other than null and `DBNull` whose text parses, and is that number; parseable text always yields its number |
| ObjectExtension.ObjToLongRoundTrip | Yuonie.Net/Yuonie.NET.Core/Extension/ObjectExtension.cs:47-56 | converting the text of any `long` gives that `long` |
| ObjectExtension.ObjToLongDefaults | Yuonie.Net/Yuonie.NET.Core/Extension/ObjectExtension.cs:49-55 | null, `DBNull`, blank text and out-of-range digits all give 0 |
| ObjectExtension.FindRawAmong | Yuonie.Net/Yuonie.NET.Core/Extension/ObjectExtension.cs:26-27 | true exactly when one of the interfaces is the generic, raw or as its generic definition |
| ObjectExtension.FindRawOnLineage | Yuonie.Net/Yuonie.NET.Core/Extension/ObjectExtension.cs:30-35 | true exactly when a type on the walk up the base types, stopping at `object`, is the generic in raw form |
| ObjectExtension.HasImplementedRawGeneric | Yuonie.Net/Yuonie.NET.Core/Extension/ObjectExtension.cs:23-41 | true exactly when an interface or a type on the base walk is the generic in raw form |
| ObjectExtension.BaseClassMatchInherited | Yuonie.Net/Yuonie.NET.Core/Extension/ObjectExtension.cs:30-35 | a raw generic on the base class's walk is also found for the derived class |
| DbConnectionOptions.PostConfigure | Yuonie.Net/Yuonie.NET.Core/Option/DbConnectionOptions.cs:23-30 | every configuration with a null or blank id gets the main id, every other one is untouched, the list keeps its length and order |
| DbConnectionOptions.PostConfigureIdempotent | Yuonie.Net/Yuonie.NET.Core/Option/DbConnectionOptions.cs:23-30 | post-configuring twice is the same as once |
| CacheOptions.PostConfigure | Yuonie.Net/Yuonie.NET.Core/Option/CacheOptions.cs:19-22 | the prefix becomes empty exactly when it was null or blank, else its trimmed form with no white space at either end; other options are untouched |
| CacheOptions.PostConfigureIdempotent | Yuonie.Net/Yuonie.NET.Core/Option/CacheOptions.cs:19-22 | post-configuring twice is the same as once |
| SqlSugarOrderBuilder.OrderBuilder | Yuonie.Net/Yuonie.NET.Core/SqlSugar/SqlSugarOrderBuilder.cs:12-16 | the query is unchanged exactly when there are no sort fields, otherwise one clause is appended after the existing ones |
| SqlSugarOrderBuilder.DefaultOrdersNothing | Yuonie.Net/Yuonie.NET.Core/SqlSugar/BasePageInput.cs:12-24 | a page input with its default values adds no ordering |
| SqlSugarOrderBuilder.SingleFieldVerbatim | Yuonie.Net/Yuonie.NET.Core/SqlSugar/SqlSugarOrderBuilder.cs:14 | a single sort field becomes the clause as written |
| SqlSugarOrderBuilder.ClauseListsFieldsInOrder | Yuonie.Net/Yuonie.NET.Core/SqlSugar/SqlSugarOrderBuilder.cs:14 | splitting the clause at commas gives the fields back in order, when no field holds a comma |
| SqlSugarOrderBuilder.AppendedFieldComesLast | Yuonie.Net/Yuonie.NET.Core/SqlSugar/SqlSugarOrderBuilder.cs:14 | one more field adds a comma and that field at the end of the clause |
| ConnectionRegistry.GetConnectionScope | Yuonie.Net/Yuonie.NET.Core/SqlSugar/SqlSugarRepository.cs:17 | a scope is handed out exactly for a registered config id, bound to that id; otherwise "config id not found" |
| ConnectionRegistry.AddConnection | Yuonie.Net/Yuonie.NET.Core/Service/Tenant/SysTenantService.cs:64 | the new id is registered, every existing connection stays as it was, and ids keep matching their configurations |
| SysTenantService.GetTenantDbList | Yuonie.Net/Yuonie.NET.Core/Service/Tenant/SysTenantService.cs:24-27 | a tenant is listed exactly when it is isolated by database and enabled |
| SysTenantService.FindCachedTenant | Yuonie.Net/Yuonie.NET.Core/Service/Tenant/SysTenantService.cs:44-45 | no cached list gives null; a list without the id throws; otherwise the tenant found is the first one in the list with the id |
| SysTenantService.SlaveConfigs | Yuonie.Net/Yuonie.NET.Core/Service/Tenant/SysTenantService.cs:62 | null or invalid JSON gives no slaves; valid JSON gives exactly the deserialised list, and fails exactly when deserialisation throws |
| SysTenantService.TenantConnectionConfig | Yuonie.Net/Yuonie.NET.Core/Service/Tenant/SysTenantService.cs:52-63 | the tenant's configuration has the tenant id as config id, its database type, auto-close on, the decrypted connection string, the main database's naming convention and its slaves, with no connection id and the other database settings off; it succeeds exactly when decryption and the slave list succeed, and otherwise names which one failed |
| SysTenantService.MaterialiseLocked | Yuonie.Net/Yuonie.NET.Core/Service/Tenant/SysTenantService.cs:41-71 | without a cached list it returns null; a list without the id, or no main configuration, is an error; it returns the tenant's scope exactly when the first matching tenant and the first main configuration give a configuration, and then registers exactly that configuration under the tenant's id (unless the id is already registered); it never changes a registered connection |
| SysTenantService.GetTenantDbConnectionScope | Yuonie.Net/Yuonie.NET.Core/Service/Tenant/SysTenantService.cs:33-72 | a registered tenant's scope is returned with the registry unchanged; for an unregistered tenant it returns null only without a cached list; with a list it returns the tenant's scope exactly when a configuration can be built, and the registry then gains exactly that configuration under the tenant's id; otherwise it fails: a list without the id (`First` throws), no main configuration, or the build's own error |
| SysTenantService.NewTenantRegistered | Yuonie.Net/Yuonie.NET.Core/Service/Tenant/SysTenantService.cs:41-71 | a tenant seen for the first time gets a connection registered under its id with its decrypted connection string, its database type, auto-close on and the main database's naming convention, and its scope is returned |
| SysTenantService.SecondCallTakesFastPath | Yuonie.Net/Yuonie.NET.Core/Service/Tenant/SysTenantService.cs:37-39 | once materialised, asking again returns the same scope and adds nothing, whatever the cache or configuration say |
| SysTenantService.LockedSectionDoesNotRecheck | Yuonie.Net/Yuonie.NET.Core/Service/Tenant/SysTenantService.cs:41-45 | the locked section does not look at the registry: for a registered tenant and no cached list it returns null where the fast path returns the scope |
| SysTenantService.LockedSectionKeepsRegisteredConfig | Yuonie.Net/Yuonie.NET.Core/Service/Tenant/SysTenantService.cs:41-64 | running the locked section for a registered tenant leaves the registry as it was |
| SqlSugarRepository.ResolveScope | Yuonie.Net/Yuonie.NET.Core/SqlSugar/SqlSugarRepository.cs:14-50 | an unregistered main database is an error, and so is an unregistered `[Tenant]` config id; the bound scope is always registered, and the registry only grows |
| SqlSugarRepository.TenantTagDecides | Yuonie.Net/Yuonie.NET.Core/SqlSugar/SqlSugarRepository.cs:20-24 | a `[Tenant]`-tagged entity binds to its tag's scope, independent of claim, cache and configuration |
| SqlSugarRepository.LogTableBinding | Yuonie.Net/Yuonie.NET.Core/SqlSugar/SqlSugarRepository.cs:27-33 | a `[LogTable]` entity binds to the log database when registered, else to the main one |
| SqlSugarRepository.SysTableBinding | Yuonie.Net/Yuonie.NET.Core/SqlSugar/SqlSugarRepository.cs:36-40 | a `[SysTable]` entity binds to the main database |
| SqlSugarRepository.DefaultClaimBinding | Yuonie.Net/Yuonie.NET.Core/SqlSugar/SqlSugarRepository.cs:43-44 | a missing, blank or main-id tenant claim binds an untagged entity to the main database |
| SqlSugarRepository.UnparsableClaimRejected | Yuonie.Net/Yuonie.NET.Core/SqlSugar/SqlSugarRepository.cs:47 | an untagged entity whose caller's claim is neither a default claim nor a `long` fails before any tenant lookup, as `long.Parse` throws |
| SqlSugarRepository.TenantLookupErrorPropagates | Yuonie.Net/Yuonie.NET.Core/SqlSugar/SqlSugarRepository.cs:47 | when the tenant lookup fails for a parsed claim, the repository fails with the same error instead of falling back to the main database |
| SqlSugarRepository.TenantClaimBinding | Yuonie.Net/Yuonie.NET.Core/SqlSugar/SqlSugarRepository.cs:47-49 | another tenant's claim binds to the scope the tenant lookup yields, or to the main database when it yields null |
| SqlSugarRepository.RegisteredTenantBinding | Yuonie.Net/Yuonie.NET.Core/SqlSugar/SqlSugarRepository.cs:43-49 | the text of a registered tenant's id binds an untagged entity to that tenant's database |
| SqlSugarFilter.GetEffectiveEntityTypes | Yuonie.Net/Yuonie.NET.Core/SqlSugar/SqlSugarFilter.cs:179-180 | a type is kept exactly when it is a concrete class deriving from `EntityBaseData` |
| SqlSugarFilter.IsValidTenantEntity | Yuonie.Net/Yuonie.NET.Core/SqlSugar/SqlSugarFilter.cs:185-189 | a type's own `[Tenant]` tag decides whether it suits the scope, else an inherited one, and an untagged type suits every scope |
| SqlSugarFilter.FilterMapFor | Yuonie.Net/Yuonie.NET.Core/SqlSugar/SqlSugarFilter.cs:102-118 | the built map covers exactly the effective types whose tenant tag is absent or names the scope, each with the one predicate |
| SqlSugarFilter.SetDataScopeFilter | Yuonie.Net/Yuonie.NET.Core/SqlSugar/SqlSugarFilter.cs:86-131 | no user gives All and no change; otherwise the cached maximum scope (0 if absent) is returned and only Self attaches filters: the cached map on a hit, a freshly built and cached "created by this user" map on a miss |
| SqlSugarFilter.SetOrgEntityFilter | Yuonie.Net/Yuonie.NET.Core/SqlSugar/SqlSugarFilter.cs:32-80 | Self users get only the Self step; without a user nothing changes; on a hit the cached map is attached; a null or empty organisation list attaches and caches nothing; otherwise an organisation map is built, cached and attached (corrected, see Findings) |
| SqlSugarFilter.CustomItems | Yuonie.Net/Yuonie.NET.Core/SqlSugar/SqlSugarFilter.cs:145-164 | an item is kept exactly when some provider returned it and its type suits the scope |
| SqlSugarFilter.SetCustomEntityFilter | Yuonie.Net/Yuonie.NET.Core/SqlSugar/SqlSugarFilter.cs:137-174 | on a hit the cached items are attached and the cache is unchanged; on a miss only the custom entry is written, every other entry keeps its value, the cached items are exactly the providers' items whose type suits the scope, and they are what is attached |
| SqlSugarFilter.DeleteUserOrgCache | Yuonie.Net/Yuonie.NET.Core/SqlSugar/SqlSugarFilter.cs:18-26 | the user's organisation list, maximum data scope and organisation filter are gone; every other entry is kept unchanged |
| SqlSugarFilter.SelfScopeSkipsOrgFilter | Yuonie.Net/Yuonie.NET.Core/SqlSugar/SqlSugarFilter.cs:35 | a Self user gets no organisation condition, only "created by this user" ones, and the organisation entry is not touched (corrected, see Findings) |
| SqlSugarFilter.NoUserNoFilter | Yuonie.Net/Yuonie.NET.Core/SqlSugar/SqlSugarFilter.cs:35-38 | without a user claim the scope is All and nothing is attached or cached |
| SqlSugarFilter.EmptyOrgListRecomputedNextTime | Yuonie.Net/Yuonie.NET.Core/SqlSugar/SqlSugarFilter.cs:44-48 | a null or empty organisation list caches nothing, so a later non-empty list builds the filter |
| SqlSugarFilter.OrgMissAttachesOnePerEligibleType | Yuonie.Net/Yuonie.NET.Core/SqlSugar/SqlSugarFilter.cs:50-72 | on a miss each eligible type, and no other, gets the organisation condition for exactly the listed organisations, and the cache holds exactly what was attached |
| SqlSugarFilter.OrgHitIgnoresSources | Yuonie.Net/Yuonie.NET.Core/SqlSugar/SqlSugarFilter.cs:74-79 | on a hit the result does not depend on the organisation list or the known types, and the cache is unchanged |
| SqlSugarFilter.CustomHitIgnoresProviders | Yuonie.Net/Yuonie.NET.Core/SqlSugar/SqlSugarFilter.cs:168-173 | on a hit the result does not depend on the providers, and the cache is unchanged |
| SqlSugarFilter.CustomItemEligibility | Yuonie.Net/Yuonie.NET.Core/SqlSugar/SqlSugarFilter.cs:156-163 | a provider's item is cached and attached exactly when its type suits the scope |
| SqlSugarFilter.EvictionForcesRecompute | Yuonie.Net/Yuonie.NET.Core/SqlSugar/SqlSugarFilter.cs:23-25 | after eviction the next organisation filter is built from the current list |
| SqlSugarFilter.SelfUserGetsOnlyCreatorFilter | Yuonie.Net/Yuonie.NET.Core/SqlSugar/SqlSugarFilter.cs:94-121 | a Self user with nothing cached gets exactly "created by this user" on each eligible type (corrected, see Findings) |
| SqlSugarFilter.SetDataScopeFilterAsWritten | Yuonie.Net/Yuonie.NET.Core/SqlSugar/SqlSugarFilter.cs:109-113 | the source's construction throws exactly for a Self user on a miss with an eligible type, and otherwise agrees with the intended filter |
| SqlSugarFilter.SelfFilterAsWrittenThrows | Yuonie.Net/Yuonie.NET.Core/SqlSugar/SqlSugarFilter.cs:112 | for user "42" with Self scope and one eligible type, the source throws where the intended filter attaches "created by 42" |
| SysRoleService.OwnMenus | Yuonie.Net/Yuonie.NET.Core/Service/Role/SysRoleService.cs:210-213 | a menu is listed exactly when a role-menu row links it to the role |
| SysRoleService.OwnOrgs | Yuonie.Net/Yuonie.NET.Core/Service/Role/SysRoleService.cs:221-224 | an organisation is listed exactly when a role-organisation row links it to the role |
| SysRoleService.GrantMenu | Yuonie.Net/Yuonie.NET.Core/Service/Role/SysRoleService.cs:156-159 | the role's menus become exactly the given ones; other roles' rows and the other tables are unchanged |
| SysRoleService.GrantOrg | Yuonie.Net/Yuonie.NET.Core/Service/Role/SysRoleService.cs:201 | the role's organisations become the given ones for a custom scope and none otherwise; other roles' rows are unchanged |
| SysRoleService.UpdateRoleMenu | Yuonie.Net/Yuonie.NET.Core/Service/Role/SysRoleService.cs:84-97 | a null or empty list changes nothing; otherwise the role's menus are exactly the listed ones that are not top-level menus |
| SysRoleService.AddRole | Yuonie.Net/Yuonie.NET.Core/Service/Role/SysRoleService.cs:69-77 | D1006 exactly when a role has the same name and code; otherwise the role is added with the input's fields and the caller as creator, no other role changes, and its menus are updated |
| SysRoleService.UpdateRole | Yuonie.Net/Yuonie.NET.Core/Service/Role/SysRoleService.cs:106-115 | D1006 exactly when another role has the same name and code; otherwise the input's columns are written, data scope, creator and a null remark are kept, other roles are unchanged, and menus are updated |
| SysRoleService.DeleteRole | Yuonie.Net/Yuonie.NET.Core/Service/Role/SysRoleService.cs:125-147 | D1002 for a missing role, D1019 for the administrator role, D1025 for a role with users, in that order; otherwise the role and every link row naming it are removed and nothing else |
| SysRoleService.SetStatus | Yuonie.Net/Yuonie.NET.Core/Service/Role/SysRoleService.cs:232-241 | D3005 exactly for a value outside the status codes; otherwise only that role's status changes and the count is 1 exactly when the role exists |
| SysRoleService.EvictUsers | Yuonie.Net/Yuonie.NET.Core/Service/Role/SysRoleService.cs:171-175 | the organisation entries of every listed user are gone and every other entry is kept unchanged |
| SysRoleService.EvictRoleUsers | Yuonie.Net/Yuonie.NET.Core/Service/Role/SysRoleService.cs:171-175 | evicting the users one at a time leaves the same cache as evicting them all at once |
| SysRoleService.GrantDataScope | Yuonie.Net/Yuonie.NET.Core/Service/Role/SysRoleService.cs:168-202 | the role's users are always evicted first; D1016 exactly when a caller other than the super administrator asks for All or for organisations they cannot see; a missing role fails after that; the grant succeeds exactly when it is within the caller's rights and the role exists, and then only the role's data scope and organisations change |
| SysRoleService.PageRoles | Yuonie.Net/Yuonie.NET.Core/Service/Role/SysRoleService.cs:37-45 | a page never shows a role the caller could not list; a caller other than the super administrator sees only roles they created; every role shown contains the non-blank name and code filter texts, and every role the caller may page that contains them is shown |
| SysRoleService.ListRoles | Yuonie.Net/Yuonie.NET.Core/Service/Role/SysRoleService.cs:52-60 | only existing roles are listed; the super administrator gets all of them, anyone else exactly the roles they created or hold |
| SysRoleService.PageShowsOwnRolesOnly | Yuonie.Net/Yuonie.NET.Core/Service/Role/SysRoleService.cs:37-45 | a caller other than the super administrator pages only through roles they created, all of which are also in their list |
| SysRoleService.SuperAdminPagesAll | Yuonie.Net/Yuonie.NET.Core/Service/Role/SysRoleService.cs:39-59 | with blank filters the super administrator pages through and lists every role |
| SysRoleService.PageNameFilterSound | Yuonie.Net/Yuonie.NET.Core/Service/Role/SysRoleService.cs:41 | every role on a page filtered by a non-blank name holds the filter text at some position of its name |
| SysRoleService.ListShowsOwnOrHeldOnly | Yuonie.Net/Yuonie.NET.Core/Service/Role/SysRoleService.cs:55-58 | a caller other than the super administrator lists only roles they created or hold through a user-role row |
| SysRoleService.PageNameFilterKeepsExactName | Yuonie.Net/Yuonie.NET.Core/Service/Role/SysRoleService.cs:41 | a name filter equal to a visible role's name keeps that role |
| SysRoleService.AddedRoleVisibleToCreator | Yuonie.Net/Yuonie.NET.Core/Service/Role/SysRoleService.cs:74 | the role a caller adds is on their page and in their list |
| SysRoleService.GrantMenuReadBack | Yuonie.Net/Yuonie.NET.Core/Service/Role/SysRoleService.cs:210-213 | reading a role's menus after a grant gives the granted set, and other roles' menus are unchanged |
| SysRoleService.TopLevelMenuNeverGranted | Yuonie.Net/Yuonie.NET.Core/Service/Role/SysRoleService.cs:89-91 | a menu whose parent is 0 is never granted through a role update |
| SysRoleService.GrantStaysWithinCallerRights | Yuonie.Net/Yuonie.NET.Core/Service/Role/SysRoleService.cs:179-198 | a successful grant by a caller other than the super administrator never sets All and never grants an organisation outside the caller's own |
| SysRoleService.RefusedGrantStillEvicts | Yuonie.Net/Yuonie.NET.Core/Service/Role/SysRoleService.cs:170-183 | a grant refused with D1016 has still evicted the cached organisation data of the role's users |
| SysRoleService.DeleteLeavesNoLinks | Yuonie.Net/Yuonie.NET.Core/Service/Role/SysRoleService.cs:137-146 | after a deletion no menu, organisation or user row names the role |
| SysRoleService.SetStatusIdempotent | Yuonie.Net/Yuonie.NET.Core/Service/Role/SysRoleService.cs:237-240 | setting a valid status twice is the same as setting it once |

## Left out

- The lock in `GetTenantDbConnectionScope` and all concurrency: each operation is one atomic step; the locked section is modelled on its own to show it does not check the registry again.
- `SqlSugarSetup.SetDbConfig` and `SqlSugarSetup.SetDbAop`, called after a tenant connection is registered: `SqlSugarSetup` is not part of this model.
- `GetConnectionScopeWithAttr<T>` is modelled as the scope of the entity's own `[Tenant]` config id.
- SM2 decryption, JSON validation and deserialisation, the organisation service's `GetUserOrgIdList`, and the snowflake id generator are parameters of the operations that use them.
- Reflection discovery (`App.EffectiveTypes`, `GetEntityFilterTypes`, `Activator.CreateInstance`, the private `type` property of a filter item) is replaced by the lists of entity types and filter providers passed in.
- The expression trees of the filters are the `Condition` datatype; evaluating them against rows is not modelled.
- The two caches (`Cache.Default` and `SysCacheService`) are one map with distinct keys; expiry and the cache backend are not modelled, and the literal key prefixes of `CacheConst` are replaced by a key datatype.
- `DataScopeEnum`, `StatusEnum`, `CommonConst` and `ErrorCodeEnum` are not part of this model; the codes used are All=1, DeptChild=2, Dept=3, Self=4, Define=5, Enable=1, Disable=2 and the administrator role code `sys_admin`.
- `SysRoleMenuService`, `SysRoleOrgService`, `SysUserRoleService` and `SysOrgService` are not part of this model: `GrantRoleMenu` is modelled as replacing the role's menu rows, `GrantRoleOrg` as replacing its organisation rows (with the list for a custom scope, none otherwise), and the user and role lists as read from the link tables.
- Ordering by `OrderNo`, paging, and the projection to `RoleOutput` in `Page` and `GetList`; their results are sets of role ids.
- The global query filters that also apply to the role service's own reads (for example to the duplicate check of `AddRole`).
- Audit columns other than the creator (creation and update times, updater); the creator is the caller, as the insert hook sets it.
- Null lists that would throw: `ConnectionConfigs`, `SortFieldArrary`, `RoleOrgInput.OrgIdList` and the users list in `GrantDataScope`.
- `long.TryParse` details beyond the default integer style: culture-specific signs and trailing null characters.
- `TableSettings`, `SeedSettings` and `MainDB` of the connection options, which the core does not read.
- SysRoleService.AddRole: requires the generated id to be unused, which the id generator guarantees.
- SqlSugarFilter.SetCustomEntityFilter: on a miss the contract states which items are cached and attached but not their order in the cached list, as attached filters are conjoined.
- SqlSugarFilter.SetOrgEntityFilter: composes the corrected `SetDataScopeFilter`; as written, the source throws for a Self user with nothing cached and an eligible type (see Findings), so `SetOrgEntityFilter`, `SelfScopeSkipsOrgFilter` and `SelfUserGetsOnlyCreatorFilter` state the intended behaviour for that case.
- String comparisons the database performs (the duplicate check on name and code in `AddRole` and `UpdateRole`, and the `Contains` filters of `Page`) are exact, case-sensitive comparisons of characters; collation and case folding are not modelled, so names differing only in case are distinct here.
- ConnectionRegistry.AddConnection: registering an id that is already registered is assumed to keep the existing configuration; SqlSugar's `AddConnection` is not part of this model.

## Findings

| source | as written | input that shows it | evidently intended | confidence | as-written member | corrected member |
|---|---|---|---|---|---|---|
| Yuonie.Net/Yuonie.NET.Core/SqlSugar/SqlSugarFilter.cs:109-113 | the "own rows" filter is built as `Expression.Equal(u.CreateUserId, Expression.Constant(userId))` with `CreateUserId` a `long?` and `userId` the claim's `string`; no equality operator relates the two types, so building the expression throws | a user whose cached maximum data scope is Self, with no cached filter for the scope and at least one eligible entity type | rows created by the user, with the claim converted to the column's type | high, not executed | SqlSugarFilter.SelfFilterAsWrittenThrows | SqlSugarFilter.SetDataScopeFilter |
