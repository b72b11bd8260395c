/**
 * `SqlSugarFilter`: the row filters attached to a connection scope for the
 * calling user — "own rows only" (data scope Self), "rows of visible
 * organisations", and filters from custom providers — each computed once per
 * (config id, kind, user) and memoised in the process cache, plus the
 * eviction of a user's organisation entries.
 */
module SqlSugarFilter {
  import opened Common
  import opened Text
  import opened EntityModel
  import opened ConnectionRegistry
  import opened ObjectExtension

  /** `DataScopeEnum` codes. */
  const DataScopeAll: int := 1
  const DataScopeDeptChild: int := 2
  const DataScopeDept: int := 3
  const DataScopeSelf: int := 4
  const DataScopeDefine: int := 5

  /**
   * A row condition.
   * `OrgIn(ids)`: `(u.CreateOrgId ?? 0)` is one of `ids`.
   * `CreatorIs(user)`: `u.CreateUserId` is the user `user` (user ids are one type here).
   * `Custom(id)`: the predicate of a custom provider's filter item.
   */
  datatype Condition = OrgIn(orgIds: set<int64>) | CreatorIs(user: string) | Custom(filterId: nat)

  /** One filter attached to a scope: rows of `entity` must satisfy `condition`. */
  datatype TableFilter = TableFilter(entity: EntityType, condition: Condition)

  /** A `TableFilterItem<object>` a custom provider returns. */
  datatype FilterItem = FilterItem(entity: EntityType, filterId: nat)

  /** An `IEntityFilter` implementation: what its `AddEntityFilter` returns, `None` for `null`. */
  datatype FilterProvider = FilterProvider(items: Option<seq<FilterItem>>)

  /** The cache entries the filter layer reads and writes, per user and, for filters, per config id. */
  datatype CacheKey =
    | UserOrgKey(user: string)
    | MaxDataScopeKey(user: string)
    | OrgListKey(configId: string, user: string)
    | DataScopeKey(configId: string, user: string)
    | CustomKey(configId: string, user: string)

  datatype CacheValue =
    | IntValue(n: int)
    | OrgIdList(ids: seq<int64>)
    | FilterMap(filters: map<EntityType, Condition>)
    | FilterList(items: seq<FilterItem>)

  type Cache = map<CacheKey, CacheValue>

  /** The request a scope is filtered for: the user-id claim and the scope's connection. */
  datatype Request = Request(userClaim: Option<string>, scope: Scope)

  /**
   * The state the filter operations change: the process cache and the filters
   * attached to the scope. Attached filters are conjoined, so they form a set.
   */
  datatype FilterState = FilterState(cache: Cache, filters: set<TableFilter>)

  predicate HasUser(req: Request) {
    !IsNullOrWhiteSpace(req.userClaim)
  }

  /** The claim as string interpolation writes it into a key: `null` becomes empty. */
  function ClaimText(claim: Option<string>): string {
    claim.GetOr("")
  }

  // ---------------------------------------------------------------------------
  // Eligible entity types
  // ---------------------------------------------------------------------------

  /** A concrete class deriving from `EntityBaseData`. */
  predicate IsEffectiveEntityType(t: EntityType) {
    t.isClass && !t.isInterface && !t.isAbstract && t.derivesFromEntityBaseData
  }

  /** `GetEffectiveEntityTypes`: the known types that are concrete classes deriving from `EntityBaseData`. */
  function GetEffectiveEntityTypes(types: seq<EntityType>): (r: seq<EntityType>)
    ensures forall t :: t in r <==> t in types && IsEffectiveEntityType(t)
  {
    Filter(types, IsEffectiveEntityType)
  }

  /** `IsValidTenantEntity`: untagged types suit every scope, tagged ones only the scope of their tag. */
  predicate IsValidTenantEntity(t: EntityType, scope: Scope): (b: bool)
    ensures t.tenantTag.Some? ==> (b <==> t.tenantTag.value == scope.configId)
    ensures t.tenantTag.None? && t.inheritedTenantTag.Some? ==> (b <==> t.inheritedTenantTag.value == scope.configId)
    ensures t.tenantTag.None? && t.inheritedTenantTag.None? ==> b
  {
    TenantAttribute(t).None? || TenantAttribute(t).value == scope.configId
  }

  /** The filter map a cache miss builds: predicate `p` for each eligible type. */
  function FilterMapFor(types: seq<EntityType>, scope: Scope, p: Condition): (m: map<EntityType, Condition>)
    ensures forall t :: t in m <==> t in types && IsEffectiveEntityType(t) && IsValidTenantEntity(t, scope)
    ensures forall t | t in m :: m[t] == p
  {
    var effective := GetEffectiveEntityTypes(types);
    map t | t in effective && IsValidTenantEntity(t, scope) :: p
  }

  /** The filters a filter map attaches. */
  function Entries(m: map<EntityType, Condition>): (r: set<TableFilter>)
    ensures forall f :: f in r <==> f.entity in m && m[f.entity] == f.condition
  {
    set t | t in m :: TableFilter(t, m[t])
  }

  function CachedInt(cache: Cache, key: CacheKey): int {
    if key in cache && cache[key].IntValue? then cache[key].n else 0
  }

  predicate HasFilterMap(cache: Cache, key: CacheKey) {
    key in cache && cache[key].FilterMap?
  }

  // ---------------------------------------------------------------------------
  // Data scope "Self"
  // ---------------------------------------------------------------------------

  datatype DataScopeResult = DataScopeResult(maxDataScope: int, state: FilterState)

  /**
   * `SetDataScopeFilter`: reads the user's cached maximum data scope (0 when
   * absent) and, when it is Self, attaches "created by this user" to every
   * eligible type, from the cache or built and cached on a miss. Without a
   * user claim the scope is All and nothing happens.
   */
  function SetDataScopeFilter(req: Request, types: seq<EntityType>, st: FilterState): (r: DataScopeResult)
    ensures !HasUser(req) ==> r == DataScopeResult(DataScopeAll, st)
    ensures HasUser(req) ==> r.maxDataScope == CachedInt(st.cache, MaxDataScopeKey(req.userClaim.value))
    ensures r.maxDataScope != DataScopeSelf ==> r.state == st
    ensures r.maxDataScope == DataScopeSelf && HasFilterMap(st.cache, DataScopeKey(req.scope.configId, req.userClaim.value)) ==>
      r.state == st.(filters := st.filters + Entries(st.cache[DataScopeKey(req.scope.configId, req.userClaim.value)].filters))
    ensures r.maxDataScope == DataScopeSelf && !HasFilterMap(st.cache, DataScopeKey(req.scope.configId, req.userClaim.value)) ==>
      var m := FilterMapFor(types, req.scope, CreatorIs(req.userClaim.value));
      r.state == FilterState(st.cache[DataScopeKey(req.scope.configId, req.userClaim.value) := FilterMap(m)], st.filters + Entries(m))
  {
    if !HasUser(req) then DataScopeResult(DataScopeAll, st)
    else
      var user := req.userClaim.value;
      var maxDataScope := CachedInt(st.cache, MaxDataScopeKey(user));
      if maxDataScope != DataScopeSelf then DataScopeResult(maxDataScope, st)
      else
        var key := DataScopeKey(req.scope.configId, user);
        if HasFilterMap(st.cache, key) then
          DataScopeResult(maxDataScope, st.(filters := st.filters + Entries(st.cache[key].filters)))
        else
          var m := FilterMapFor(types, req.scope, CreatorIs(user));
          DataScopeResult(maxDataScope, FilterState(st.cache[key := FilterMap(m)], st.filters + Entries(m)))
  }

  // ---------------------------------------------------------------------------
  // Organisation scope
  // ---------------------------------------------------------------------------

  /**
   * `SetOrgEntityFilter`: after the Self filter, a user whose data scope is
   * not Self gets "created in a visible organisation" on every eligible
   * type, from the cache or, on a miss, built from the organisation service's
   * list `visibleOrgs` and cached. A null or empty list attaches and caches
   * nothing.
   */
  function SetOrgEntityFilter(req: Request, types: seq<EntityType>, visibleOrgs: Option<seq<int64>>, st: FilterState): (r: FilterState)
    ensures !HasUser(req) ==> r == st
    ensures HasUser(req) && CachedInt(st.cache, MaxDataScopeKey(req.userClaim.value)) == DataScopeSelf ==>
      r == SetDataScopeFilter(req, types, st).state
    ensures HasUser(req) && CachedInt(st.cache, MaxDataScopeKey(req.userClaim.value)) != DataScopeSelf ==>
      var key := OrgListKey(req.scope.configId, req.userClaim.value);
      && (HasFilterMap(st.cache, key) ==> r == st.(filters := st.filters + Entries(st.cache[key].filters)))
      && (!HasFilterMap(st.cache, key) && (visibleOrgs.None? || |visibleOrgs.value| == 0) ==> r == st)
      && (!HasFilterMap(st.cache, key) && visibleOrgs.Some? && |visibleOrgs.value| > 0 ==>
            var m := FilterMapFor(types, req.scope, OrgIn(set o | o in visibleOrgs.value));
            r == FilterState(st.cache[key := FilterMap(m)], st.filters + Entries(m)))
  {
    var ds := SetDataScopeFilter(req, types, st);
    if ds.maxDataScope == DataScopeSelf then ds.state
    else if !HasUser(req) then ds.state
    else
      var st1 := ds.state;
      var key := OrgListKey(req.scope.configId, req.userClaim.value);
      if HasFilterMap(st1.cache, key) then
        st1.(filters := st1.filters + Entries(st1.cache[key].filters))
      else if visibleOrgs.None? || |visibleOrgs.value| == 0 then st1
      else
        var m := FilterMapFor(types, req.scope, OrgIn(set o | o in visibleOrgs.value));
        FilterState(st1.cache[key := FilterMap(m)], st1.filters + Entries(m))
  }

  // ---------------------------------------------------------------------------
  // Custom filters
  // ---------------------------------------------------------------------------

  /** The items of all providers, `null` results skipped, keeping those whose type suits the scope. */
  function CustomItems(providers: seq<FilterProvider>, scope: Scope): (r: seq<FilterItem>)
    ensures forall it :: it in r <==>
      IsValidTenantEntity(it.entity, scope) &&
      exists i | 0 <= i < |providers| :: providers[i].items.Some? && it in providers[i].items.value
  {
    if |providers| == 0 then []
    else
      var first := if providers[0].items.Some? then Filter(providers[0].items.value, (it: FilterItem) => IsValidTenantEntity(it.entity, scope)) else [];
      var rest := CustomItems(providers[1..], scope);
      assert forall it :: it in rest <==>
        IsValidTenantEntity(it.entity, scope) &&
        exists i | 1 <= i < |providers| :: providers[i].items.Some? && it in providers[i].items.value by {
        forall it ensures it in rest <==>
          IsValidTenantEntity(it.entity, scope) &&
          exists i | 1 <= i < |providers| :: providers[i].items.Some? && it in providers[i].items.value {
          if it in rest {
            var j :| 0 <= j < |providers[1..]| && providers[1..][j].items.Some? && it in providers[1..][j].items.value;
            assert providers[j + 1] == providers[1..][j];
          }
          if IsValidTenantEntity(it.entity, scope) && exists i | 1 <= i < |providers| :: providers[i].items.Some? && it in providers[i].items.value {
            var i :| 1 <= i < |providers| && providers[i].items.Some? && it in providers[i].items.value;
            assert providers[1..][i - 1] == providers[i];
          }
        }
      }
      first + rest
  }

  /** The filters a list of custom items attaches. */
  function ItemFilters(items: seq<FilterItem>): (r: set<TableFilter>)
    ensures forall f :: f in r <==> f.condition.Custom? && FilterItem(f.entity, f.condition.filterId) in items
  {
    set it | it in items :: TableFilter(it.entity, Custom(it.filterId))
  }

  /**
   * `SetCustomEntityFilter`: the custom items for the scope and user, from
   * the cache or, on a miss, collected from the providers and cached. The
   * key uses the claim as is, so requests without a user share one entry.
   */
  function SetCustomEntityFilter(req: Request, providers: seq<FilterProvider>, st: FilterState): (r: FilterState)
    ensures var key := CustomKey(req.scope.configId, ClaimText(req.userClaim));
      && (key in st.cache && st.cache[key].FilterList? ==>
            r == st.(filters := st.filters + ItemFilters(st.cache[key].items)))
      && (!(key in st.cache && st.cache[key].FilterList?) ==>
            r.cache.Keys == st.cache.Keys + {key}
            && (forall k | k in st.cache && k != key :: r.cache[k] == st.cache[k])
            && r.cache[key].FilterList?
            && (forall it :: it in r.cache[key].items <==>
                  IsValidTenantEntity(it.entity, req.scope) &&
                  exists i | 0 <= i < |providers| :: providers[i].items.Some? && it in providers[i].items.value)
            && r.filters == st.filters + ItemFilters(r.cache[key].items))
  {
    var key := CustomKey(req.scope.configId, ClaimText(req.userClaim));
    if key in st.cache && st.cache[key].FilterList? then
      st.(filters := st.filters + ItemFilters(st.cache[key].items))
    else
      var items := CustomItems(providers, req.scope);
      FilterState(st.cache[key := FilterList(items)], st.filters + ItemFilters(items))
  }

  // ---------------------------------------------------------------------------
  // Invalidation
  // ---------------------------------------------------------------------------

  /** The three entries `DeleteUserOrgCache` removes. */
  function UserOrgCacheKeys(userId: int64, configId: string): set<CacheKey> {
    var u := FormatInt64(userId);
    {UserOrgKey(u), MaxDataScopeKey(u), OrgListKey(configId, u)}
  }

  /**
   * `DeleteUserOrgCache`: forgets the user's organisation list, maximum data
   * scope and organisation filter for the config; every other entry,
   * including the user's Self and custom filters, stays.
   */
  function DeleteUserOrgCache(cache: Cache, userId: int64, configId: string): (r: Cache)
    ensures var u := FormatInt64(userId);
      UserOrgKey(u) !in r && MaxDataScopeKey(u) !in r && OrgListKey(configId, u) !in r
    ensures forall k | k in cache && k !in UserOrgCacheKeys(userId, configId) :: k in r && r[k] == cache[k]
    ensures r.Keys <= cache.Keys
  {
    cache - UserOrgCacheKeys(userId, configId)
  }

  // ---------------------------------------------------------------------------
  // Properties
  // ---------------------------------------------------------------------------

  /** A user whose data scope is Self gets no organisation filter, and the organisation entry is not touched. */
  lemma SelfScopeSkipsOrgFilter(req: Request, types: seq<EntityType>, visibleOrgs: Option<seq<int64>>, st: FilterState)
    requires HasUser(req) && CachedInt(st.cache, MaxDataScopeKey(req.userClaim.value)) == DataScopeSelf
    requires forall f | f in st.filters :: !f.condition.OrgIn?
    requires forall k | k in st.cache && st.cache[k].FilterMap? && k.DataScopeKey? ::
      forall t | t in st.cache[k].filters :: st.cache[k].filters[t] == CreatorIs(k.user)
    ensures var r := SetOrgEntityFilter(req, types, visibleOrgs, st);
      && (forall f | f in r.filters :: !f.condition.OrgIn?)
      && (forall f | f in r.filters - st.filters :: f.condition == CreatorIs(req.userClaim.value))
      && var key := OrgListKey(req.scope.configId, req.userClaim.value);
         (key in r.cache <==> key in st.cache) && (key in st.cache ==> r.cache[key] == st.cache[key])
  {
  }

  /** Without a user claim no Self or organisation filter is attached and the data scope is All. */
  lemma NoUserNoFilter(req: Request, types: seq<EntityType>, visibleOrgs: Option<seq<int64>>, st: FilterState)
    requires !HasUser(req)
    ensures SetDataScopeFilter(req, types, st).maxDataScope == DataScopeAll
    ensures SetOrgEntityFilter(req, types, visibleOrgs, st) == st
  {
  }

  /**
   * A null or empty organisation list caches nothing, so a later call with
   * a non-empty list builds the filter from that list.
   */
  lemma EmptyOrgListRecomputedNextTime(req: Request, types: seq<EntityType>, st: FilterState, orgs: seq<int64>)
    requires HasUser(req) && CachedInt(st.cache, MaxDataScopeKey(req.userClaim.value)) != DataScopeSelf
    requires !HasFilterMap(st.cache, OrgListKey(req.scope.configId, req.userClaim.value))
    requires |orgs| > 0
    ensures SetOrgEntityFilter(req, types, None, st) == st
    ensures SetOrgEntityFilter(req, types, Some([]), st) == st
    ensures var r := SetOrgEntityFilter(req, types, Some(orgs), SetOrgEntityFilter(req, types, Some([]), st));
      var key := OrgListKey(req.scope.configId, req.userClaim.value);
      && HasFilterMap(r.cache, key)
      && forall t | t in r.cache[key].filters :: r.cache[key].filters[t] == OrgIn(set o | o in orgs)
  {
  }

  /**
   * On a miss, every eligible type gets exactly one organisation predicate
   * and no other type gets one, and the cached map is exactly what was attached.
   */
  lemma OrgMissAttachesOnePerEligibleType(req: Request, types: seq<EntityType>, orgs: seq<int64>, st: FilterState)
    requires HasUser(req) && CachedInt(st.cache, MaxDataScopeKey(req.userClaim.value)) != DataScopeSelf
    requires !HasFilterMap(st.cache, OrgListKey(req.scope.configId, req.userClaim.value))
    requires |orgs| > 0
    requires forall f | f in st.filters :: !f.condition.OrgIn?
    ensures var r := SetOrgEntityFilter(req, types, Some(orgs), st);
      var key := OrgListKey(req.scope.configId, req.userClaim.value);
      && HasFilterMap(r.cache, key)
      && Entries(r.cache[key].filters) == set f | f in r.filters && f.condition.OrgIn?
      && (forall t :: TableFilter(t, OrgIn(set o | o in orgs)) in r.filters <==>
            t in types && IsEffectiveEntityType(t) && IsValidTenantEntity(t, req.scope))
      && (forall f | f in r.filters && f.condition.OrgIn? :: f.condition == OrgIn(set o | o in orgs))
  {
    var r := SetOrgEntityFilter(req, types, Some(orgs), st);
    var key := OrgListKey(req.scope.configId, req.userClaim.value);
    var m := FilterMapFor(types, req.scope, OrgIn(set o | o in orgs));
    assert r.filters == st.filters + Entries(m);
    assert r.cache[key].filters == m;
  }

  /**
   * On a hit, the attached filters are the cached ones, whatever the
   * organisation service or the list of types would have said.
   */
  lemma OrgHitIgnoresSources(req: Request, types: seq<EntityType>, orgs: Option<seq<int64>>,
                             types2: seq<EntityType>, orgs2: Option<seq<int64>>, st: FilterState)
    requires HasUser(req) && CachedInt(st.cache, MaxDataScopeKey(req.userClaim.value)) != DataScopeSelf
    requires HasFilterMap(st.cache, OrgListKey(req.scope.configId, req.userClaim.value))
    ensures var r := SetOrgEntityFilter(req, types, orgs, st);
      && r == SetOrgEntityFilter(req, types2, orgs2, st)
      && r.cache == st.cache
      && r.filters == st.filters + Entries(st.cache[OrgListKey(req.scope.configId, req.userClaim.value)].filters)
  {
  }

  /** On a hit, the custom filters are the cached ones, whatever the providers would return. */
  lemma CustomHitIgnoresProviders(req: Request, providers: seq<FilterProvider>, providers2: seq<FilterProvider>, st: FilterState)
    requires var key := CustomKey(req.scope.configId, ClaimText(req.userClaim)); key in st.cache && st.cache[key].FilterList?
    ensures SetCustomEntityFilter(req, providers, st) == SetCustomEntityFilter(req, providers2, st)
    ensures SetCustomEntityFilter(req, providers, st).cache == st.cache
  {
  }

  /**
   * A provider's item for a type tagged with another database is neither
   * attached nor cached; an item for a type suiting the scope is both.
   */
  lemma CustomItemEligibility(req: Request, providers: seq<FilterProvider>, st: FilterState, p: nat, it: FilterItem)
    requires var key := CustomKey(req.scope.configId, ClaimText(req.userClaim)); key !in st.cache
    requires p < |providers| && providers[p].items.Some? && it in providers[p].items.value
    requires TableFilter(it.entity, Custom(it.filterId)) !in st.filters
    ensures var r := SetCustomEntityFilter(req, providers, st);
      var key := CustomKey(req.scope.configId, ClaimText(req.userClaim));
      && (it in r.cache[key].items <==> IsValidTenantEntity(it.entity, req.scope))
      && (TableFilter(it.entity, Custom(it.filterId)) in r.filters <==> IsValidTenantEntity(it.entity, req.scope))
  {
    var key := CustomKey(req.scope.configId, ClaimText(req.userClaim));
    assert SetCustomEntityFilter(req, providers, st).cache[key].items == CustomItems(providers, req.scope);
  }

  /**
   * After the user's organisation entries are evicted, the next organisation
   * filter is built from the current organisation list, not the evicted map.
   */
  lemma EvictionForcesRecompute(userId: int64, scope: Scope, types: seq<EntityType>, orgs: seq<int64>, st: FilterState)
    requires |orgs| > 0
    ensures var req := Request(Some(FormatInt64(userId)), scope);
      var st1 := st.(cache := DeleteUserOrgCache(st.cache, userId, scope.configId));
      var r := SetOrgEntityFilter(req, types, Some(orgs), st1);
      var key := OrgListKey(scope.configId, FormatInt64(userId));
      && r.cache[key] == FilterMap(FilterMapFor(types, scope, OrgIn(set o | o in orgs)))
      && r.filters == st.filters + Entries(FilterMapFor(types, scope, OrgIn(set o | o in orgs)))
  {
    var u := FormatInt64(userId);
    assert !IsWhiteSpace(u[|u| - 1]);
    var req := Request(Some(u), scope);
    assert HasUser(req);
    var st1 := st.(cache := DeleteUserOrgCache(st.cache, userId, scope.configId));
    assert MaxDataScopeKey(u) !in st1.cache;
    assert CachedInt(st1.cache, MaxDataScopeKey(u)) == 0;
  }

  /**
   * A user whose data scope is Self and who has no cached filter gets
   * exactly "created by this user" on each eligible type, and no
   * organisation filter.
   */
  lemma SelfUserGetsOnlyCreatorFilter(req: Request, types: seq<EntityType>, visibleOrgs: Option<seq<int64>>)
    requires HasUser(req)
    ensures var user := req.userClaim.value;
      var cache := map[MaxDataScopeKey(user) := IntValue(DataScopeSelf)];
      var r := SetOrgEntityFilter(req, types, visibleOrgs, FilterState(cache, {}));
      forall f :: f in r.filters <==>
        f.condition == CreatorIs(user) && f.entity in types && IsEffectiveEntityType(f.entity) && IsValidTenantEntity(f.entity, req.scope)
  {
  }

  // ---------------------------------------------------------------------------
  // The Self filter as the source builds it
  // ---------------------------------------------------------------------------

  /** Operand types of an `Expression.Equal` node. */
  datatype OperandType = Int64Type | NullableInt64Type | StringType

  /**
   * Whether `Expression.Equal` accepts the two operand types: equal types,
   * or a `long` against a `long?` (lifted); no equality operator relates
   * `long?` and `string`.
   */
  predicate EqualDefined(a: OperandType, b: OperandType) {
    a == b || (a == NullableInt64Type && b == Int64Type) || (a == Int64Type && b == NullableInt64Type)
  }

  /** `CreateUserId` is a `long?`; the claim value used as the constant is a `string`. */
  const CreateUserIdType: OperandType := NullableInt64Type
  const UserClaimType: OperandType := StringType

  datatype ExpressionError = BinaryOperatorNotDefined

  /**
   * `SetDataScopeFilter` as written: on a miss it builds
   * `Expression.Equal(u.CreateUserId, Expression.Constant(userId))` for each
   * eligible type, which throws once there is one such type.
   */
  function SetDataScopeFilterAsWritten(req: Request, types: seq<EntityType>, st: FilterState): (r: Result<DataScopeResult, ExpressionError>)
    ensures r.Ok? ==> r.value == SetDataScopeFilter(req, types, st)
    ensures r.Err? <==>
      && HasUser(req)
      && CachedInt(st.cache, MaxDataScopeKey(req.userClaim.value)) == DataScopeSelf
      && !HasFilterMap(st.cache, DataScopeKey(req.scope.configId, req.userClaim.value))
      && exists t :: t in types && IsEffectiveEntityType(t) && IsValidTenantEntity(t, req.scope)
  {
    var corrected := SetDataScopeFilter(req, types, st);
    if corrected.maxDataScope == DataScopeSelf
       && !HasFilterMap(st.cache, DataScopeKey(req.scope.configId, req.userClaim.value))
       && |FilterMapFor(types, req.scope, CreatorIs(req.userClaim.value))| > 0
       && !EqualDefined(CreateUserIdType, UserClaimType)
    then Err(BinaryOperatorNotDefined)
    else Ok(corrected)
  }

  /**
   * For a Self user with one eligible type and nothing cached, the source's
   * filter construction throws, where the intended one attaches "created by
   * this user" to that type.
   */
  lemma SelfFilterAsWrittenThrows(scope: Scope, t: EntityType)
    requires IsEffectiveEntityType(t) && t.tenantTag.None? && t.inheritedTenantTag.None?
    ensures var req := Request(Some("42"), scope);
      var st := FilterState(map[MaxDataScopeKey("42") := IntValue(DataScopeSelf)], {});
      && SetDataScopeFilterAsWritten(req, [t], st) == Err(BinaryOperatorNotDefined)
      && SetDataScopeFilter(req, [t], st).state.filters == {TableFilter(t, CreatorIs("42"))}
  {
    var req := Request(Some("42"), scope);
    assert HasUser(req) by {
      assert !IsWhiteSpace("42"[0]);
    }
    var m := FilterMapFor([t], scope, CreatorIs("42"));
    assert t in m;
    assert m == map[t := CreatorIs("42")];
  }
}
