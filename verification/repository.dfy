/**
 * The constructor of `SqlSugarRepository<T>`: the cascade that binds a
 * repository to a connection scope from the entity's attributes and the
 * caller's tenant claim.
 */
module SqlSugarRepository {
  import opened Common
  import opened Text
  import opened DbConnectionOptions
  import opened EntityModel
  import opened ConnectionRegistry
  import opened ObjectExtension
  import opened SysTenantService

  /** The scope a repository is bound to, and the registry after binding. */
  datatype Binding = Binding(scope: Scope, registry: Registry)

  /** The claim is absent, blank, or the main database's own id: the default tenant. */
  predicate IsDefaultTenantClaim(claim: Option<string>) {
    IsNullOrWhiteSpace(claim) || claim == Some(MainConfigId)
  }

  /**
   * The repository constructor. Attributes are read in the order `[Tenant]`,
   * `[LogTable]`, `[SysTable]`, and the first one present decides; an entity
   * with none of them follows the caller's tenant claim. `long.Parse` of a
   * claim that is not a `long` throws.
   */
  function ResolveScope(t: EntityType, claim: Option<string>, reg: Registry, cached: Option<seq<Tenant>>,
                        configs: seq<DbConnectionConfig>, f: Foreign): (r: Result<Binding, ScopeError>)
    ensures MainConfigId !in reg ==> r == Err(ConfigIdNotFound(MainConfigId))
    ensures MainConfigId in reg && t.tenantTag.Some? && t.tenantTag.value !in reg ==>
      r == Err(ConfigIdNotFound(t.tenantTag.value))
    ensures r.Ok? ==> r.value.scope.configId in r.value.registry
    ensures r.Ok? ==> Extends(reg, r.value.registry)
    ensures WellKeyed(reg) && r.Ok? ==> WellKeyed(r.value.registry)
  {
    var main :- GetConnectionScope(reg, MainConfigId);
    if t.tenantTag.Some? then
      var tagged :- GetConnectionScope(reg, t.tenantTag.value);
      Ok(Binding(tagged, reg))
    else if t.logTable then
      Ok(Binding(if IsAnyConnection(reg, LogConfigId) then Scope(LogConfigId) else main, reg))
    else if t.sysTable then
      Ok(Binding(main, reg))
    else if IsDefaultTenantClaim(claim) then
      Ok(Binding(main, reg))
    else match ParseInt64(claim.value)
      case None => Err(InvalidTenantClaim)
      case Some(tenantId) =>
        var lookup :- GetTenantDbConnectionScope(reg, tenantId, cached, configs, f);
        Ok(Binding(lookup.scope.GetOr(main), lookup.registry))
  }

  /** A `[Tenant]`-tagged entity binds to its tag's scope, whoever is calling and whatever else it is tagged with. */
  lemma TenantTagDecides(t: EntityType, reg: Registry, claim: Option<string>, cached: Option<seq<Tenant>>,
                         configs: seq<DbConnectionConfig>, f: Foreign,
                         claim2: Option<string>, cached2: Option<seq<Tenant>>,
                         configs2: seq<DbConnectionConfig>, f2: Foreign)
    requires MainConfigId in reg && t.tenantTag.Some? && t.tenantTag.value in reg
    ensures ResolveScope(t, claim, reg, cached, configs, f) == Ok(Binding(Scope(t.tenantTag.value), reg))
    ensures ResolveScope(t, claim, reg, cached, configs, f) == ResolveScope(t, claim2, reg, cached2, configs2, f2)
  {
  }

  /** A `[LogTable]` entity binds to the log database when it is registered, otherwise to the main one. */
  lemma LogTableBinding(t: EntityType, reg: Registry, claim: Option<string>, cached: Option<seq<Tenant>>,
                        configs: seq<DbConnectionConfig>, f: Foreign)
    requires MainConfigId in reg && t.tenantTag.None? && t.logTable
    ensures var r := ResolveScope(t, claim, reg, cached, configs, f);
      && r.Ok? && r.value.registry == reg
      && r.value.scope == (if LogConfigId in reg then Scope(LogConfigId) else Scope(MainConfigId))
  {
  }

  /** A `[SysTable]` entity without the earlier tags always binds to the main database. */
  lemma SysTableBinding(t: EntityType, reg: Registry, claim: Option<string>, cached: Option<seq<Tenant>>,
                        configs: seq<DbConnectionConfig>, f: Foreign)
    requires MainConfigId in reg && t.tenantTag.None? && !t.logTable && t.sysTable
    ensures ResolveScope(t, claim, reg, cached, configs, f) == Ok(Binding(Scope(MainConfigId), reg))
  {
  }

  /** An untagged entity binds to the main database for a missing, blank or default-tenant claim. */
  lemma DefaultClaimBinding(t: EntityType, reg: Registry, claim: Option<string>, cached: Option<seq<Tenant>>,
                            configs: seq<DbConnectionConfig>, f: Foreign)
    requires MainConfigId in reg && t.tenantTag.None? && !t.logTable && !t.sysTable
    requires claim.None? || IsBlank(claim.value) || claim.value == MainConfigId
    ensures ResolveScope(t, claim, reg, cached, configs, f) == Ok(Binding(Scope(MainConfigId), reg))
  {
  }

  /**
   * An untagged entity with another tenant's claim binds to that tenant's
   * scope when the lookup yields one, and stays on the main database when it
   * yields `null`.
   */
  lemma TenantClaimBinding(t: EntityType, reg: Registry, claim: string, tenantId: int64, cached: Option<seq<Tenant>>,
                           configs: seq<DbConnectionConfig>, f: Foreign)
    requires MainConfigId in reg && t.tenantTag.None? && !t.logTable && !t.sysTable
    requires !IsBlank(claim) && claim != MainConfigId && ParseInt64(claim) == Some(tenantId)
    requires GetTenantDbConnectionScope(reg, tenantId, cached, configs, f).Ok?
    ensures var lookup := GetTenantDbConnectionScope(reg, tenantId, cached, configs, f).value;
      var r := ResolveScope(t, Some(claim), reg, cached, configs, f);
      && r.Ok? && r.value.registry == lookup.registry
      && (lookup.scope.Some? ==> r.value.scope == Scope(FormatInt64(tenantId)))
      && (lookup.scope.None? ==> r.value.scope == Scope(MainConfigId))
  {
    assert !IsDefaultTenantClaim(Some(claim));
  }

  /**
   * An untagged entity whose caller's claim is neither a default claim nor a
   * `long` fails: `long.Parse` throws before any tenant is looked up.
   */
  lemma UnparsableClaimRejected(t: EntityType, reg: Registry, claim: string, cached: Option<seq<Tenant>>,
                                configs: seq<DbConnectionConfig>, f: Foreign)
    requires MainConfigId in reg && t.tenantTag.None? && !t.logTable && !t.sysTable
    requires !IsBlank(claim) && claim != MainConfigId && ParseInt64(claim).None?
    ensures ResolveScope(t, Some(claim), reg, cached, configs, f) == Err(InvalidTenantClaim)
  {
  }

  /**
   * An untagged entity whose caller's claim names a tenant fails with the
   * tenant lookup's error: a throw in the lookup is not caught, and the
   * repository does not fall back to the main database.
   */
  lemma TenantLookupErrorPropagates(t: EntityType, reg: Registry, claim: string, tenantId: int64, cached: Option<seq<Tenant>>,
                                    configs: seq<DbConnectionConfig>, f: Foreign)
    requires MainConfigId in reg && t.tenantTag.None? && !t.logTable && !t.sysTable
    requires !IsBlank(claim) && claim != MainConfigId && ParseInt64(claim) == Some(tenantId)
    requires GetTenantDbConnectionScope(reg, tenantId, cached, configs, f).Err?
    ensures ResolveScope(t, Some(claim), reg, cached, configs, f) == Err(GetTenantDbConnectionScope(reg, tenantId, cached, configs, f).error)
  {
    assert !IsDefaultTenantClaim(Some(claim));
  }

  /** The text of a `long` ends with a digit, so it is not blank. */
  lemma FormatNotBlank(n: int64)
    ensures !IsBlank(FormatInt64(n))
  {
    var s := FormatInt64(n);
    assert !IsWhiteSpace(s[|s| - 1]);
  }

  /** The text form of a registered tenant's id binds an untagged entity to that tenant's database. */
  lemma RegisteredTenantBinding(t: EntityType, reg: Registry, tenantId: int64, cached: Option<seq<Tenant>>,
                                configs: seq<DbConnectionConfig>, f: Foreign)
    requires MainConfigId in reg && t.tenantTag.None? && !t.logTable && !t.sysTable
    requires FormatInt64(tenantId) in reg && FormatInt64(tenantId) != MainConfigId
    ensures ResolveScope(t, Some(FormatInt64(tenantId)), reg, cached, configs, f) == Ok(Binding(Scope(FormatInt64(tenantId)), reg))
  {
    var s := FormatInt64(tenantId);
    ParseFormatRoundTrip(tenantId);
    FormatNotBlank(tenantId);
    assert GetTenantDbConnectionScope(reg, tenantId, cached, configs, f) == Ok(ScopeLookup(Some(Scope(s)), reg));
    TenantClaimBinding(t, reg, s, tenantId, cached, configs, f);
  }
}
