/**
 * `SysTenantService`: the list of tenants with a database of their own, and
 * the create-if-absent step that registers a tenant's database connection
 * the first time the tenant is seen.
 */
module SysTenantService {
  import opened Common
  import opened DbConnectionOptions
  import opened ConnectionRegistry
  import opened ObjectExtension

  /** `TenantTypeEnum`: isolation by a tenant-id column, or by a database of its own. */
  datatype TenantType = IdIsolation | DbIsolation

  /** `SysTenant`, with the fields scope materialisation reads. `connection` is SM2-encrypted. */
  datatype Tenant = Tenant(
    id: int64,
    tenantType: TenantType,
    status: int,
    dbType: DbType,
    connection: string,
    slaveConnections: Option<string>)

  /**
   * The library calls the step makes: SM2 decryption (`None` where it
   * throws), `JSON.IsValid`, and deserialising the slave connection list
   * (`None` where it throws).
   */
  datatype Foreign = Foreign(
    sm2Decrypt: string -> Option<string>,
    jsonIsValid: string -> bool,
    deserializeSlaves: string -> Option<seq<SlaveConnectionConfig>>)

  predicate IsEnabledDbTenant(t: Tenant) {
    t.tenantType == DbIsolation && t.status == StatusEnable
  }

  /** `GetTenantDbList`: the enabled tenants isolated by database, in table order. */
  function GetTenantDbList(tenants: seq<Tenant>): (r: seq<Tenant>)
    ensures forall t :: t in r <==> t in tenants && t.tenantType == DbIsolation && t.status == StatusEnable
    ensures |r| <= |tenants|
  {
    Filter(tenants, IsEnabledDbTenant)
  }

  /**
   * The cached tenant list's `?.First(u => u.Id == tenantId)`: no list gives
   * `null`; a list without the id makes `First` throw.
   */
  function FindCachedTenant(cached: Option<seq<Tenant>>, tenantId: int64): (r: Result<Option<Tenant>, ScopeError>)
    ensures cached.None? <==> r == Ok(None)
    ensures r.Ok? && r.value.Some? ==> r.value.value.id == tenantId && r.value.value in cached.value
    ensures r.Ok? && r.value.Some? ==> exists i | 0 <= i < |cached.value| ::
      cached.value[i] == r.value.value && forall j | 0 <= j < i :: cached.value[j].id != tenantId
    ensures r.Err? <==> cached.Some? && forall i | 0 <= i < |cached.value| :: cached.value[i].id != tenantId
  {
    if cached.None? then Ok(None)
    else match FirstIndex(cached.value, (t: Tenant) => t.id == tenantId)
      case None => Err(NoMatchingTenant)
      case Some(i) => Ok(Some(cached.value[i]))
  }

  predicate IsMainConfig(c: DbConnectionConfig) {
    c.configId == Some(MainConfigId)
  }

  /**
   * The slave connection list: deserialised when the stored text is valid
   * JSON, `null` otherwise.
   */
  function SlaveConfigs(text: Option<string>, f: Foreign): (r: Result<Option<seq<SlaveConnectionConfig>>, ScopeError>)
    ensures text.None? || !f.jsonIsValid(text.value) ==> r == Ok(None)
    ensures r.Ok? && r.value.Some? ==> text.Some? && f.jsonIsValid(text.value) && f.deserializeSlaves(text.value) == r.value
    ensures r.Err? ==> r.error == MalformedSlaveConnections
    ensures text.Some? && f.jsonIsValid(text.value) && f.deserializeSlaves(text.value).Some? ==>
      r == Ok(f.deserializeSlaves(text.value))
    ensures text.Some? && f.jsonIsValid(text.value) && f.deserializeSlaves(text.value).None? ==>
      r == Err(MalformedSlaveConnections)
  {
    if text.Some? && f.jsonIsValid(text.value) then
      match f.deserializeSlaves(text.value)
      case Some(slaves) => Ok(Some(slaves))
      case None => Err(MalformedSlaveConnections)
    else Ok(None)
  }

  /**
   * The connection configuration built for a tenant: its id as config id,
   * its database type, auto-close on, the decrypted connection string, the
   * main configuration's naming convention, and its slave connections.
   */
  function TenantConnectionConfig(t: Tenant, main: DbConnectionConfig, f: Foreign): (r: Result<DbConnectionConfig, ScopeError>)
    ensures r.Ok? <==> f.sm2Decrypt(t.connection).Some? && SlaveConfigs(t.slaveConnections, f).Ok?
    ensures f.sm2Decrypt(t.connection).None? ==> r == Err(DecryptionFailed)
    ensures f.sm2Decrypt(t.connection).Some? && SlaveConfigs(t.slaveConnections, f).Err? ==> r == Err(MalformedSlaveConnections)
    ensures r.Ok? ==> r.value.configId == Some(FormatInt64(t.id))
    ensures r.Ok? ==> r.value.dbType == t.dbType && r.value.isAutoCloseConnection
    ensures r.Ok? ==> Some(r.value.connectionString) == f.sm2Decrypt(t.connection)
    ensures r.Ok? ==> r.value.dbSettings.enableUnderLine == main.dbSettings.enableUnderLine
    ensures r.Ok? ==> Ok(r.value.slaveConnectionConfigs) == SlaveConfigs(t.slaveConnections, f)
    ensures r.Ok? ==> r.value.connId.None? && !r.value.dbSettings.enableInitDb && !r.value.dbSettings.enableDiffLog
  {
    match f.sm2Decrypt(t.connection)
    case None => Err(DecryptionFailed)
    case Some(connectionString) =>
      var slaves :- SlaveConfigs(t.slaveConnections, f);
      Ok(DbConnectionConfig(
        Some(FormatInt64(t.id)), None, t.dbType, connectionString, true,
        DbSettings(false, false, main.dbSettings.enableUnderLine), slaves))
  }

  /** What a scope lookup returns: the scope (`None` for `null`) and the registry afterwards. */
  datatype ScopeLookup = ScopeLookup(scope: Option<Scope>, registry: Registry)

  /**
   * The body of the locked section: find the tenant in the cached list,
   * build its configuration from the main one, register it and hand out its
   * scope. It does not look at the registry first.
   */
  function MaterialiseLocked(reg: Registry, tenantId: int64, cached: Option<seq<Tenant>>,
                             configs: seq<DbConnectionConfig>, f: Foreign): (r: Result<ScopeLookup, ScopeError>)
    ensures cached.None? ==> r == Ok(ScopeLookup(None, reg))
    ensures r.Ok? ==> Extends(reg, r.value.registry)
    ensures r.Ok? ==> r.value.registry.Keys <= reg.Keys + {FormatInt64(tenantId)}
    ensures r.Ok? && r.value.scope.Some? ==>
      r.value.scope.value == Scope(FormatInt64(tenantId)) && FormatInt64(tenantId) in r.value.registry
    ensures r.Ok? && r.value.scope.None? ==> r.value.registry == reg && cached.None?
    ensures WellKeyed(reg) && r.Ok? ==> WellKeyed(r.value.registry)
    ensures FindCachedTenant(cached, tenantId).Err? ==> r == Err(NoMatchingTenant)
    ensures cached.Some? && FindCachedTenant(cached, tenantId).Ok? && FirstIndex(configs, IsMainConfig).None? ==>
      r == Err(NoMainConnectionConfig)
    ensures var found := FindCachedTenant(cached, tenantId); var main := FirstIndex(configs, IsMainConfig);
      (r.Ok? && r.value.scope.Some?) <==>
        (found.Ok? && found.value.Some? && main.Some? && TenantConnectionConfig(found.value.value, configs[main.value], f).Ok?)
    ensures var found := FindCachedTenant(cached, tenantId); var main := FirstIndex(configs, IsMainConfig);
      found.Ok? && found.value.Some? && main.Some? && TenantConnectionConfig(found.value.value, configs[main.value], f).Ok? ==>
        var config := TenantConnectionConfig(found.value.value, configs[main.value], f).value;
        && r.Ok?
        && r.value.registry == (if FormatInt64(tenantId) in reg then reg else reg[FormatInt64(tenantId) := config])
    ensures var found := FindCachedTenant(cached, tenantId); var main := FirstIndex(configs, IsMainConfig);
      found.Ok? && found.value.Some? && main.Some? && TenantConnectionConfig(found.value.value, configs[main.value], f).Err? ==>
        r == Err(TenantConnectionConfig(found.value.value, configs[main.value], f).error)
  {
    var found :- FindCachedTenant(cached, tenantId);
    if found.None? then Ok(ScopeLookup(None, reg))
    else match FirstIndex(configs, IsMainConfig)
      case None => Err(NoMainConnectionConfig)
      case Some(m) =>
        var config :- TenantConnectionConfig(found.value, configs[m], f);
        Ok(ScopeLookup(Some(Scope(FormatInt64(tenantId))), AddConnection(reg, config)))
  }

  /**
   * `GetTenantDbConnectionScope(tenantId)`: the registered scope when the
   * tenant's connection exists, otherwise the locked materialisation step.
   */
  function GetTenantDbConnectionScope(reg: Registry, tenantId: int64, cached: Option<seq<Tenant>>,
                                      configs: seq<DbConnectionConfig>, f: Foreign): (r: Result<ScopeLookup, ScopeError>)
    ensures FormatInt64(tenantId) in reg ==> r == Ok(ScopeLookup(Some(Scope(FormatInt64(tenantId))), reg))
    ensures FormatInt64(tenantId) !in reg && cached.None? ==> r == Ok(ScopeLookup(None, reg))
    ensures r.Ok? ==> Extends(reg, r.value.registry)
    ensures r.Ok? ==> r.value.registry.Keys <= reg.Keys + {FormatInt64(tenantId)}
    ensures r.Ok? && r.value.scope.Some? ==>
      r.value.scope.value == Scope(FormatInt64(tenantId)) && FormatInt64(tenantId) in r.value.registry
    ensures WellKeyed(reg) && r.Ok? ==> WellKeyed(r.value.registry)
    ensures var found := FindCachedTenant(cached, tenantId); var main := FirstIndex(configs, IsMainConfig);
      FormatInt64(tenantId) !in reg ==>
        ((r.Ok? && r.value.scope.Some?) <==>
          (found.Ok? && found.value.Some? && main.Some? && TenantConnectionConfig(found.value.value, configs[main.value], f).Ok?))
    ensures var found := FindCachedTenant(cached, tenantId); var main := FirstIndex(configs, IsMainConfig);
      FormatInt64(tenantId) !in reg && cached.Some? ==>
        (r.Err? <==>
          !(found.Ok? && found.value.Some? && main.Some? && TenantConnectionConfig(found.value.value, configs[main.value], f).Ok?))
    ensures FormatInt64(tenantId) !in reg && FindCachedTenant(cached, tenantId).Err? ==> r == Err(NoMatchingTenant)
    ensures (FormatInt64(tenantId) !in reg && cached.Some? && FindCachedTenant(cached, tenantId).Ok? &&
             FirstIndex(configs, IsMainConfig).None?) ==> r == Err(NoMainConnectionConfig)
    ensures var found := FindCachedTenant(cached, tenantId); var main := FirstIndex(configs, IsMainConfig);
      FormatInt64(tenantId) !in reg &&
      found.Ok? && found.value.Some? && main.Some? && TenantConnectionConfig(found.value.value, configs[main.value], f).Ok? ==>
        r == Ok(ScopeLookup(Some(Scope(FormatInt64(tenantId))),
                            reg[FormatInt64(tenantId) := TenantConnectionConfig(found.value.value, configs[main.value], f).value]))
  {
    var key := FormatInt64(tenantId);
    if IsAnyConnection(reg, key) then Ok(ScopeLookup(Some(Scope(key)), reg))
    else MaterialiseLocked(reg, tenantId, cached, configs, f)
  }

  /**
   * A tenant seen for the first time, whose connection decrypts and whose
   * slave list is readable, gets a connection registered under its id that
   * holds its decrypted connection string, its database type and the main
   * configuration's naming convention, and the call hands out that scope.
   */
  lemma NewTenantRegistered(reg: Registry, tenants: seq<Tenant>, i: nat, configs: seq<DbConnectionConfig>, m: nat, f: Foreign)
    requires i < |tenants| && forall j | 0 <= j < i :: tenants[j].id != tenants[i].id
    requires FormatInt64(tenants[i].id) !in reg
    requires m < |configs| && IsMainConfig(configs[m]) && forall j | 0 <= j < m :: !IsMainConfig(configs[j])
    requires f.sm2Decrypt(tenants[i].connection).Some? && SlaveConfigs(tenants[i].slaveConnections, f).Ok?
    ensures var key := FormatInt64(tenants[i].id);
      var r := GetTenantDbConnectionScope(reg, tenants[i].id, Some(tenants), configs, f);
      && r.Ok? && r.value.scope == Some(Scope(key))
      && r.value.registry.Keys == reg.Keys + {key}
      && var c := r.value.registry[key];
      && c.configId == Some(key) && c.dbType == tenants[i].dbType && c.isAutoCloseConnection
      && Some(c.connectionString) == f.sm2Decrypt(tenants[i].connection)
      && c.dbSettings.enableUnderLine == configs[m].dbSettings.enableUnderLine
  {
    var found := FindCachedTenant(Some(tenants), tenants[i].id);
    var k :| 0 <= k < |tenants| && tenants[k] == found.value.value && forall j | 0 <= j < k :: tenants[j].id != tenants[i].id;
    assert k == i;
    var main := FirstIndex(configs, IsMainConfig);
    assert main == Some(m);
  }

  /**
   * Once a tenant's scope has been materialised, asking again, whatever the
   * cache, configuration or library calls then say, takes the fast path
   * and adds nothing.
   */
  lemma SecondCallTakesFastPath(reg: Registry, tenantId: int64, cached: Option<seq<Tenant>>,
                                configs: seq<DbConnectionConfig>, f: Foreign,
                                cached2: Option<seq<Tenant>>, configs2: seq<DbConnectionConfig>, f2: Foreign)
    requires var r := GetTenantDbConnectionScope(reg, tenantId, cached, configs, f); r.Ok? && r.value.scope.Some?
    ensures var reg1 := GetTenantDbConnectionScope(reg, tenantId, cached, configs, f).value.registry;
      GetTenantDbConnectionScope(reg1, tenantId, cached2, configs2, f2) == Ok(ScopeLookup(Some(Scope(FormatInt64(tenantId))), reg1))
  {
  }

  /**
   * The locked section does not check the registry again: for a tenant that
   * is already registered, an absent tenant list makes it return `null`
   * where the fast path returns the scope.
   */
  lemma LockedSectionDoesNotRecheck(reg: Registry, tenantId: int64, configs: seq<DbConnectionConfig>, f: Foreign)
    requires FormatInt64(tenantId) in reg
    ensures MaterialiseLocked(reg, tenantId, None, configs, f) == Ok(ScopeLookup(None, reg))
    ensures GetTenantDbConnectionScope(reg, tenantId, None, configs, f) == Ok(ScopeLookup(Some(Scope(FormatInt64(tenantId))), reg))
  {
  }

  /**
   * For an already registered tenant, running the locked section again
   * leaves the registered configuration as it was.
   */
  lemma LockedSectionKeepsRegisteredConfig(reg: Registry, tenantId: int64, cached: Option<seq<Tenant>>,
                                           configs: seq<DbConnectionConfig>, f: Foreign)
    requires FormatInt64(tenantId) in reg
    ensures var r := MaterialiseLocked(reg, tenantId, cached, configs, f); r.Ok? ==> r.value.registry == reg
  {
  }
}
