/**
 * The ORM's registry of database connections (SqlSugar's `ITenant`): the
 * configurations added so far, keyed by config id, and the connection
 * scopes handed out for them.
 */
module ConnectionRegistry {
  import opened Common
  import opened DbConnectionOptions

  /** A connection scope, known by the config id of the database it is bound to. */
  datatype Scope = Scope(configId: string)

  type Registry = map<string, DbConnectionConfig>

  /** Why resolving a scope failed; each stands for an exception the source lets escape. */
  datatype ScopeError =
    | ConfigIdNotFound(configId: string)
    | InvalidTenantClaim
    | NoMatchingTenant
    | NoMainConnectionConfig
    | DecryptionFailed
    | MalformedSlaveConnections

  /** Every configuration is registered under its own config id. */
  predicate WellKeyed(reg: Registry) {
    forall id | id in reg :: reg[id].configId == Some(id)
  }

  /** `reg'` holds every connection of `reg`, unchanged. */
  predicate Extends(reg: Registry, reg': Registry) {
    forall id | id in reg :: id in reg' && reg'[id] == reg[id]
  }

  /** `IsAnyConnection(configId)`. */
  predicate IsAnyConnection(reg: Registry, configId: string) {
    configId in reg
  }

  /** `GetConnectionScope(configId)`, which throws for an id that was never added. */
  function GetConnectionScope(reg: Registry, configId: string): (r: Result<Scope, ScopeError>)
    ensures r.Ok? <==> IsAnyConnection(reg, configId)
    ensures r.Ok? ==> r.value.configId == configId
    ensures r.Err? ==> r.error == ConfigIdNotFound(configId)
  {
    if configId in reg then Ok(Scope(configId)) else Err(ConfigIdNotFound(configId))
  }

  /** `AddConnection(config)`: registers the configuration unless its id is already registered. */
  function AddConnection(reg: Registry, c: DbConnectionConfig): (r: Registry)
    requires c.configId.Some?
    ensures r.Keys == reg.Keys + {c.configId.value}
    ensures Extends(reg, r)
    ensures c.configId.value !in reg ==> r[c.configId.value] == c
    ensures WellKeyed(reg) ==> WellKeyed(r)
  {
    if c.configId.value in reg then reg else reg[c.configId.value := c]
  }
}
