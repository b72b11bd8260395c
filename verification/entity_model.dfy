/**
 * The entity classes the data layer knows, described by the facts that
 * reflection and their attributes give the filter builder and the repository.
 */
module EntityModel {
  import opened Common

  /**
   * An entity class.
   * `derivesFromEntityBaseData` is `IsSubclassOf(typeof(EntityBaseData))`,
   * the auditable base shape carrying `CreateUserId` and `CreateOrgId`.
   * `tenantTag` is the config id of a `[Tenant]` attribute declared on the
   * class itself, `inheritedTenantTag` that of the nearest base class
   * declaring one; `logTable` and `sysTable` say whether `[LogTable]` and
   * `[SysTable]` are declared on the class itself.
   */
  datatype EntityType = EntityType(
    name: string,
    isClass: bool,
    isInterface: bool,
    isAbstract: bool,
    derivesFromEntityBaseData: bool,
    tenantTag: Option<string>,
    inheritedTenantTag: Option<string>,
    logTable: bool,
    sysTable: bool)

  /**
   * The `[Tenant]` attribute `GetCustomAttribute` finds: the class's own, or
   * else one inherited from a base class. The repository's `IsDefined(…, false)`
   * looks at the class's own attribute only.
   */
  function TenantAttribute(t: EntityType): Option<string> {
    if t.tenantTag.Some? then t.tenantTag else t.inheritedTenantTag
  }
}
