/**
 * `DbConnectionOptions`: the list of database connection configurations read
 * from configuration, and the post-configuration step that gives every
 * configuration without an id the main database's id.
 */
module DbConnectionOptions {
  import opened Common
  import opened Text

  /** SqlSugar's `DbType`, by its enum code. */
  type DbType = int

  datatype DbSettings = DbSettings(enableInitDb: bool, enableDiffLog: bool, enableUnderLine: bool)

  datatype SlaveConnectionConfig = SlaveConnectionConfig(hitRate: int, connectionString: string)

  /**
   * One connection configuration. `configId` is the text of SqlSugar's
   * `ConfigId` object, or `None` while it is null.
   */
  datatype DbConnectionConfig = DbConnectionConfig(
    configId: Option<string>,
    connId: Option<string>,
    dbType: DbType,
    connectionString: string,
    isAutoCloseConnection: bool,
    dbSettings: DbSettings,
    slaveConnectionConfigs: Option<seq<SlaveConnectionConfig>>)

  datatype Options = Options(
    enableConsoleSql: bool,
    mainDb: Option<string>,
    connectionConfigs: seq<DbConnectionConfig>)

  predicate HasBlankConfigId(c: DbConnectionConfig) {
    IsNullOrWhiteSpace(c.configId)
  }

  /** One configuration after post-configuration. */
  function DefaultConfigId(c: DbConnectionConfig): DbConnectionConfig {
    if HasBlankConfigId(c) then c.(configId := Some(MainConfigId)) else c
  }

  /**
   * `PostConfigure`: every configuration whose id is null or blank gets the
   * main database's id; every other configuration, the list's length and
   * order, and the other options stay as they were.
   */
  function PostConfigure(o: Options): (r: Options)
    ensures r.enableConsoleSql == o.enableConsoleSql && r.mainDb == o.mainDb
    ensures |r.connectionConfigs| == |o.connectionConfigs|
    ensures forall i | 0 <= i < |r.connectionConfigs| :: !HasBlankConfigId(r.connectionConfigs[i])
    ensures forall i | 0 <= i < |o.connectionConfigs| && HasBlankConfigId(o.connectionConfigs[i]) ::
      r.connectionConfigs[i] == o.connectionConfigs[i].(configId := Some(MainConfigId))
    ensures forall i | 0 <= i < |o.connectionConfigs| && !HasBlankConfigId(o.connectionConfigs[i]) ::
      r.connectionConfigs[i] == o.connectionConfigs[i]
  {
    var cs := o.connectionConfigs;
    assert !IsBlank(MainConfigId) by {
      assert !IsWhiteSpace(MainConfigId[0]);
    }
    o.(connectionConfigs := seq(|cs|, i requires 0 <= i < |cs| => DefaultConfigId(cs[i])))
  }

  /** Post-configuring twice gives the same options as post-configuring once. */
  lemma PostConfigureIdempotent(o: Options)
    ensures PostConfigure(PostConfigure(o)) == PostConfigure(o)
  {
    var once := PostConfigure(o);
    var twice := PostConfigure(once);
    assert twice.connectionConfigs == once.connectionConfigs;
  }
}
