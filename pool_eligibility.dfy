/**
  Whether a reactive DB2 pool is defined for a data source.

  The build-time configuration is held as values. The three calls into the
  data-source extension that decide the database kind are collaborators whose
  bodies are not part of this model: they are the fields of `Collaborators`.
*/
module PoolEligibility {
  import opened Options

  /** The reserved name of the default (unnamed) data source. */
  const DefaultDataSourceName := "<default>"

  /** Build-time settings of one data source: its configured kind and its dev-services switch. */
  datatype DataSourceBuildTimeConfig = DataSourceBuildTimeConfig(
    dbKind: Option<string>,
    devServicesEnabled: Option<bool>)

  /**
    Build-time settings of all data sources. `hasNamedDataSources` is the
    answer of the configuration's own query, and `healthEnabled` the global
    health switch.
  */
  datatype DataSourcesBuildTimeConfig = DataSourcesBuildTimeConfig(
    dataSources: map<string, DataSourceBuildTimeConfig>,
    hasNamedDataSources: bool,
    healthEnabled: bool)

  /** The reactive build-time settings of one data source. */
  datatype DataSourceReactiveBuildTimeConfig = DataSourceReactiveBuildTimeConfig(enabled: bool)

  /** The reactive build-time settings of all data sources. */
  datatype DataSourcesReactiveBuildTimeConfig = DataSourcesReactiveBuildTimeConfig(
    dataSources: map<string, DataSourceReactiveBuildTimeConfig>)

  /**
    The calls whose bodies live outside this model.
    `resolve(kind, fallback)` is the kind resolver with the list of default-kind
    items and the curated application already supplied; `isDB2` recognises a DB2
    kind; `isDefault` recognises the default data-source name.
  */
  datatype Collaborators = Collaborators(
    resolve: (Option<string>, bool) -> Option<string>,
    isDB2: string -> bool,
    isDefault: string -> bool)

  /** Both build-time maps have an entry for `name`; the lookups are not null-checked. */
  predicate Configured(config: DataSourcesBuildTimeConfig, reactive: DataSourcesReactiveBuildTimeConfig, name: string) {
    name in config.dataSources && name in reactive.dataSources
  }

  /**
    The flag that lets the resolver fall back to a default kind: always for a
    named data source; for the default one, the dev-services switch when it is
    set, and otherwise "there are no named data sources".
  */
  function UseDefaultKinds(config: DataSourcesBuildTimeConfig, name: string, env: Collaborators): (fallback: bool)
    requires name in config.dataSources
    ensures !env.isDefault(name) ==> fallback
    ensures env.isDefault(name) && config.dataSources[name].devServicesEnabled.Some? ==>
              fallback == config.dataSources[name].devServicesEnabled.value
    ensures env.isDefault(name) && config.dataSources[name].devServicesEnabled.None? ==>
              fallback == !config.hasNamedDataSources
  {
    !env.isDefault(name) || config.dataSources[name].devServicesEnabled.GetOr(!config.hasNamedDataSources)
  }

  /** The kind the resolver settles on for `name`, if any. */
  function ResolvedKind(config: DataSourcesBuildTimeConfig, name: string, env: Collaborators): Option<string>
    requires name in config.dataSources
  {
    env.resolve(config.dataSources[name].dbKind, UseDefaultKinds(config, name, env))
  }

  /**
    A reactive DB2 pool is defined for `name` exactly when a kind resolves, the
    kind is DB2, and the reactive client is enabled for that data source.
  */
  function IsReactiveDB2PoolDefined(config: DataSourcesBuildTimeConfig, reactive: DataSourcesReactiveBuildTimeConfig,
                                    name: string, env: Collaborators): (defined: bool)
    requires Configured(config, reactive, name)
    ensures ResolvedKind(config, name, env).None? ==> !defined
    ensures defined <==>
              && ResolvedKind(config, name, env).Some?
              && env.isDB2(ResolvedKind(config, name, env).value)
              && reactive.dataSources[name].enabled
  {
    var dbKind := env.resolve(config.dataSources[name].dbKind, UseDefaultKinds(config, name, env));
    if dbKind.None? then false
    else if !env.isDB2(dbKind.value) || !reactive.dataSources[name].enabled then false
    else true
  }

  /**
    The decision for `name` reads only that data source's own entries and the
    configuration's answer about named data sources: changing any other data
    source leaves it as it is.
  */
  lemma DecisionIsLocal(config: DataSourcesBuildTimeConfig, reactive: DataSourcesReactiveBuildTimeConfig,
                        config': DataSourcesBuildTimeConfig, reactive': DataSourcesReactiveBuildTimeConfig,
                        name: string, env: Collaborators)
    requires Configured(config, reactive, name) && Configured(config', reactive', name)
    requires config'.dataSources[name] == config.dataSources[name]
    requires config'.hasNamedDataSources == config.hasNamedDataSources
    requires reactive'.dataSources[name] == reactive.dataSources[name]
    ensures IsReactiveDB2PoolDefined(config', reactive', name, env) == IsReactiveDB2PoolDefined(config, reactive, name, env)
  {
  }
}
