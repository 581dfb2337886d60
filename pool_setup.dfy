/**
  The build steps that create one pool per eligible data source and register
  the health check.

  The configured data-source names are visited in the iteration order of the
  configuration's key set, given here as the sequence `order`. Creating a pool
  is recorded as the name it was created for; what the creation configures
  (synthetic beans, recorder calls) is not part of this model.
*/
module PoolSetup {
  import opened Options
  import opened PoolEligibility

  /** The class name the health item registers. */
  const HealthCheckClass := "io.quarkus.reactive.db2.client.runtime.health.ReactiveDB2DataSourcesHealthCheck"

  /** A health item: the check's class and whether health checks are enabled. */
  datatype HealthItem = HealthItem(checkClass: string, enabled: bool)

  /** Every configured data source has a reactive entry as well. */
  ghost predicate WellFormed(config: DataSourcesBuildTimeConfig, reactive: DataSourcesReactiveBuildTimeConfig) {
    forall name :: name in config.dataSources ==> name in reactive.dataSources
  }

  /** No name occurs twice. */
  ghost predicate Distinct(s: seq<string>) {
    forall i, j :: 0 <= i < j < |s| ==> s[i] != s[j]
  }

  /** `order` lists every configured data-source name exactly once. */
  ghost predicate Enumerates(order: seq<string>, config: DataSourcesBuildTimeConfig) {
    Distinct(order) && forall name :: name in order <==> name in config.dataSources
  }

  /** The names of `order` for which a pool is defined, in the same order. */
  function EligibleInOrder(order: seq<string>, config: DataSourcesBuildTimeConfig,
                           reactive: DataSourcesReactiveBuildTimeConfig, env: Collaborators): (r: seq<string>)
    requires forall name :: name in order ==> Configured(config, reactive, name)
    ensures forall name :: name in r <==> name in order && IsReactiveDB2PoolDefined(config, reactive, name, env)
    ensures Distinct(order) ==> Distinct(r)
  {
    if |order| == 0 then []
    else
      var last := order[|order| - 1];
      EligibleInOrder(order[..|order| - 1], config, reactive, env)
        + (if IsReactiveDB2PoolDefined(config, reactive, last, env) then [last] else [])
  }

  /** The configured data sources that get a pool. */
  ghost function PoolNames(config: DataSourcesBuildTimeConfig, reactive: DataSourcesReactiveBuildTimeConfig,
                           env: Collaborators): set<string>
    requires WellFormed(config, reactive)
  {
    set name | name in config.dataSources && IsReactiveDB2PoolDefined(config, reactive, name, env)
  }

  /**
    Collecting the eligible names of an enumeration of the configured data
    sources into a set gives exactly the pool names, and each of them is
    eligible once.
  */
  lemma EligibleNamesArePoolNames(order: seq<string>, config: DataSourcesBuildTimeConfig,
                                  reactive: DataSourcesReactiveBuildTimeConfig, env: Collaborators)
    requires WellFormed(config, reactive) && Enumerates(order, config)
    ensures (set name | name in EligibleInOrder(order, config, reactive, env)) == PoolNames(config, reactive, env)
    ensures forall name :: multiset(EligibleInOrder(order, config, reactive, env))[name] ==
              if name in config.dataSources && IsReactiveDB2PoolDefined(config, reactive, name, env) then 1 else 0
  {
    var eligible := EligibleInOrder(order, config, reactive, env);
    forall name
      ensures multiset(eligible)[name] ==
                if name in config.dataSources && IsReactiveDB2PoolDefined(config, reactive, name, env) then 1 else 0
    {
      DistinctOccurrences(eligible, name);
    }
  }

  /** A name occurs in a sequence without repetitions exactly once or not at all. */
  lemma {:induction false} DistinctOccurrences(s: seq<string>, name: string)
    requires Distinct(s)
    ensures multiset(s)[name] == if name in s then 1 else 0
  {
    if |s| != 0 {
      var init := s[..|s| - 1];
      DistinctOccurrences(init, name);
      assert s == init + [s[|s| - 1]];
      assert s[|s| - 1] !in init;
    }
  }

  /**
    The pool-creating build step. `created` lists the data sources a pool was
    created for, in creation order, which is also what the name builder
    receives; `poolNames` is the collected name set; and
    `support` holds the names handed to the pool-support bean when that bean is
    produced.
  */
  method Build(config: DataSourcesBuildTimeConfig, reactive: DataSourcesReactiveBuildTimeConfig,
               env: Collaborators, order: seq<string>)
    returns (created: seq<string>, poolNames: set<string>, support: Option<set<string>>)
    requires WellFormed(config, reactive)
    requires Enumerates(order, config)
    ensures created == EligibleInOrder(order, config, reactive, env)
    ensures forall name :: multiset(created)[name] ==
              if name in config.dataSources && IsReactiveDB2PoolDefined(config, reactive, name, env) then 1 else 0
    ensures poolNames == PoolNames(config, reactive, env)
    ensures support.Some? <==> poolNames != {}
    ensures support.Some? ==> support.value == poolNames
  {
    created := [];
    for i := 0 to |order|
      invariant created == EligibleInOrder(order[..i], config, reactive, env)
    {
      assert order[..i + 1][..i] == order[..i];
      var name := order[i];
      if !IsReactiveDB2PoolDefined(config, reactive, name, env) {
        continue;
      }
      created := created + [name];
    }
    assert order[..|order|] == order;
    EligibleNamesArePoolNames(order, config, reactive, env);
    poolNames := set name | name in created;
    if poolNames != {} {
      support := Some(poolNames);
    } else {
      support := None;
    }
  }

  /** Some pool is defined, for the default data source or for a configured one. */
  ghost predicate AnyPoolDefined(config: DataSourcesBuildTimeConfig, reactive: DataSourcesReactiveBuildTimeConfig,
                                 env: Collaborators)
    requires WellFormed(config, reactive) && Configured(config, reactive, DefaultDataSourceName)
  {
    || IsReactiveDB2PoolDefined(config, reactive, DefaultDataSourceName, env)
    || exists name :: name in config.dataSources && IsReactiveDB2PoolDefined(config, reactive, name, env)
  }

  /** Checks the default data source first, then the configured ones, stopping at the first pool. */
  method HasPools(config: DataSourcesBuildTimeConfig, reactive: DataSourcesReactiveBuildTimeConfig,
                  env: Collaborators, order: seq<string>) returns (found: bool)
    requires WellFormed(config, reactive) && Configured(config, reactive, DefaultDataSourceName)
    requires Enumerates(order, config)
    ensures found <==> AnyPoolDefined(config, reactive, env)
  {
    if IsReactiveDB2PoolDefined(config, reactive, DefaultDataSourceName, env) {
      return true;
    }
    for i := 0 to |order|
      invariant forall k :: 0 <= k < i ==> !IsReactiveDB2PoolDefined(config, reactive, order[k], env)
    {
      if IsReactiveDB2PoolDefined(config, reactive, order[i], env) {
        return true;
      }
    }
    return false;
  }

  /**
    The health build step: a health item is produced only when the health
    capability is present and some pool is defined.
  */
  method AddHealthCheck(healthCapability: bool, config: DataSourcesBuildTimeConfig,
                        reactive: DataSourcesReactiveBuildTimeConfig, env: Collaborators, order: seq<string>)
    returns (health: Option<HealthItem>)
    requires healthCapability ==> WellFormed(config, reactive) && Configured(config, reactive, DefaultDataSourceName)
    requires healthCapability ==> Enumerates(order, config)
    ensures health.Some? <==> healthCapability && AnyPoolDefined(config, reactive, env)
    ensures health.Some? ==> health.value == HealthItem(HealthCheckClass, config.healthEnabled)
  {
    if !healthCapability {
      return None;
    }
    var pools := HasPools(config, reactive, env, order);
    if !pools {
      return None;
    }
    return Some(HealthItem(HealthCheckClass, config.healthEnabled));
  }

  /**
    The two build steps agree: when the default data source is among the
    configured ones, the health item's pool condition holds exactly when the
    pool-creating step collects a non-empty name set.
  */
  lemma HealthCheckMatchesPools(config: DataSourcesBuildTimeConfig, reactive: DataSourcesReactiveBuildTimeConfig,
                                env: Collaborators)
    requires WellFormed(config, reactive) && DefaultDataSourceName in config.dataSources
    ensures AnyPoolDefined(config, reactive, env) <==> PoolNames(config, reactive, env) != {}
  {
    if IsReactiveDB2PoolDefined(config, reactive, DefaultDataSourceName, env) {
      assert DefaultDataSourceName in PoolNames(config, reactive, env);
    }
    if exists name :: name in config.dataSources && IsReactiveDB2PoolDefined(config, reactive, name, env) {
      var name :| name in config.dataSources && IsReactiveDB2PoolDefined(config, reactive, name, env);
      assert name in PoolNames(config, reactive, env);
    }
  }

  /** Collaborators for the scenarios: the configured kind is taken as is, and "db2" is DB2. */
  function ScenarioCollaborators(): Collaborators {
    Collaborators((kind: Option<string>, fallback: bool) => kind, (kind: string) => kind == "db2",
                  (name: string) => name == DefaultDataSourceName)
  }

  /** Data sources "<default>" and "reporting" of kind DB2 and "cache" of kind PostgreSQL. */
  function ScenarioConfig(): DataSourcesBuildTimeConfig {
    DataSourcesBuildTimeConfig(
      map[DefaultDataSourceName := DataSourceBuildTimeConfig(Some("db2"), None),
          "reporting" := DataSourceBuildTimeConfig(Some("db2"), None),
          "cache" := DataSourceBuildTimeConfig(Some("postgresql"), None)],
      true, true)
  }

  /** The reactive settings of the scenario, with the client disabled for "reporting" or not. */
  function ScenarioReactive(reportingEnabled: bool): DataSourcesReactiveBuildTimeConfig {
    DataSourcesReactiveBuildTimeConfig(
      map[DefaultDataSourceName := DataSourceReactiveBuildTimeConfig(true),
          "reporting" := DataSourceReactiveBuildTimeConfig(reportingEnabled),
          "cache" := DataSourceReactiveBuildTimeConfig(true)])
  }

  /** Only the two DB2 data sources get a pool; disabling the reactive client for "reporting" drops it. */
  lemma ScenarioPoolNames()
    ensures PoolNames(ScenarioConfig(), ScenarioReactive(true), ScenarioCollaborators()) == {DefaultDataSourceName, "reporting"}
    ensures PoolNames(ScenarioConfig(), ScenarioReactive(false), ScenarioCollaborators()) == {DefaultDataSourceName}
  {
  }
}
