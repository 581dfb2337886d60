# Reactive DB2 client build steps: a verified model

This project models the decision logic in the build-time processor of the
reactive DB2 client extension (`ReactiveDB2ClientProcessor`). The processor
does three things that depend on configuration, and each gets a module of its
own:

- **Duplicate pool-creator validation** (`validateBeans`), in modules
  `QualifierKeys` and `BeanValidation`. Each bean whose types include
  `DB2PoolCreator` gets a key: its qualifier names go into a `TreeSet` and are
  joined with `"_"`. The keys are recorded in a `seen` map. A bean whose key was
  already recorded produces a validation error with a fixed message. The
  `TreeSet` is modelled as its ascending sequence (`Insert`, `TreeSetOf`). The
  joining is `Join`. The pass itself is the imperative method
  `ValidateBeans`, whose loop updates `seen` as the source does.
- **Pool eligibility** (`isReactiveDB2PoolDefined`), in module
  `PoolEligibility`. The resolver's fallback flag, the kind resolution and the
  three-way check are modelled as pure functions over the build-time
  configuration.
- **Pool creation and the health guard** (`build`, `hasPools`,
  `addHealthCheck`), in module `PoolSetup`. `Build` is the loop that creates
  one pool per eligible data source and collects their names. `HasPools` is the
  search with early return. `AddHealthCheck` holds the two guards.

Names, their ordering and their rendering belong to the container, so they are
parameters: a type `N`, a function `less`, a function `show`. Properties that
need the TreeSet's ordering assume `StrictTotalOrder(less)`. The kind resolver,
`DatabaseKind.isDB2` and `DataSourceUtil.isDefault` are the fields of a
`Collaborators` value. The iteration order of the configuration's key set is
the sequence `order`, which lists every configured name exactly once.

The code's comment states the intent "no two Db2PoolCreator beans can be
associated with the same datasource"; the model follows what the code does:

- Validation groups beans by the joined qualifier string, not by data-source
  name. `KeyCollides` shows that two different qualifier sets can share a key.
- Validation does not stop at the first duplicate. It produces one error for
  every bean whose key was already seen and goes on.

## Model

| member | source | states |
|---|---|---|
| `QualifierKeys.Insert` | extensions/reactive-db2-client/deployment/src/main/java/io/quarkus/reactive/db2/client/deployment/ReactiveDB2ClientProcessor.java:149 | Adding a name to the sorted set keeps it strictly ascending, and its elements become the old elements plus the name; a name already present is not added twice |
| `QualifierKeys.TreeSetOf` | extensions/reactive-db2-client/deployment/src/main/java/io/quarkus/reactive/db2/client/deployment/ReactiveDB2ClientProcessor.java:147-150 | The set built from a bean's qualifiers is strictly ascending and holds exactly the names among the qualifiers |
| `QualifierKeys.Rendered` | extensions/reactive-db2-client/deployment/src/main/java/io/quarkus/reactive/db2/client/deployment/ReactiveDB2ClientProcessor.java:151 | Rendering keeps the set's order and length; the i-th part is the i-th name's `toString` |
| `QualifierKeys.CanonicalKey` | extensions/reactive-db2-client/deployment/src/main/java/io/quarkus/reactive/db2/client/deployment/ReactiveDB2ClientProcessor.java:147-151 | The add-one-qualifier-at-a-time loop followed by the join yields exactly `Key` of the qualifier list |
| `QualifierKeys.SortedUnique` | extensions/reactive-db2-client/deployment/src/main/java/io/quarkus/reactive/db2/client/deployment/ReactiveDB2ClientProcessor.java:147 | Two strictly ascending sequences with the same elements are equal, so the sorted set's iteration order is determined by its contents |
| `QualifierKeys.KeyDependsOnlyOnNames` | extensions/reactive-db2-client/deployment/src/main/java/io/quarkus/reactive/db2/client/deployment/ReactiveDB2ClientProcessor.java:147-151 | Two qualifier lists with the same names give the same key, whatever their order and repetitions |
| `QualifierKeys.KeyIgnoresOrder` | extensions/reactive-db2-client/deployment/src/main/java/io/quarkus/reactive/db2/client/deployment/ReactiveDB2ClientProcessor.java:147-151 | Permuting the qualifiers does not change the key |
| `QualifierKeys.KeyIgnoresRepetition` | extensions/reactive-db2-client/deployment/src/main/java/io/quarkus/reactive/db2/client/deployment/ReactiveDB2ClientProcessor.java:147-151 | Repeating a qualifier already present does not change the key |
| `QualifierKeys.KeyCollides` | extensions/reactive-db2-client/deployment/src/main/java/io/quarkus/reactive/db2/client/deployment/ReactiveDB2ClientProcessor.java:151 | The key is not injective: the name set {"a_b"} and the name set {"a", "b"} both give "a_b" |
| `Options.GetOrDefault` | extensions/reactive-db2-client/deployment/src/main/java/io/quarkus/reactive/db2/client/deployment/ReactiveDB2ClientProcessor.java:152 | Map.getOrDefault: the value under the key when the key is present, the default otherwise |
| `Options.Option.GetOr` | extensions/reactive-db2-client/deployment/src/main/java/io/quarkus/reactive/db2/client/deployment/ReactiveDB2ClientProcessor.java:262 | Optional.orElse: the held value when there is one, the default otherwise |
| `QualifierKeys.Join` | extensions/reactive-db2-client/deployment/src/main/java/io/quarkus/reactive/db2/client/deployment/ReactiveDB2ClientProcessor.java:151 | `Collectors.joining(sep)`: the parts with the separator between neighbours, the empty string for no parts (a definition; its step property is `JoinAppend`) |
| `QualifierKeys.JoinAppend` | extensions/reactive-db2-client/deployment/src/main/java/io/quarkus/reactive/db2/client/deployment/ReactiveDB2ClientProcessor.java:151 | `Join`, the model of `Collectors.joining`, grows by the separator and the new part when a part is appended to a non-empty list, so the parts appear in order with one separator between neighbours |
| `QualifierKeys.Key` | extensions/reactive-db2-client/deployment/src/main/java/io/quarkus/reactive/db2/client/deployment/ReactiveDB2ClientProcessor.java:147-151 | A bean without qualifiers gets the empty key; a bean with one qualifier gets that name's rendering |
| `BeanValidation.IsPoolCreator` | extensions/reactive-db2-client/deployment/src/main/java/io/quarkus/reactive/db2/client/deployment/ReactiveDB2ClientProcessor.java:296-302 | The bean-type predicate holds exactly when the bean's types contain the pool-creator type (a definition) |
| `BeanValidation.MatchPoolCreators` | extensions/reactive-db2-client/deployment/src/main/java/io/quarkus/reactive/db2/client/deployment/ReactiveDB2ClientProcessor.java:145-146 | The matched beans are exactly the beans whose types contain the pool-creator type, each kept as many times as it occurs in the container |
| `BeanValidation.MatchPoolCreatorsAppend` | extensions/reactive-db2-client/deployment/src/main/java/io/quarkus/reactive/db2/client/deployment/ReactiveDB2ClientProcessor.java:145-146 | Matching keeps the container's order: matching a longer sequence gives the matches of its prefix followed by the last bean when it matches |
| `BeanValidation.CreatorKeys` | extensions/reactive-db2-client/deployment/src/main/java/io/quarkus/reactive/db2/client/deployment/ReactiveDB2ClientProcessor.java:145-151 | Each matched bean has one key |
| `BeanValidation.CreatorKeyAt` | extensions/reactive-db2-client/deployment/src/main/java/io/quarkus/reactive/db2/client/deployment/ReactiveDB2ClientProcessor.java:147-151 | The i-th key is the key of the i-th matched bean's qualifiers |
| `BeanValidation.DuplicateIffKeyMet` | extensions/reactive-db2-client/deployment/src/main/java/io/quarkus/reactive/db2/client/deployment/ReactiveDB2ClientProcessor.java:152 | A bean's key is among the keys recorded before it exactly when an earlier bean has the same key |
| `BeanValidation.VisitDuplicate` | extensions/reactive-db2-client/deployment/src/main/java/io/quarkus/reactive/db2/client/deployment/ReactiveDB2ClientProcessor.java:152-156 | Visiting a bean whose key is recorded adds exactly one error for that bean and leaves `seen` as it was, keeping the pass's invariant |
| `BeanValidation.VisitNew` | extensions/reactive-db2-client/deployment/src/main/java/io/quarkus/reactive/db2/client/deployment/ReactiveDB2ClientProcessor.java:157-159 | Visiting a bean with a new key records the key as true and adds no error, keeping the pass's invariant |
| `BeanValidation.ValidateBeans` | extensions/reactive-db2-client/deployment/src/main/java/io/quarkus/reactive/db2/client/deployment/ReactiveDB2ClientProcessor.java:140-161 | A bean gets an error exactly when an earlier matched bean had the same key, so the first bean with a key never does; every error carries the fixed message and they come in bean order; afterwards the keys of `seen` are exactly the keys met and every value is true; the number of errors is the number of matched beans minus the number of distinct keys; there is no error exactly when all keys differ |
| `BeanValidation.NoErrorsIffDistinctKeys` | extensions/reactive-db2-client/deployment/src/main/java/io/quarkus/reactive/db2/client/deployment/ReactiveDB2ClientProcessor.java:152-159 | When errors go exactly to the beans that repeat an earlier key, there are no errors exactly when all keys are different |
| `PoolEligibility.UseDefaultKinds` | extensions/reactive-db2-client/deployment/src/main/java/io/quarkus/reactive/db2/client/deployment/ReactiveDB2ClientProcessor.java:261-262 | The resolver's fallback flag is true for a named data source; for the default one it is the dev-services switch when set, and otherwise "there are no named data sources" |
| `PoolEligibility.ResolvedKind` | extensions/reactive-db2-client/deployment/src/main/java/io/quarkus/reactive/db2/client/deployment/ReactiveDB2ClientProcessor.java:259-263 | The resolver is called with the data source's configured kind and the fallback flag (a definition) |
| `PoolEligibility.IsReactiveDB2PoolDefined` | extensions/reactive-db2-client/deployment/src/main/java/io/quarkus/reactive/db2/client/deployment/ReactiveDB2ClientProcessor.java:250-275 | A pool is defined exactly when a kind resolves, the kind is DB2 and the reactive client is enabled for that data source; it is not defined when no kind resolves |
| `PoolEligibility.DecisionIsLocal` | extensions/reactive-db2-client/deployment/src/main/java/io/quarkus/reactive/db2/client/deployment/ReactiveDB2ClientProcessor.java:254-263 | The decision for a name reads only that name's own entries and the named-data-sources answer |
| `PoolSetup.EligibleInOrder` | extensions/reactive-db2-client/deployment/src/main/java/io/quarkus/reactive/db2/client/deployment/ReactiveDB2ClientProcessor.java:100-111 | The names a pool is created for are exactly the visited names that pass the predicate, without repetition when the visited names have none |
| `PoolSetup.EligibleNamesArePoolNames` | extensions/reactive-db2-client/deployment/src/main/java/io/quarkus/reactive/db2/client/deployment/ReactiveDB2ClientProcessor.java:99-113 | Over an enumeration of the configured names, the collected name set equals the configured names that pass the predicate, and each of those is created exactly once |
| `PoolSetup.Build` | extensions/reactive-db2-client/deployment/src/main/java/io/quarkus/reactive/db2/client/deployment/ReactiveDB2ClientProcessor.java:99-121 | A pool is created once for each configured name that passes the predicate and never for one that fails it; the collected set is exactly those names; the pool-support bean is produced exactly when that set is non-empty, and it receives that set |
| `PoolSetup.HasPools` | extensions/reactive-db2-client/deployment/src/main/java/io/quarkus/reactive/db2/client/deployment/ReactiveDB2ClientProcessor.java:277-294 | The answer is true exactly when a pool is defined for the default name or for some configured name |
| `PoolSetup.AddHealthCheck` | extensions/reactive-db2-client/deployment/src/main/java/io/quarkus/reactive/db2/client/deployment/ReactiveDB2ClientProcessor.java:178-198 | The health item is produced exactly when the health capability is present and some pool is defined; it names the DB2 health check class and carries the global health switch; without the capability nothing about the configuration is required |
| `PoolSetup.HealthCheckMatchesPools` | extensions/reactive-db2-client/deployment/src/main/java/io/quarkus/reactive/db2/client/deployment/ReactiveDB2ClientProcessor.java:113-114 | When the default data source is configured, the health step's pool condition holds exactly when the pool step collects a non-empty name set |
| `PoolSetup.ScenarioPoolNames` | extensions/reactive-db2-client/deployment/src/main/java/io/quarkus/reactive/db2/client/deployment/ReactiveDB2ClientProcessor.java:100-113 | With "<default>" and "reporting" of kind DB2 and "cache" of kind PostgreSQL, the pools are exactly "<default>" and "reporting"; with the reactive client disabled for "reporting", only "<default>" remains |

## Left out

- `Name.from`, the ordering of names and `Name.toString` belong to the container. Beans carry their qualifiers as names already. The ordering is the parameter `less` and the rendering is the parameter `show`.
- `DefaultDataSourceDbKindBuildItem.resolve`, `DatabaseKind.isDB2` and `DataSourceUtil.isDefault` are not part of this model. They are the fields of `Collaborators`. The list of default-kind items and the curated application are already supplied to `resolve`.
- `DataSourcesBuildTimeConfig.hasNamedDataSources()` is not part of this model. Its answer is the field `hasNamedDataSources`.
- The configuration maps are read without a null check. The model therefore requires that every looked-up name has an entry in both maps, including the default name in `HasPools` and in `AddHealthCheck` when the health capability is present.
- The key-set iteration order is unspecified in the source. It is the parameter `order`.
- `createPool` is recorded only as the name it is called for. The synthetic-bean configuration it does and the recorder calls (`configureDB2Pool`, `mutinyDB2Pool`, `poolCheckActiveSupplier`, `createDB2PoolSupport`) are framework wiring with no visible bodies.
- The fixed build items are left out: the feature item, SSL native support, the Vert.x pool item, the service-start item, the dev-services handler, the unremovable-bean item and the service-binding registration. They are produced unconditionally, or under a capability check only.
- `BeanValidation.ValidateBeans`: the source's errors do not name a bean. Each modelled error also carries the index of the bean that produced it, so that the flagged beans can be stated. The `seen` map is local in the source; it is returned here so that its final contents can be stated.
- The pool registry, connection acquisition, shutdown and health probing are not in this code. They are runtime I/O and concurrency inside the driver.
