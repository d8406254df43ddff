# AMPS monitoring extension: metric extraction and reporting

This project models the core of the AppDynamics machine agent extension for
60East AMPS. Each poll cycle does the following:

- It fetches the AMPS admin document (`/amps.json`).
- It flattens seven metric groups of that document into one map from
  `category|name` to a number:
  - `host|cpus`, `host|memory` and `host|network`;
  - `instance|cpu`, `instance|caches`, `instance|queries` and `instance|processors`.
- It drops the names that match a configured exclusion pattern.
- It reports every remaining metric under the configured prefix.

Modules:

- `JavaTypes` (`java_types.dfy`) holds Java's `null` and Java exceptions, as
  `Option` and `Result`.
- `Gson` (`gson.dfy`) models the parsed JSON tree and the Gson accessors the
  extractor calls, with the exceptions they lead to. A member of the wrong
  kind gives `ClassCastException`, and `getAsJsonObject()` on a non-object
  gives `IllegalStateException`. A missing member makes
  `getAsJsonObject(name)` and `getAsJsonArray(name)` return `null`; the
  model folds the `NullPointerException` of the caller's first use of that
  `null` into the accessor's result.
- `AmpsWrapper` (`amps_wrapper.dfy`) models `AMPSWrapper`. Each Java method
  is a Dafny method with the same loops. It is proved equal to a
  specification function, and the properties are lemmas about those
  functions.
- `AmpsGroups` (`amps_groups.dfy`) restates `getHostMetrics` and
  `getInstanceMetrics` as a table of the seven groups. For each group the
  table gives where it lives and how it is selected. The module proves that a
  successful extraction is exactly the union of the groups' metrics, filed
  under pairwise-disjoint categories. It also proves that a failed
  extraction has the exception of the first group that throws.
- `AmpsExamples` (`amps_examples.dfy`) holds worked examples on small `host`
  sub-trees.
- `AmpsMonitor` (`amps_monitor.dfy`) models `AMPSMonitor`:
  - the pattern list and the match test;
  - the reporting loop, with its null guard;
  - the password decision;
  - the success or failure outcome of one `execute` cycle.

The model takes these as parameters instead of computing them:

- The parser's number test (`NumberUtils.isNumber`) and the conversion
  (`getAsDouble`) are one `NumberSupport` value, over an opaque `Double` type.
- Regular-expression compilation and matching are one `Regex` value.
- `CryptoUtil.getPassword` is a function passed in.
- The HTTP fetch and JSON parse become an `Option<Json>`, where `None` means
  an unparseable body. A failed fetch or a client that cannot be built
  becomes an exception passed in.

Java `HashMap`s are values: each method takes the map it fills and returns
the new one.

Behaviour of the code worth noting:

- A response that is absent, or is not a JSON object, yields an empty map
  and a successful cycle, not a failure (`AmpsWrapper.AmpsMetricsNoDocument`).
  A response without an `amps` member fails with `NullPointerException`
  (`AmpsWrapper.AmpsMetricsMissingRoot`).
- `getArrayMetrics` flattens every member of an element under the element's
  prefix, the naming field included. A numeric id or description is reported
  as a metric of its own (`AmpsExamples.NumericIdAlsoReported`).
- `getArrayMetrics` calls `getAsString` on every member it visits before the
  naming field. A `null` or object member there, or an array member that
  does not hold exactly one element, throws, and that fails the whole
  extraction (`AmpsWrapper.FindPrefixFieldThrows`,
  `AmpsWrapper.AddElementsMemberThrows`).
  On a one-element array, `getAsString` reads through to the element.
- An error inside any group fails the whole extraction, so nothing is
  reported that cycle (`AmpsGroups.AmpsMetricsFirstFailure`,
  `AmpsMonitor.Execute`).
- A `null` entry among the excluded-metric patterns makes `Pattern.compile`
  throw a `NullPointerException` that the `PatternSyntaxException` handler
  does not catch, so the cycle fails before anything is reported
  (`AmpsMonitor.BuildPatterns`, `AmpsMonitor.Execute`).

## Model

| member | source | states |
|---|---|---|
| Gson.GetAsString | src/main/java/com/appdynamics/extensions/amps/AMPSWrapper.java:224 | a primitive gives its text; `JsonNull` and objects throw `UnsupportedOperationException`; an array that does not hold exactly one element throws `IllegalStateException` |
| Gson.Get | src/main/java/com/appdynamics/extensions/amps/AMPSWrapper.java:291 | a member is absent exactly when no member has that name; when present, the value is the value of a member with that name |
| Gson.GetAsJsonObject | src/main/java/com/appdynamics/extensions/amps/AMPSWrapper.java:291 | succeeds exactly when the member exists and is an object, and then returns that object; a missing member gives `NullPointerException` |
| Gson.GetAsJsonArray | src/main/java/com/appdynamics/extensions/amps/AMPSWrapper.java:244 | succeeds exactly when the member exists and is an array, and then returns its elements; a missing member gives `NullPointerException` |
| Gson.AsJsonObject | src/main/java/com/appdynamics/extensions/amps/AMPSWrapper.java:255 | succeeds exactly on an object and gives its members; anything else throws `IllegalStateException` |
| AmpsWrapper.PopulateMetricsMapHelper | src/main/java/com/appdynamics/extensions/amps/AMPSWrapper.java:316-326 | the loop over the entries leaves the map `FlattenInto` describes: every numeric primitive member is put under `prefix + name` |
| AmpsWrapper.FlattenIntoKeys | src/main/java/com/appdynamics/extensions/amps/AMPSWrapper.java:317-324 | a name is in the result exactly when it was already in the map or is `prefix + name` of some numeric primitive member |
| AmpsWrapper.FlattenIntoKeeps | src/main/java/com/appdynamics/extensions/amps/AMPSWrapper.java:317-324 | a name that no member writes keeps its previous value |
| AmpsWrapper.FlattenIntoValues | src/main/java/com/appdynamics/extensions/amps/AMPSWrapper.java:321-323 | when member names are distinct, every numeric primitive member ends up under `prefix + name` with its parsed value |
| AmpsWrapper.RootMetrics | src/main/java/com/appdynamics/extensions/amps/AMPSWrapper.java:288-302 | a missing key gives `NullPointerException`; the result succeeds exactly when the member is an object |
| AmpsWrapper.GetRootMetrics | src/main/java/com/appdynamics/extensions/amps/AMPSWrapper.java:288-302 | the method computes `RootMetrics`, including its exceptions |
| AmpsWrapper.RootMetricsExact | src/main/java/com/appdynamics/extensions/amps/AMPSWrapper.java:291-298 | for an object member, the result's names are exactly the numeric primitive members' names, each with its parsed value |
| AmpsWrapper.ArrayMetricsById | src/main/java/com/appdynamics/extensions/amps/AMPSWrapper.java:244 | a missing array gives `NullPointerException` |
| AmpsWrapper.GetArrayMetricsById | src/main/java/com/appdynamics/extensions/amps/AMPSWrapper.java:241-280 | both loops, with the early exit once the id is found, compute `ArrayMetricsById` |
| AmpsWrapper.SelectByIdFirstMatch | src/main/java/com/appdynamics/extensions/amps/AMPSWrapper.java:252-276 | the first element whose primitive `id` equals the target is flattened with the empty prefix, and only that element |
| AmpsWrapper.SelectByIdIgnoresRest | src/main/java/com/appdynamics/extensions/amps/AMPSWrapper.java:252 | elements after the first match never affect the result, even ones that are not objects |
| AmpsWrapper.SelectByIdNoMatch | src/main/java/com/appdynamics/extensions/amps/AMPSWrapper.java:252-280 | when no element matches, the result is an empty map, not an error |
| AmpsWrapper.SelectByIdNonObject | src/main/java/com/appdynamics/extensions/amps/AMPSWrapper.java:255 | a non-object element reached before any match throws `IllegalStateException` |
| AmpsWrapper.ArrayMetrics | src/main/java/com/appdynamics/extensions/amps/AMPSWrapper.java:206 | a missing array gives `NullPointerException` |
| AmpsWrapper.GetArrayMetrics | src/main/java/com/appdynamics/extensions/amps/AMPSWrapper.java:203-233 | both loops, with the iterator reset that ends the inner loop once the naming field is found, compute `ArrayMetrics` |
| AmpsWrapper.FindPrefixFieldFound | src/main/java/com/appdynamics/extensions/amps/AMPSWrapper.java:220-228 | the prefix is the text of the first primitive member with the field's name, when every earlier member has a string form |
| AmpsWrapper.FindPrefixFieldThrows | src/main/java/com/appdynamics/extensions/amps/AMPSWrapper.java:224 | a member without a string form, visited before the naming field, throws `getAsString`'s exception |
| AmpsWrapper.FindPrefixFieldAbsent | src/main/java/com/appdynamics/extensions/amps/AMPSWrapper.java:219-229 | without a primitive naming field there is no prefix |
| AmpsWrapper.AddElementWithoutField | src/main/java/com/appdynamics/extensions/amps/AMPSWrapper.java:219-229 | an element without a primitive naming field adds nothing |
| AmpsWrapper.AddElementsAppend | src/main/java/com/appdynamics/extensions/amps/AMPSWrapper.java:213-230 | the outer loop handles the elements strictly in order: one more element is one more pass over the map built so far, unless an earlier element threw |
| AmpsWrapper.AddElementsLastWins | src/main/java/com/appdynamics/extensions/amps/AMPSWrapper.java:225-227 | every numeric member of the last element is in the result under `prefix|name` with its value, overwriting earlier elements with the same prefix |
| AmpsWrapper.AddElementKeys | src/main/java/com/appdynamics/extensions/amps/AMPSWrapper.java:219-228 | one pass of the outer loop adds exactly the numeric direct members of the element, under the element's `prefix|`, and nothing when the element has no naming field |
| AmpsWrapper.AddElementsKeys | src/main/java/com/appdynamics/extensions/amps/AMPSWrapper.java:212-230 | on success, a name is in the result exactly when it was already there or some element writes it as `prefix|name` of one of its numeric direct members |
| AmpsWrapper.AddElementsKeeps | src/main/java/com/appdynamics/extensions/amps/AMPSWrapper.java:212-230 | a name that no element writes keeps its previous value |
| AmpsWrapper.AddElementsValues | src/main/java/com/appdynamics/extensions/amps/AMPSWrapper.java:212-230 | every numeric member of any element is in the result under `prefix|name` with its own value unless a later element writes the same name: the last writer's value is kept |
| AmpsWrapper.AddElementsFailsAt | src/main/java/com/appdynamics/extensions/amps/AMPSWrapper.java:212-230 | the first element whose pass throws ends the whole call with that exception, whatever follows it |
| AmpsWrapper.AddElementsNonObject | src/main/java/com/appdynamics/extensions/amps/AMPSWrapper.java:216 | a non-object element reached by the outer loop throws `IllegalStateException` |
| AmpsWrapper.AddElementsMemberThrows | src/main/java/com/appdynamics/extensions/amps/AMPSWrapper.java:224 | a member of a reached element without a string form, visited before the naming field, ends the whole call with `getAsString`'s exception |
| AmpsWrapper.ArrayMetricsKeys | src/main/java/com/appdynamics/extensions/amps/AMPSWrapper.java:203-233 | on a present array, a successful result's names are exactly the `prefix|name` names its elements write, and no others |
| AmpsWrapper.QualifiedExact | src/main/java/com/appdynamics/extensions/amps/AMPSWrapper.java:162 | re-keying puts every metric under `category|name` with its value, and adds no other name |
| AmpsWrapper.QualifiedUpdate | src/main/java/com/appdynamics/extensions/amps/AMPSWrapper.java:162 | re-keying a map with one more entry adds exactly that entry, re-keyed |
| AmpsWrapper.PopulateMap | src/main/java/com/appdynamics/extensions/amps/AMPSWrapper.java:159-164 | the loop over the entries, in whatever order the set yields them, leaves the target map plus every re-keyed metric |
| AmpsWrapper.PopulateMapExact | src/main/java/com/appdynamics/extensions/amps/AMPSWrapper.java:159-164 | every metric is present under `category|name` with its value; the new names are exactly those; other names keep their values |
| AmpsWrapper.GetHostMetrics | src/main/java/com/appdynamics/extensions/amps/AMPSWrapper.java:137-157 | cpus by id `all`, then memory, then network by `id`, are filed into the map under `host|…`; the first exception ends the call |
| AmpsWrapper.GetInstanceMetrics | src/main/java/com/appdynamics/extensions/amps/AMPSWrapper.java:173-195 | cpu, then caches under `memory.caches`, then queries, then processors by id `all`, are filed into the map under `instance|…`; the first exception ends the call |
| AmpsWrapper.GatherAmpsMetrics | src/main/java/com/appdynamics/extensions/amps/AMPSWrapper.java:50-70 | the `amps` root, then the host groups, then the instance groups, computed as `AmpsMetrics` |
| AmpsWrapper.AmpsMetricsNoDocument | src/main/java/com/appdynamics/extensions/amps/AMPSWrapper.java:58 | an absent or non-object response gives an empty map and no exception |
| AmpsWrapper.AmpsMetricsMissingRoot | src/main/java/com/appdynamics/extensions/amps/AMPSWrapper.java:61-64 | a response without an `amps` member throws `NullPointerException` |
| AmpsGroups.CategoryNames | src/main/java/com/appdynamics/extensions/amps/AMPSWrapper.java:145-194 | the table's seven category names are the ones the code builds from its key constants |
| AmpsGroups.HostGroups | src/main/java/com/appdynamics/extensions/amps/AMPSWrapper.java:140-154 | the three host rows read the `host` object as the code does, or all carry the lookup's exception |
| AmpsGroups.InstanceGroups | src/main/java/com/appdynamics/extensions/amps/AMPSWrapper.java:176-193 | the four instance rows read the `instance` object (and `memory.caches` for caches) as the code does, or carry the lookup's exception |
| AmpsGroups.HostMetricsByTable | src/main/java/com/appdynamics/extensions/amps/AMPSWrapper.java:137-157 | `getHostMetrics` is the three host rows of the table, read in order |
| AmpsGroups.InstanceMetricsByTable | src/main/java/com/appdynamics/extensions/amps/AMPSWrapper.java:173-195 | `getInstanceMetrics` is the four instance rows of the table, read in order |
| AmpsGroups.ExtractAppend | src/main/java/com/appdynamics/extensions/amps/AMPSWrapper.java:64-67 | reading two tables one after the other is reading their concatenation |
| AmpsGroups.AmpsMetricsByTable | src/main/java/com/appdynamics/extensions/amps/AMPSWrapper.java:58-69 | on an object response, the result is the `amps` lookup's exception or the whole table read in order |
| AmpsGroups.ExtractFailure | src/main/java/com/appdynamics/extensions/amps/AMPSWrapper.java:137-195 | reading fails exactly when some row holds an exception, and then with the exception of the first such row; rows before it succeeded |
| AmpsGroups.ExtractKeys | src/main/java/com/appdynamics/extensions/amps/AMPSWrapper.java:159-164 | on success, a name is in the result exactly when it was already there or some row filed it under its category |
| AmpsGroups.ExtractKeeps | src/main/java/com/appdynamics/extensions/amps/AMPSWrapper.java:159-164 | a name that no row files keeps its previous value |
| AmpsGroups.ExtractValues | src/main/java/com/appdynamics/extensions/amps/AMPSWrapper.java:159-164 | when categories are pairwise apart, every row's metric is in the result under `category|name` with its own value; later rows never overwrite it |
| AmpsGroups.TableApart | src/main/java/com/appdynamics/extensions/amps/AMPSWrapper.java:145-194 | no name can fall under two of the seven categories |
| AmpsGroups.CategoriesDisjoint | src/main/java/com/appdynamics/extensions/amps/AMPSWrapper.java:145-194 | two different groups' `category|` prefixes never both start the same name |
| AmpsGroups.AmpsMetricsFails | src/main/java/com/appdynamics/extensions/amps/AMPSWrapper.java:61-67 | once `amps` is an object, extraction fails exactly when some group throws: no partial result |
| AmpsGroups.AmpsMetricsUnion | src/main/java/com/appdynamics/extensions/amps/AMPSWrapper.java:50-70 | a successful extraction holds every metric of every group under `category|name` with its value, and every name in it comes from some group |
| AmpsGroups.GroupMetricReported | src/main/java/com/appdynamics/extensions/amps/AMPSWrapper.java:50-70 | one metric of one group, end to end: present in the result under its category with its value |
| AmpsGroups.AmpsMetricsFirstFailure | src/main/java/com/appdynamics/extensions/amps/AMPSWrapper.java:64-67 | a failed extraction has the exception of the first group, in extraction order, that throws, and every earlier group succeeded |
| AmpsExamples.CpusSelectsAllEntry | src/main/java/com/appdynamics/extensions/amps/AMPSWrapper.java:143 | from per-cpu entries `all` and `cpu0`, only the `all` entry's usage is kept, under its bare name |
| AmpsExamples.AggregateCpuUsageReported | src/main/java/com/appdynamics/extensions/amps/AMPSWrapper.java:143-145 | the aggregate usage appears as `host|cpus|usage` in a successful extraction |
| AmpsExamples.NetworkPrefixedById | src/main/java/com/appdynamics/extensions/amps/AMPSWrapper.java:154 | one interface `eth0` gives `eth0|rx` and `eth0|tx`, and no entry for its non-numeric id |
| AmpsExamples.NumericIdAlsoReported | src/main/java/com/appdynamics/extensions/amps/AMPSWrapper.java:225-227 | a numeric id is reported too, as `7|id`, next to `7|rx` |
| AmpsMonitor.BuildPatterns | src/main/java/com/appdynamics/extensions/amps/AMPSMonitor.java:174-190 | a null or empty set gives no patterns; a null element of the set throws `NullPointerException`, which the `PatternSyntaxException` handler does not catch; otherwise the result holds exactly the patterns that compile, each once, and no more patterns than the set has |
| AmpsMonitor.InvalidPatternsIgnored | src/main/java/com/appdynamics/extensions/amps/AMPSMonitor.java:183-185 | adding patterns that do not compile never changes which names are excluded |
| AmpsMonitor.IsMatched | src/main/java/com/appdynamics/extensions/amps/AMPSMonitor.java:192-202 | true exactly when some pattern matches the whole name |
| AmpsMonitor.PrintMetric | src/main/java/com/appdynamics/extensions/amps/AMPSMonitor.java:145-150 | a null value reports nothing; otherwise exactly one report, with that name and value |
| AmpsMonitor.PrintMetricsHelper | src/main/java/com/appdynamics/extensions/amps/AMPSMonitor.java:160-172 | a null exclusion pattern throws `NullPointerException` before any report; otherwise every non-excluded, non-null metric is reported once under `prefix + name` (a null prefix reads `null`); every report comes from such a metric; no name is reported twice |
| AmpsMonitor.EmissionUnique | src/main/java/com/appdynamics/extensions/amps/AMPSMonitor.java:164-171 | any two emissions of the same map hold the same reports, in the same number; only their order can differ |
| AmpsMonitor.GetPassword | src/main/java/com/appdynamics/extensions/amps/AMPSMonitor.java:114-134 | a set plaintext password, or no encrypted one, is returned as is; otherwise the decrypted one; a decryption `IllegalArgumentException` becomes one with the fixed "Encryption Key not specified" message, and other exceptions pass through |
| AmpsMonitor.Boxed | src/main/java/com/appdynamics/extensions/amps/AMPSMonitor.java:87-88 | the extracted map seen as a `Map<String, Double>`: same names, every value non-null |
| AmpsMonitor.Execute | src/main/java/com/appdynamics/extensions/amps/AMPSMonitor.java:69-100 | the cycle succeeds exactly when configuration, password, client, fetch, extraction and pattern building all succeed, so a null exclusion pattern fails it. On failure it reports nothing and returns "Task failed with errors". The fetch happens exactly when configuration, password and client are in order. On success every extracted metric that is not excluded is reported |

## Left out

- The HTTP request, the response string and `JsonParser` (AMPSWrapper.java:80-128) are I/O. Their outcome is a parameter: a parsed document, `None` for a body that is not JSON, or an exception.
- `NumberUtils.isNumber` and `JsonPrimitive.getAsDouble` are library number grammars. They are one abstract parameter, so the model says nothing about which texts are numbers.
- PopulateMetricsMapHelper: the conversion `getAsDouble` (AMPSWrapper.java:322) is assumed never to throw on a text `NumberUtils.isNumber` accepts. In Java, `Double.parseDouble` throws `NumberFormatException` on some such texts, for example hex `0x1F` or `10L`, and that ends the cycle; the model instead files a value for them. The same assumption carries into every lemma built on `FlattenInto`, such as `FlattenIntoValues`, `RootMetricsExact`, `AddElementsValues` and `AmpsGroups.AmpsMetricsUnion`.
- `java.util.regex` is abstract too: whether a pattern compiles and whether it matches a whole name are parameters.
- PrintMetric: reports the `Double` value itself, not the `(long)` truncation of AMPSMonitor.java:148, because `Double` is opaque here.
- `getMetricWriter` and the aggregation, time-rollup and cluster-rollup constants are not modelled. `MetricWriter` is an agent API that is not part of this model.
- PrintMetricsHelper: a failure of the metric writer part-way through the loop, which would leave earlier reports sent, is not modelled. Reporting never fails in the model.
- `ArgumentsValidator`, `getConfigFilename`, `YmlReader` and `SimpleHttpClient.builder` are file-system and agent calls. Together they become a `Result<Configuration>` and a client-failure parameter. `CryptoUtil.getPassword` is a function parameter.
- `buildArgs` (AMPSMonitor.java:102-112): its call to `getPassword` is modelled, inside `Execute`. The map of host, port, SSL flag, user name and password it builds is not, because it is only handed to `SimpleHttpClient.builder`; so `Configuration` carries only the fields the modelled code reads.
- The `finally` block that closes the HTTP client, logging, and the constructor's version message are effects with no bearing on the result.
- Execute: the exact exception that ends a failed cycle is not returned, because the source catches every exception and returns only the fixed failure text.
- `HashMap` iteration order is not modelled. `PopulateMap` and `BuildPatterns` iterate a set in any order and are proved for every order. Emission is specified up to order (`EmissionOf`).
- Aliasing is not modelled: the maps the Java methods mutate in place are values passed in and returned. No caller shares them, so this hides no behaviour.
- Exception messages are not modelled, except the one `getPassword` builds. Each exception is modelled by its class only.
- `AMPSMonitorTest` runs the whole monitor against a configuration file. It is not modelled.
