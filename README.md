# ktor-health-check in Dafny

A model of the core of `ktor-health-check`, a Ktor plugin that serves
Kubernetes-style liveness (`/healthz`) and readiness (`/readyz`) endpoints.
An application registers named checks: nullary functions returning whether
they succeeded. Each check goes under a URL path, and the checks of one path
form a group. Each path's group is evaluated when that path is requested.
The response carries status 200 when every check of the group succeeded and
500 otherwise, with a JSON body listing each check's result.

The model has six modules:

- `Wrappers`: `Option`, and the two configuration errors. The plugin throws
  these (`require` in `normalizeURL`, `AssertionError` when a default that
  already has checks is disabled); here they are returned as `Outcome` /
  `Result` values.
- `OrderedMaps`: Kotlin's read-only maps as the plugin builds them
  (`emptyMap()` grown with `map + (k to v)`, that is `LinkedHashMap`).
  - Iteration follows insertion order, and re-putting a key replaces its
    value in place.
  - They are modelled as sequences of entries with distinct keys. The
    unordered Dafny `map` view (`ToMap`) is used only in specifications:
    `Put` is a map update of it (`PutIsMapUpdate`), `Get` is a lookup in it
    (`GetIsMapLookup`), and `MapValues` transforms it key by key
    (`MapValuesToMap`).
- `Paths`: `String.trim('/')`, Kotlin's `isBlank()` on the JVM, and
  `normalizeURL`.
- `CheckMaps`: a check is `() -> bool` and a group is a check map.
  - `CheckMap.toFunction` is modelled, and `CheckMapBuilder` is a class whose
    `inner` map is replaced by `add`.
- `Handle`: `checksResultsToJSON`, the loop that builds the body, and
  `healthCheck`, which picks the status.
  - A reader for the body format (`ParseJson`) is the partner of the
    serialiser. The round-trip lemma shows that names and results come back
    in order, for names containing no double quote.
- `Health`: the `Configuration` class, `addInterceptor` and the interceptor's
  decision for each request.
  - The `Configuration` class holds the path-to-builder registry, the two
    disable flags, and the ghost abstraction `Groups`: each path with its
    builder's current check map.
  - The decision is to pass the request through, or to respond with a status
    and a body.
  - `ensureWellKnown` is modelled as written; see Findings.
- `Scenarios`: whole installations, each proved end to end.
  - Configure, provision the well-known paths, install the interceptor,
    answer requests.
  - One scenario per behaviour: a passing and a failing group, both defaults
    disabled, one default disabled, and the two refusals.

The code and its documentation disagree in one place. The doc comments of
`disableHealthCheck` and `disableReadyCheck` (`src/main/kotlin/Health.kt:67-81`)
say each call disables the default check of its own path. `ensureWellKnown`
(`src/main/kotlin/Health.kt:110-117`) crosses the flags. The model follows the
code: `Health.WellKnown` and `Configuration.EnsureWellKnown` are as written,
and every scenario installs through them. The documented behaviour is
`Health.IntendedWellKnown` / `Configuration.EnsureWellKnownIntended`.

## Model

| member | source | states |
|---|---|---|
| Paths.IsWhitespace | src/main/kotlin/Health.kt:24 | the JVM's whitespace characters as `isBlank` tests them (a definition; see Left out for the Unicode version) |
| Paths.IsBlank | src/main/kotlin/Health.kt:24 | `isBlank()`: empty or whitespace only (a definition; `NormalizeURL` and `TrimSlashesEmpty` state what it decides) |
| Paths.DropLeadingSlashes | src/main/kotlin/Health.kt:23 | the result is a suffix of the input, what was dropped is all slashes, and the result does not start with a slash |
| Paths.DropTrailingSlashes | src/main/kotlin/Health.kt:23 | the result is a prefix of the input, what was dropped is all slashes, and the result does not end with a slash |
| Paths.TrimSlashes | src/main/kotlin/Health.kt:23 | `trim('/')`: the result has no boundary slash, and the input is some slashes, the result, then some slashes |
| Paths.TrimSlashesOf | src/main/kotlin/Health.kt:23 | the decomposition is unique: any slash runs around a trimmed non-empty core are removed, and exactly that core is returned |
| Paths.TrimSlashesEmpty | src/main/kotlin/Health.kt:23-24 | trimming leaves the empty string if and only if the input is all slashes |
| Paths.TrimSlashesIdempotent | src/main/kotlin/Health.kt:23 | trimming twice is trimming once |
| Paths.NormalizeURL | src/main/kotlin/Health.kt:23-28 | refuses with InvalidPath exactly when the trimmed path is blank; otherwise returns it, and the input is that key wrapped in slashes |
| Paths.NormalizeURLAllSlashes | src/main/kotlin/Health.kt:24-27 | `""`, `"/"`, `"///"` and every other all-slash path are refused |
| Paths.NormalizeURLIdempotent | src/main/kotlin/Health.kt:23-28 | a normalised path normalises to itself |
| Paths.NormalizeURLVariants | src/main/kotlin/Health.kt:23-28 | `/key`, `key/`, `//key//` and every other slash-wrapping of a valid key give that key |
| OrderedMaps.KeysOf | src/main/kotlin/Health.kt:34 | the key sequence lists the keys of the entries, in order |
| OrderedMaps.Find | src/main/kotlin/Health.kt:57 | the index found holds the key, no earlier entry holds it, and none is found exactly when the key is absent |
| OrderedMaps.Get | src/main/kotlin/Health.kt:83 | a lookup succeeds exactly for present keys and, with distinct keys, returns the value stored under the key |
| OrderedMaps.Put | src/main/kotlin/CheckMapBuilder.kt:15 | `map + (k to v)`: the key sequence is unchanged for a present key and gains `k` at the end otherwise; keys stay distinct; `k` maps to `v`; every other key is unchanged |
| OrderedMaps.ReplaceFacts | src/main/kotlin/CheckMapBuilder.kt:15 | rewriting the entry of a present key keeps the key order and distinctness, maps the key to the new value and leaves every other lookup alone |
| OrderedMaps.AppendFacts | src/main/kotlin/Health.kt:85 | appending a new key adds it last, keeps keys distinct, maps it to its value and leaves every other lookup alone |
| OrderedMaps.PutNew | src/main/kotlin/Health.kt:85 | putting a key that is absent appends its entry at the end |
| OrderedMaps.PutAt | src/main/kotlin/CheckMapBuilder.kt:15 | putting a present key rewrites its entry where it stands |
| OrderedMaps.MapValues | src/main/kotlin/CheckMapBuilder.kt:9 | `mapValues`: same length, same keys in the same order, each value transformed |
| OrderedMaps.ToMap | src/main/kotlin/CheckMapBuilder.kt:4 | a view used only in specifications (the `Map` interface, without its order): exactly the present keys, each with its stored value |
| OrderedMaps.PutIsMapUpdate | src/main/kotlin/CheckMapBuilder.kt:15 | on the unordered view, `Put` is exactly Dafny's map update |
| OrderedMaps.GetIsMapLookup | src/main/kotlin/Health.kt:83 | with distinct keys, a lookup in the entries is the lookup in the unordered view |
| OrderedMaps.MapValuesToMap | src/main/kotlin/CheckMapBuilder.kt:9 | with distinct keys, `mapValues` applies the function to every value of the unordered view and keeps its keys |
| OrderedMaps.MapValuesKeys | src/main/kotlin/Health.kt:53-54 | `mapValues` keeps the key sequence and distinctness, and each lookup is the transformed lookup |
| CheckMaps.RunAll | src/main/kotlin/CheckMapBuilder.kt:9 | every check is run once: same keys, in order, each with its check's outcome |
| CheckMaps.CheckMapToFunction | src/main/kotlin/CheckMapBuilder.kt:8-10 | the function returned gives, on each call, the map's keys in order, each with its check's outcome |
| CheckMaps.CheckMapBuilder.constructor | src/main/kotlin/CheckMapBuilder.kt:13 | a new builder holds the empty map, so `notEmpty()` is false |
| CheckMaps.CheckMapBuilder.Add | src/main/kotlin/CheckMapBuilder.kt:14-16 | `inner` becomes `Put(old inner, name, fn)` and stays a map |
| CheckMaps.CheckMapBuilder.NotEmptyAfterAdd | src/main/kotlin/CheckMapBuilder.kt:14-17 | after `add(name, fn)` the builder is not empty and holds `name` |
| CheckMaps.CheckMapBuilder.NotEmpty | src/main/kotlin/CheckMapBuilder.kt:17 | true exactly when some name is registered |
| CheckMaps.CheckMapBuilder.ToFunction | src/main/kotlin/CheckMapBuilder.kt:18-19 | the evaluation has the builder's keys, in order, each with its check's outcome |
| Handle.BoolText | src/main/kotlin/Handle.kt:19 | `append(Boolean)` writes `true` exactly for true and `false` exactly for false |
| Handle.EntryText | src/main/kotlin/Handle.kt:15-19 | the text one iteration writes after its prefix: the raw name, `":`, then the value (a definition; its reading back is `ParseEntryText`) |
| Handle.Members | src/main/kotlin/Handle.kt:13-20 | the text the loop writes between the braces, entry by entry with the prefix in force; empty exactly when there are no results, and otherwise starting with a quote |
| Handle.Json | src/main/kotlin/Handle.kt:8-22 | the body starts with `{`, ends with `}`, and is `{}` for no results |
| Handle.ChecksResultsToJSON | src/main/kotlin/Handle.kt:8-22 | the loop with its moving prefix builds exactly `Json(res)` |
| Handle.AppendEntry | src/main/kotlin/Handle.kt:15-19 | the loop's bookkeeping step: the four appends of one iteration, regrouped as the prefix followed by one `EntryText` |
| Handle.JsonStep | src/main/kotlin/Handle.kt:13-20 | each entry adds `"` (first entry) or `,"` (later entries) and its text to the body |
| Handle.AllSucceeded | src/main/kotlin/Handle.kt:25 | `values.all { it }`: true exactly when every result is true |
| Handle.HealthCheck | src/main/kotlin/Handle.kt:24-33 | one evaluation decides both halves: OK exactly when every result is true (so an empty group is OK), InternalServerError exactly when one is false, and the body is the JSON of that same evaluation |
| Handle.CommaEntriesSnoc | src/main/kotlin/Handle.kt:13-20 | one more later entry appends `,"name":value` |
| Handle.MembersSnoc | src/main/kotlin/Handle.kt:13-20 | every entry after the first is introduced by a comma |
| Handle.MembersFromFront | src/main/kotlin/Handle.kt:13-20 | read from the front, the body is `"k1":v1` followed by `,"ki":vi` for each later entry |
| Handle.JsonShape | src/main/kotlin/Handle.kt:11-21 | `{"k1":v1,"k2":v2 .. ,"kn":vn}` for every non-empty result map |
| Handle.ParseBoolText | src/main/kotlin/Handle.kt:19 | `append(v)` writes `true` or `false`, and it reads back as `v` |
| Handle.ParseEntryText | src/main/kotlin/Handle.kt:15-19 | one written entry reads back as its name and value when the name has no double quote |
| Handle.ParseCommaEntriesRoundTrip | src/main/kotlin/Handle.kt:14-20 | the later entries read back, in order |
| Handle.FirstThenCommaRoundTrip | src/main/kotlin/Handle.kt:13-20 | a first entry and the later ones read back as the whole map |
| Handle.MembersRoundTrip | src/main/kotlin/Handle.kt:13-20 | the text between the braces reads back as the results |
| Handle.JsonRoundTrip | src/main/kotlin/Handle.kt:8-22 | nothing is lost in the body: for names without a double quote, it reads back as exactly the results, in iteration order |
| Health.GroupAt | src/main/kotlin/Health.kt:57 | `checks[url]` read as an empty group: empty when the path is absent, otherwise the group stored under it |
| Health.Provision | src/main/kotlin/Health.kt:83-87 | after `getCheck(url)` the path is registered |
| Health.IntendedWellKnown | src/main/kotlin/Health.kt:67-81 | the documented behaviour: `healthz` is present afterwards exactly when it was or `!noHealth`, `readyz` exactly when it was or `!noReady`, and only empty groups at those paths are appended |
| Health.ProvisionExtends | src/main/kotlin/Health.kt:83-87 | `getCheck` keeps every group where it was and at most appends an empty one at the path |
| Health.MaybeProvisionExtends | src/main/kotlin/Health.kt:111-116 | a guarded `getCheck`, taken or not, only appends an empty group |
| Health.ProvisionKeys | src/main/kotlin/Health.kt:83-87 | after `getCheck(url)` the paths are the old ones plus `url` |
| Health.ProvisionThenPut | src/main/kotlin/Health.kt:93 | adding to the group `getCheck` returned is putting into the registry at that path, and the returned group is the group that was there |
| Health.WellKnownOnlyAddsEmpty | src/main/kotlin/Health.kt:110-117 | `ensureWellKnown` never removes, moves or changes a group; it only appends empty groups at `healthz`/`readyz`, and keys stay distinct |
| Health.WellKnown | src/main/kotlin/Health.kt:110-117 | `ensureWellKnown` as written: `!noHealth` provisions `readyz`, then `!noReady` provisions `healthz` (a definition; its properties are `WellKnownOrder`, `WellKnownOnlyAddsEmpty`, `WellKnownCrossed` and `WellKnownCrossedWitness`) |
| Health.WellKnownOrder | src/main/kotlin/Health.kt:110-117 | as written, `readyz` is appended before `healthz` when both flags are clear and neither path exists |
| Health.WellKnownCrossed | src/main/kotlin/Health.kt:110-117 | as coded, `healthz` is present afterwards exactly when it was or `!noReady`, and `readyz` exactly when it was or `!noHealth` |
| Health.WellKnownCrossedWitness | src/main/kotlin/Health.kt:110-117 | after `disableHealthCheck()` alone, as written, `healthz` is provisioned and `readyz` is not; the documented behaviour gives the reverse |
| Health.WellKnownPathsAreNormal | src/main/kotlin/Health.kt:20-21 | `healthz` and `readyz` pass `normalizeURL` unchanged, so `healthCheck`/`readyCheck` never refuse |
| Health.WellKnownPathsAreKeys | src/main/kotlin/Health.kt:20-21 | both well-known paths have the shape of a registered key |
| Health.CoherentAppend | src/main/kotlin/Health.kt:84-86 | registering a fresh empty builder under a new path keeps builders and groups in step |
| Health.Configuration.Valid | src/main/kotlin/Health.kt:49 | every builder holds its path's group, no builder serves two paths, and so the registry has distinct paths, the same as the builder map's |
| Health.Configuration.constructor | src/main/kotlin/Health.kt:48-51 | a new configuration has no groups and neither flag set |
| Health.Configuration.BuilderAt | src/main/kotlin/Health.kt:57 | the builder stored under a path holds the registry's group at that path |
| Health.Configuration.GroupAtDistinct | src/main/kotlin/Health.kt:49 | every group is a map with distinct names |
| Health.Configuration.EnsureDisableUnambiguous | src/main/kotlin/Health.kt:56-65 | refuses with AmbiguousDisable exactly when the group at the path exists and is non-empty; an absent or empty group passes |
| Health.Configuration.DisableHealthCheck | src/main/kotlin/Health.kt:70-73 | the flag is set even when the call refuses; it refuses exactly when `healthz` has checks; only the flag may change |
| Health.Configuration.DisableReadyCheck | src/main/kotlin/Health.kt:78-81 | the same for `readyz` and `noReady` |
| Health.Configuration.GetCheck | src/main/kotlin/Health.kt:83-87 | returns the builder stored under the path, registering a new empty one at the end when the path is missing |
| Health.Configuration.CustomCheck | src/main/kotlin/Health.kt:92-94 | refuses exactly when the trimmed path is blank, registering nothing; otherwise the group at the normalised path (created if missing) maps the name to the check and every other group is unchanged |
| Health.Configuration.AddToGroup | src/main/kotlin/Health.kt:93 | `getCheck(key).add(name, check)` is `Put` into the group at `key` |
| Health.Configuration.AddAt | src/main/kotlin/Health.kt:93 | adding through one builder changes only that path's group |
| Health.Configuration.HealthCheck | src/main/kotlin/Health.kt:99-101 | exactly `customCheck("healthz", ...)`, which never refuses |
| Health.Configuration.ReadyCheck | src/main/kotlin/Health.kt:106-108 | exactly `customCheck("readyz", ...)`, which never refuses |
| Health.Configuration.EnsureWellKnown | src/main/kotlin/Health.kt:110-117 | the registry becomes `WellKnown(old registry, noHealth, noReady)`, with the crossing of the code |
| Health.Configuration.EnsureWellKnownIntended | src/main/kotlin/Health.kt:67-81 | the registry becomes `IntendedWellKnown(old registry, noHealth, noReady)` |
| Health.Configuration.ProvisionIf | src/main/kotlin/Health.kt:111-116 | one guarded `getCheck`: provisions the path when the guard holds, changes nothing otherwise |
| Health.Configuration.GetChecksWithFunctions | src/main/kotlin/Health.kt:53-54 | the same paths in the same order, each with a function evaluating that path's current group |
| Health.Configuration.EvaluatorsOf | src/main/kotlin/Health.kt:54 | each builder's `toFunction()`, under its path |
| Health.MinLength | src/main/kotlin/Health.kt:36 | `lengths.min()`: no key is shorter, and some key has that length |
| Health.MaxLength | src/main/kotlin/Health.kt:35 | `lengths.max()`: no key is longer, and some key has that length |
| Health.Route | src/main/kotlin/Health.kt:38-42 | a handled request's trimmed path is a registered key |
| Health.RouteExact | src/main/kotlin/Health.kt:33-42 | the length filter never turns away a key: a request is handled if and only if an interceptor is installed and the trimmed path is a key |
| Health.WithinBounds | src/main/kotlin/Health.kt:34-39 | every key's length lies between the minimum and the maximum |
| Health.Intercept | src/main/kotlin/Health.kt:37-46 | passes through exactly when the request is not routed; otherwise responds OK exactly when every check of the group succeeded, 500 exactly when one failed, with that evaluation's JSON |
| Health.Health.constructor | src/main/kotlin/Health.kt:30 | the plugin holds the finished configuration |
| Health.Health.AddInterceptor | src/main/kotlin/Health.kt:31-47 | no interceptor exactly when there are no groups; otherwise one over every path, in order, with each group's evaluation and the key-length bounds |
| Scenarios.LeadingSlash | src/main/kotlin/Health.kt:38 | a request for `/key` is looked up as `key` |
| Scenarios.BothSlashes | src/main/kotlin/Health.kt:38 | a request for `/key/` is looked up as `key` |
| Scenarios.JsonOne | src/main/kotlin/Handle.kt:8-22 | the body of one result is `{"name":value}` |
| Scenarios.AfterHealthCheck | src/main/kotlin/Health.kt:99-101 | `healthCheck("db", up)` on a fresh registry gives one group `healthz` holding `db` |
| Scenarios.OtherRequest | src/main/kotlin/Health.kt:38-42 | with `healthz` and `readyz` registered, `/unrelated` passes through |
| Scenarios.OnlyHealthRequest | src/main/kotlin/Health.kt:38-42 | with only `healthz` registered, `/readyz` passes through |
| Scenarios.RegisterOneEach | src/main/kotlin/Health.kt:99-108 | `healthCheck` then `readyCheck` give one group per path, in that order |
| Scenarios.ConfigureOneEach | src/main/kotlin/Health.kt:127-130 | `ensureWellKnown` leaves a registry holding both paths as it is |
| Scenarios.InstallOneEach | src/main/kotlin/Health.kt:124-131 | the installed interceptor serves `healthz` then `readyz`, and evaluating them gives `db: true` and `cache: false` |
| Scenarios.OneCheckEach | src/main/kotlin/Health.kt:124-131 | `/healthz` answers 200 with `{"db":true}`, `/readyz/` answers 500 with `{"cache":false}`, and `/unrelated` passes through |
| Scenarios.DisableBoth | src/main/kotlin/Health.kt:124-131 | both defaults disabled and nothing registered: both calls succeed and no interceptor is installed |
| Scenarios.InstallHealthOnly | src/main/kotlin/Health.kt:110-117 | after `disableHealthCheck()` alone, as written, only the empty `healthz` group is installed |
| Scenarios.DisableHealthOnly | src/main/kotlin/Health.kt:110-117 | after `disableHealthCheck()` alone, as written, `/healthz` still answers 200 with `{}` and `/readyz` is not answered |
| Scenarios.Refusals | src/main/kotlin/Health.kt:56-94 | disabling `healthz` after a health check was added throws AmbiguousDisable after the flag is set; `customCheck("///", ...)` throws InvalidPath and registers nothing |

## Left out

- Ktor plumbing (`ApplicationFeature`, `install`, `AttributeKey`, `pipeline.intercept`, `respondText`, the content type, `finish()`): only the decision to respond with a status and a body, or to pass through, is modelled.
- `install` itself (`src/main/kotlin/Health.kt:120-132`) is not a member: the scenarios perform its three steps (configure, `ensureWellKnown`, `addInterceptor`) in order.
- `suspend` and coroutines: a check is a deterministic total function `() -> bool`, so calling it twice gives the same outcome. Exceptions thrown by checks are not modelled, because the plugin does not catch them.
- The evaluation order of the checks in `mapValues` is not observable in this model, since checks have no effects.
- `EST_JSON_PER_KEY` (`src/main/kotlin/Handle.kt:6`): a `StringBuilder` capacity hint with no effect on the output.
- JSON escaping: the serialiser writes names raw, exactly as the source does. The round trip is stated only for names without a double quote, and no claim of valid JSON is made for other names.
- HTTP status codes are a two-value enumeration.
- `Health.MinLength` and `Health.MaxLength` count characters, whereas Kotlin's `String.length` counts UTF-16 units. For keys outside the Basic Multilingual Plane, the installed bounds therefore differ from the source's `minL`/`maxL` (`src/main/kotlin/Health.kt:34-36`). `Health.RouteExact` shows that the routing decision does not depend on the bounds, since they never turn away a key.
- `Paths.IsWhitespace` lists the characters for which the JVM's `Character.isWhitespace` or `Character.isSpaceChar` holds. Which characters those are depends on the JDK's Unicode version (U+180E, for one, changed classes). The list follows current JDKs.
- `Handle.HealthCheck` is a method, although the source's `healthCheck` is a pure expression, because it calls the looping serialiser `ChecksResultsToJSON`. Its contract refers to the pure `Handle.Json`.
- `CheckMaps.CheckMapBuilder.Add`: its contract states only the new map, `Put(old inner, name, fn)`. That the name now maps to `fn`, that no other name changes, and that the key order is kept or extended are stated by `OrderedMaps.Put`. That the builder is then non-empty is `CheckMapBuilder.NotEmptyAfterAdd`.
- `Health.Configuration.DisableHealthCheck`: "the registry is unchanged" is stated by the `modifies` frame (only `noHealth` may change), not by an `ensures` clause. The same holds for `Health.Configuration.DisableReadyCheck` and `noReady`.
- `Example.kt` (an embedded Netty server) is not part of this model.

## Findings

| source | as written | input that shows it | evidently intended | confidence | as-written member | corrected member |
|---|---|---|---|---|---|---|
| src/main/kotlin/Health.kt:110-117 | `if (!noHealth) getCheck(READY_CHECK_URL)` and `if (!noReady) getCheck(HEALTH_CHECK_URL)`: each flag guards the other path | `disableHealthCheck()` alone on an empty configuration: `healthz` is still provisioned, so `/healthz` answers 200 with `{}`, and `readyz` is not | each flag switches off the default group of its own path, as the doc comments at `src/main/kotlin/Health.kt:67-81` say | high (not executed) | Health.WellKnownCrossedWitness | Health.IntendedWellKnown |
