# ExecutorCache — a verified model

This project models `ExecutorCache` from `cache/cache.go` of the template
package. The cache memoizes compiled template executors. It has a public
`Enable` flag and a store from keys to executors. It offers five lookups:

- `Load` reads a name from the store.
- `LoadOrStore` memoizes one loader call by name.
- `LoadOrStoreInfo` memoizes by file descriptor. It reads with the
  descriptor as key but writes under the descriptor's real path.
- `LoadOrStoreNames` tries an ordered list of candidate names. It passes
  over candidates the loader reports as not found.
- `LoadOrStoreInfos` tries an ordered list of descriptors, keyed by real
  path. Any loader error stops it.

Layout:

- `cache_spec.dfy`, module `CacheSpec`: the values and one reference
  function per operation. Each function gives the outcome, the new store
  and the keys passed to the loader (`Step`).
  - `Key = Name(string) | Info(FileInfo)` stands for the untyped keys of
    Go's `sync.Map`, so a name and a descriptor never collide.
  - `FileInfo` carries an identity and a real path.
  - `Executor` is opaque.
  - A loader is a function from its argument to `Outcome(exec, err)`, the
    Go pair `(*Executor, error)`. A nil is `None`.
  - Not-found classification is the predicate `IsNotFound`. It holds of
    `NotFound(key)` errors.
- `cache.dfy`, module `Cache`: class `ExecutorCache`. It has the fields
  `Enable` and `data` and a ghost `Log` of every key given to a loader.
  Each method is proved equal to its reference function. The two search
  methods keep the source's loop with early returns. `Valid()` says that no
  stored value is nil.
- `cache_lemmas.dfy`, module `CacheLemmas`: properties of the reference
  functions.
- `cache_client.dfy`, module `CacheClient`: a caller that uses only the
  class contracts and the lemmas.

## Model

| member | source | states |
|---|---|---|
| `Cache.ExecutorCache.constructor` | cache/cache.go:18-20 | A new cache is disabled, has an empty store and has made no loader calls. |
| `Cache.ExecutorCache.Load` | cache/cache.go:24-30 | Returns the value stored under the name, or nil if the name is absent. It never calls a loader and never changes the store. |
| `Cache.ExecutorCache.LoadOrStore` | cache/cache.go:32-49 | Outcome, new store and loader calls are those of `LoadOrStoreSpec` on the old state. `Enable` is unchanged and no stored value becomes nil. |
| `Cache.ExecutorCache.LoadOrStoreInfo` | cache/cache.go:51-68 | Same as `LoadOrStore`, but against `LoadOrStoreInfoSpec`: read key is the descriptor, write key is its real path. |
| `Cache.ExecutorCache.LoadOrStoreNames` | cache/cache.go:70-95 | The loop over `[name] + names` yields exactly the outcome, store and loader calls of the name search from candidate 0. Keeps `Valid()`. |
| `Cache.ExecutorCache.LoadOrStoreInfos` | cache/cache.go:97-119 | The loop over `[info] + infos` yields exactly the outcome, store and loader calls of the descriptor search from candidate 0. Keeps `Valid()`. |
| `CacheLemmas.LoadOrStoreDisabled` | cache/cache.go:48 | Disabled: the loader's pair is returned verbatim. The loader is called once and the store is unchanged. |
| `CacheLemmas.LoadOrStoreHit` | cache/cache.go:33-46 | Enabled and the name is present: the stored value is returned with no error. The loader is not called and the store is unchanged. |
| `CacheLemmas.LoadOrStoreMiss` | cache/cache.go:36-44 | Enabled miss: the loader is called once. A loader error is returned and the store is unchanged. A nil result without error gives the nil-value error and the store is unchanged. A success adds exactly `name ↦ v`, and `Load(name)` then returns `v`. |
| `CacheLemmas.LoadOrStoreMemoizes` | cache/cache.go:33-46 | After an enabled call that returned no error, the next enabled call for the same name, with any loader, returns the same executor. It calls no loader and leaves the store as it is. |
| `CacheLemmas.LoadOrStoreStoresOnlySuccess` | cache/cache.go:33-48 | The store either stays the same, or (enabled, name absent, success) gains exactly the returned executor under the name. |
| `CacheLemmas.LoadOrStoreInfoWritesRealPath` | cache/cache.go:53-63 | Enabled miss that succeeds: the executor is stored under the real path and `Load(realPath)` returns it. The descriptor itself is still not a key. |
| `CacheLemmas.LoadOrStoreInfoAlwaysMisses` | cache/cache.go:53-62 | In a store without descriptor keys, two enabled calls in a row with the same descriptor both call the loader: the write never serves the read. |
| `CacheLemmas.LoadOrStoreInfoOverwrites` | cache/cache.go:62 | Example: an executor already stored under the real path is replaced by the newly loaded one. |
| `CacheLemmas.NamesSkipRange` | cache/cache.go:72-93 | A run of candidates that are passed over (no stored executor; not-found error, or nil without error) only appends those names, in order, to the loader calls. The search then continues from the first candidate after the run. |
| `CacheLemmas.NamesDecidedAt` | cache/cache.go:73-91 | The first candidate not passed over decides. A stored executor is returned without a loader call, whatever `Enable` is. Otherwise a non-not-found error is returned with the store unchanged, or the executor is returned and stored only when enabled. No later candidate reaches the loader. |
| `CacheLemmas.NamesExhausted` | cache/cache.go:71-94 | When every candidate is passed over, each is given to the loader once, in order. The store is unchanged. The error is `NotFound` of the primary name. |
| `CacheLemmas.NamesIgnoreEnable` | cache/cache.go:87-91 | `Enable` changes neither the outcome nor the loader calls of the name search. A disabled search leaves the store unchanged. |
| `CacheLemmas.NamesStoreChange` | cache/cache.go:73-91 | The name search changes at most one key, and only when enabled: the last candidate given to the loader, which had no stored executor. It now maps to the executor returned. |
| `CacheLemmas.NamesPreserveInvariants` | cache/cache.go:87-89 | The name search keeps "no stored value is nil" and "only name keys are stored". |
| `CacheLemmas.InfosSkipRange` | cache/cache.go:99-116 | A run of descriptors that are passed over (no executor under the real path; nil without error) only appends those descriptors, in order, to the loader calls. The search then continues after the run. |
| `CacheLemmas.InfosDecidedAt` | cache/cache.go:100-116 | The first descriptor not passed over decides. An executor stored under its real path is returned without a loader call. Otherwise any loader error is returned with the store unchanged, or the executor is returned and stored under the real path only when enabled. No later descriptor reaches the loader. |
| `CacheLemmas.InfosExhausted` | cache/cache.go:98-118 | When every descriptor is passed over, each is given to the loader once, in order. The store is unchanged. The result is nil with no error. |
| `CacheLemmas.InfosStoreChange` | cache/cache.go:100-115 | The descriptor search changes at most one key, and only when enabled: the real path of the last descriptor given to the loader, which had no stored executor. |
| `CacheLemmas.InfosPreserveInvariants` | cache/cache.go:111-113 | The descriptor search keeps "no stored value is nil" and "only name keys are stored". |
| `CacheLemmas.FallbackScenario` | cache/cache.go:70-95 | Example: "a" and "b" are not found and "c" loads. The result is c's executor, which is stored under "c" only, after the loader calls a, b, c. |
| `CacheLemmas.PrimaryNameScenario` | cache/cache.go:72-94 | Example: "a" and "b" are both not found. The error names "a", not "b". |
| `CacheLemmas.AbortScenario` | cache/cache.go:78-85 | Example: a non-not-found error on "a" is returned at once. "b" never reaches the loader and nothing is stored. |

## Left out

- Concurrency of `sync.Map`: the store is a plain sequential map. The race
  between lookup and store, including duplicate loader calls, is not
  modelled.
- The package-level instance `var Cache = NewCache()` (cache/cache.go:22) is
  one use of the constructor and is not modelled separately.
- The template compiler and `template.Executor` are not part of this model.
  An executor is an opaque value with an identity.
- A loader is a pure, total function of its argument. Side effects and
  blocking inside a loader are not modelled.
- The implementation of `oscommon.IsNotFound` and `oscommon.ErrNotFound`
  is not part of this model. `IsNotFound` holds exactly of the `NotFound`
  error constructor, and `NotFound` records the name it reports.
- `assetfsapi.FileInfo` is reduced to its key identity and `RealPath()`.
- The text of the "nil value" error is left out. It is the constructor
  `NilValue`.
- Go type assertions `v.(*template.Executor)`: the typed store only holds
  executors, so the assertion cannot fail.
- Go's `v != nil` test on an `interface{}` (cache/cache.go:74, 101) is
  modelled as "the stored value is not nil". This matches the source
  because no operation stores nil.
- The write-once invariant "a stored value is never overwritten" holds for
  `LoadOrStore`, `LoadOrStoreNames` and `LoadOrStoreInfos` (their
  store-change lemmas). It does not hold for `LoadOrStoreInfo`, which reads
  and writes under different keys; `LoadOrStoreInfoOverwrites` exhibits this,
  and the model follows the code.
