# Flutter service worker: cache reconciliation model

A Dafny model of the service worker that a Flutter web build ships as
`flutter_service_worker.js`. The worker keeps a persistent asset cache in step
with a baked-in resource manifest, which maps each resource key to a content
fingerprint. The model covers:

- the two URL-to-key rules;
- the install handler, which stages the application shell in the temp cache;
- the activate handler: cold start, warm-upgrade diff against the stored
  manifest snapshot, publishing of the staged shell, and the fail-safe wipe;
- the fetch handler's routing: pass-through, online-first for `/` and
  cache-first with lazy fill for everything else;
- the `downloadOffline` prefetch.

The browser's Cache Storage is replaced by immutable maps. `Storage.Stores`
holds the content cache (`flutter-app-cache`), the staging cache
(`flutter-temp-cache`) and the manifest snapshot (`flutter-app-manifest`).
Caches are keyed by full request URL, as the Cache API keys them. Fetch
outcomes are inputs: `Resolved(response)` or `Rejected(error)`, with `ok`
meaning a 200-299 status. The manifest, the shell key list and the origin are
parameters. Each handler is a pure function that runs atomically.

Modules:
- `Strings`: JavaScript `substring`, `indexOf` and `startsWith`.
- `Keys`: the fetch handler's key rule, activation's weaker key rule, and
  resolution of a manifest key to its URL.
- `Storage`: the store record, responses and fetch outcomes, and
  `Cache.addAll` as an all-or-nothing batch.
- `Lifecycle`: install and activate, each as a function and as the
  source's loops.
- `Router`: the fetch handler.
- `Offline`: `downloadOffline`.
- `Worker`: lemmas that span several handlers.

Behaviour of `flutter_service_worker.js` worth stating plainly:
- The worker answers two control messages, `skipWaiting` and
  `downloadOffline` (lines 185-192).
- Install fails when a shell response is not ok, not only when a fetch
  rejects, because `addAll` rejects such a batch (line 78).
- A second activation with the same manifest changes nothing, provided every
  staged URL maps to a manifest key (lines 110-130). Content entries whose
  key the manifest lacks were already evicted by the first warm upgrade, or
  discarded by the cold start. Staged entries are published whatever their
  key, so a staged entry whose key the manifest lacks is evicted by the second
  activation.
- `downloadOffline` reads the worker global's own `origin` (line 201); the
  model passes it explicitly.

## Model

| member | source | states |
|---|---|---|
| `Keys.BeforeVersion` | flutter_service_worker.js:152-154 | the key is cut just before the first `?v=`: the result is a prefix of the input, contains no `?v=`, and is either the whole input or followed by `?v=` |
| `Keys.FetchKey` | flutter_service_worker.js:149-157 | the fetch key is never empty and never contains `?v=`; the bare origin and any `origin/#…` URL map to `/`; otherwise the key is the URL with its first `origin.length+1` characters removed and cut at the first `?v=`, and only an empty cut key becomes `/` |
| `Keys.ActivateKey` | flutter_service_worker.js:110-114 | activation's key is the URL with its first `origin.length+1` characters removed when that leaves something, and `/` when it leaves nothing |
| `Keys.Resolve` | flutter_service_worker.js:79 | a manifest key resolves to the origin, one `/`, then the key without its leading `/`, for a worker served from the origin root |
| `Keys.VersionQueryIgnored` | flutter_service_worker.js:150-157 | for every origin, path and version, `origin/path?v=x` and `origin/path` get the same fetch key (`main.dart.js?v=3` and `main.dart.js` are one resource) |
| `Keys.FetchKeyOfResolve` | flutter_service_worker.js:149-157 | the fetch rule maps the URL of each root-relative manifest key back to that key, unless the key contains `?v=` |
| `Keys.ActivateKeyOfResolve` | flutter_service_worker.js:110-114 | activation's rule maps the URL of each root-relative manifest key (including `/`) back to that key |
| `Keys.ActivateKeyKeepsVersion` | flutter_service_worker.js:111-114 | activation's rule keeps a `?v=` query in the key, so the two rules disagree on versioned URLs |
| `Storage.AddAll` | flutter_service_worker.js:78-79 | `addAll` stores a batch iff every fetch resolves ok; then every URL maps to its response and every other entry is unchanged; on rejection nothing is stored |
| `Lifecycle.Install` | flutter_service_worker.js:74-82 | install succeeds iff every shell fetch resolves ok; then staging holds each shell URL with its response, keeps every earlier non-shell entry with its response, adds nothing else, and content and snapshot are untouched; a failure changes no store |
| `Lifecycle.Activate` | flutter_service_worker.js:86-142 | on a fault all three stores are deleted; otherwise staging is emptied, the snapshot becomes the manifest and every staged entry is in content with its staged response; a cold start leaves exactly the staged entries; a warm upgrade keeps a non-staged entry iff its key is in both manifests with equal fingerprints, and keeps its response |
| `Lifecycle.EvictStale` | flutter_service_worker.js:110-121 | the eviction loop keeps an entry iff its key is in the new manifest and its fingerprint equals the old snapshot's, with its response unchanged |
| `Lifecycle.CopyEntries` | flutter_service_worker.js:124-127 | the publishing loop yields the union of both caches, with staged responses overwriting retained ones |
| `Lifecycle.RunActivate` | flutter_service_worker.js:88-133 | the handler's loop-by-loop execution computes exactly the stores `Activate` describes |
| `Lifecycle.SameManifestEvictsNothing` | flutter_service_worker.js:118 | when the snapshot already equals the manifest, no entry whose key the manifest lists is evicted, and unstaged ones keep their response |
| `Lifecycle.ActivateTwiceIsStable` | flutter_service_worker.js:110-130 | a second activation with the same manifest changes nothing, when every staged URL maps to a manifest key |
| `Lifecycle.NewKeyOnlyFromStaging` | flutter_service_worker.js:115-127 | after a warm upgrade, an entry whose key the old snapshot lacks is in content only if it came from staging |
| `Lifecycle.VersionedEntryEvictedOnUpgrade` | flutter_service_worker.js:110-121 | an entry cached under an `origin/path?v=x` URL never survives a warm upgrade, when no manifest key contains `?v=` |
| `Lifecycle.InstallThenActivatePublishesShell` | flutter_service_worker.js:74-133 | a successful install followed by a successful activation puts every shell URL in content with the response fetched at install, and empties staging |
| `Router.CacheFirst` | flutter_service_worker.js:167-180 | a hit returns the cached response with no fetch; a miss fetches; an ok response is cached and returned; a non-ok response is returned uncached; a rejection propagates its error and changes nothing |
| `Router.OnlineFirst` | flutter_service_worker.js:216-234 | the network is always asked; a resolved response is stored whatever its status and returned; on rejection the cached copy is returned if present, otherwise the original error, and the cache is unchanged |
| `Router.HandleFetch` | flutter_service_worker.js:145-166 | a request passes through iff it is not a GET or its fetch key is not in the manifest; pass-through fetches nothing and changes nothing; `/` goes online-first, every other key cache-first |
| `Router.HandleFetchTouchesOnlyItsUrl` | flutter_service_worker.js:167-181 | handling a request never removes an entry and changes at most the entry of its own URL |
| `Router.CacheFirstStoresOnlyOk` | flutter_service_worker.js:172-177 | every entry cache-first adds or changes holds an ok response |
| `Router.CacheFirstRepeatIsCached` | flutter_service_worker.js:169-177 | after cache-first has served an ok response, the next request for the URL gets the same response with no fetch, whatever the network says |
| `Router.OnlineFirstFallbackServesLastFetch` | flutter_service_worker.js:218-230 | the entry document returns the latest network response, and if the network then fails the fallback serves that same response |
| `Router.VersionedRequestRoutedAlike` | flutter_service_worker.js:150-166 | a request with a `?v=` query passes through exactly when the plain URL does, and goes online-first exactly when the plain URL does |
| `Router.VersionedRequestMissesPlainEntry` | flutter_service_worker.js:167-172 | the cache is matched by full URL: an intercepted `?v=` request whose own URL is not cached goes to the network, even if the plain URL is cached |
| `Offline.MissingKeys` | flutter_service_worker.js:196-211 | a key is missing iff the manifest lists it and no cached URL maps to it by activation's rule |
| `Offline.CollectMissing` | flutter_service_worker.js:197-211 | the two loops of `downloadOffline` compute exactly the missing-key set |
| `Offline.DownloadOffline` | flutter_service_worker.js:196-213 | the batch is stored iff the fetch of every missing key resolves ok; it then holds exactly the cached URLs plus the missing keys' URLs, each missing key's URL with its fetched response and every other cached entry unchanged |
| `Offline.DownloadOfflineKeepsCached` | flutter_service_worker.js:207-212 | for root-relative manifest keys the download requests no URL that is already cached, so a successful batch leaves every cached entry unchanged |
| `Offline.DownloadOfflineCompletes` | flutter_service_worker.js:196-213 | for root-relative manifest keys, after a successful download no manifest key is missing |
| `Worker.ShellServedWithoutNetwork` | flutter_service_worker.js:167-177 | after install and activate, a GET for a plain shell key is answered with the response fetched at install, without a fetch |
| `Worker.LazyEntryAcrossUpgrade` | flutter_service_worker.js:110-121 | a resource cached lazily by cache-first survives the next warm upgrade, with its response, iff its fingerprint is unchanged |

## Left out

- Event plumbing: `event.waitUntil`, `event.respondWith`, `self.skipWaiting()` and `self.clients.claim()` only signal the lifecycle; they change no data.
- The `message` listener's dispatch (lines 182-193): only `downloadOffline` has a data effect, and it is modelled directly.
- Concurrency: each handler runs atomically. The unawaited `cache.put` calls in the fetch paths are treated as finished before the reply.
- Storage failures outside activate are not modelled: a failing `caches.open` or `cache.put` while routing, or a throwing `caches.delete` in activate's catch block.
- Activate failure is one input flag: the catch block wipes all three caches whichever step threw, so where the throw happened does not matter.
- `Response.clone()` and the `{'cache': 'reload'}` request mode are fetch mechanics, not cache logic.
- `JSON.stringify` and `.json()` of the snapshot: the snapshot stores the manifest map directly.
- Cache matching: URLs are matched exactly. The Cache API's fragment stripping and `Vary` handling are not modelled.
- URL resolution: `Keys.Resolve` assumes the worker is served from the origin root. Dot segments and percent-encoding are not modelled. Keys starting with `?` or `#` resolve against the worker script's URL; `Keys.RootRelative` excludes them, and the round-trip lemmas say nothing about them.
- `addAll` rejects a batch that names one URL twice; the model does not. Shell and manifest keys are distinct and root-relative.
- JavaScript property lookup on `RESOURCES` also finds inherited names such as `constructor`; the model treats a lookup as map membership only.
- The concrete `RESOURCES` fingerprints and the `CORE` list are parameters, and so is the origin.
- Strings are sequences of characters; no Unicode normalisation or encoding is modelled.
