/**
 The worker's persistent state and its view of the network: three named
 caches held as immutable maps, responses as status plus body, and fetch
 outcomes supplied from outside.
 */
module Storage {
  import opened Keys

  datatype Option<T> = None | Some(value: T)

  /** A content fingerprint: an MD5 hex digest in the generated manifest. It is
      never empty, so looking a key up in the manifest is truthy exactly when
      the key is present. */
  type Fingerprint = s: string | s != "" witness "0"

  /** The deployed resource manifest: key to fingerprint. */
  type Manifest = map<Key, Fingerprint>

  datatype Response = Response(status: int, body: string)
  {
    /** The Fetch standard's `ok`: a status in the range 200-299. */
    predicate Ok()
    {
      200 <= status <= 299
    }
  }

  datatype NetError = NetError(reason: string)

  /** What a `fetch` promise settles to. */
  datatype FetchOutcome = Resolved(response: Response) | Rejected(error: NetError)

  /** A fetch that `Cache.addAll` accepts: it resolved with an ok response. */
  predicate Succeeds(o: FetchOutcome)
  {
    o.Resolved? && o.response.Ok()
  }

  /** One named cache: request URL to stored response. A deleted cache and an
      empty one are the same map. */
  type Cache = map<Url, Response>

  /** The three caches the worker owns: `flutter-app-cache` (content),
      `flutter-temp-cache` (staging) and `flutter-app-manifest` (the snapshot of
      the manifest last activated, absent when never written or deleted). */
  datatype Stores = Stores(content: Cache, temp: Cache, snapshot: Option<Manifest>)

  /** All three caches deleted. */
  const Wiped: Stores := Stores(map[], map[], None)

  /** The result of `Cache.addAll`: the cache after the batch, or a rejection
      that leaves the cache as it was. */
  datatype Batch = Stored(cache: Cache) | BatchRejected

  /** `Cache.addAll` over the given URLs with `net` answering each fetch: all
      responses are stored, overwriting earlier entries, when every fetch
      resolves ok; otherwise nothing is stored. */
  function AddAll(cache: Cache, urls: set<Url>, net: Url -> FetchOutcome): (r: Batch)
    ensures r.Stored? <==> forall u :: u in urls ==> Succeeds(net(u))
    ensures r.Stored? ==> r.cache.Keys == cache.Keys + urls
    ensures r.Stored? ==> forall u :: u in urls ==> r.cache[u] == net(u).response
    ensures r.Stored? ==> forall u :: u in cache && u !in urls ==> r.cache[u] == cache[u]
  {
    if forall u :: u in urls ==> Succeeds(net(u)) then
      Stored(cache + map u | u in urls :: net(u).response)
    else
      BatchRejected
  }
}
