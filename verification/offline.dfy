/**
 The `downloadOffline` message: fetch into the content cache every manifest
 resource whose key (by activation's rule) no cached URL has yet.
 */
module Offline {
  import opened Keys
  import opened Storage

  /** The manifest keys no URL of the content cache maps to. */
  function MissingKeys(origin: string, manifest: Manifest, content: Cache): (r: set<Key>)
    ensures forall k :: k in r <==> k in manifest && forall u :: u in content ==> ActivateKey(origin, u) != k
  {
    manifest.Keys - set u | u in content :: ActivateKey(origin, u)
  }

  /** The two loops of `downloadOffline`: collect the keys of the cached URLs,
      then every manifest key not among them. */
  method CollectMissing(origin: string, manifest: Manifest, content: Cache) returns (missing: set<Key>)
    ensures missing == MissingKeys(origin, manifest, content)
  {
    var present: set<Key> := {};
    var urls := content.Keys;
    while urls != {}
      invariant urls <= content.Keys
      invariant forall k :: k in present <==> exists u :: u in content && u !in urls && ActivateKey(origin, u) == k
      decreases urls
    {
      var u :| u in urls;
      present := present + {ActivateKey(origin, u)};
      urls := urls - {u};
    }
    missing := {};
    var keys := manifest.Keys;
    while keys != {}
      invariant keys <= manifest.Keys
      invariant forall k :: k in missing <==> k in manifest && k !in keys && k !in present
      decreases keys
    {
      var k :| k in keys;
      if k !in present {
        missing := missing + {k};
      }
      keys := keys - {k};
    }
  }

  /** The URLs `downloadOffline` asks `addAll` for. */
  function OfflineUrls(origin: string, manifest: Manifest, content: Cache): set<Url>
  {
    set k | k in MissingKeys(origin, manifest, content) :: Resolve(origin, k)
  }

  /** `downloadOffline`: one `addAll` of the missing resources; a rejected
      batch leaves the content cache as it was. */
  function DownloadOffline(origin: string, manifest: Manifest, content: Cache, net: Url -> FetchOutcome): (r: Batch)
    ensures r.Stored? <==> forall k :: k in MissingKeys(origin, manifest, content) ==> Succeeds(net(Resolve(origin, k)))
    ensures r.Stored? ==> content.Keys <= r.cache.Keys
    ensures r.Stored? ==> r.cache.Keys == content.Keys + OfflineUrls(origin, manifest, content)
    ensures r.Stored? ==> forall u :: u in content && u !in OfflineUrls(origin, manifest, content) ==> r.cache[u] == content[u]
    ensures r.Stored? ==> forall k :: k in MissingKeys(origin, manifest, content) ==>
      Resolve(origin, k) in r.cache && r.cache[Resolve(origin, k)] == net(Resolve(origin, k)).response
  {
    var urls := OfflineUrls(origin, manifest, content);
    var r := AddAll(content, urls, net);
    assert r.Stored? <==> forall k :: k in MissingKeys(origin, manifest, content) ==> Succeeds(net(Resolve(origin, k))) by {
      if !r.Stored? {
        var u :| u in urls && !Succeeds(net(u));
        var k :| k in MissingKeys(origin, manifest, content) && Resolve(origin, k) == u;
      }
    }
    r
  }

  /** For a manifest of root-relative keys, the download never re-fetches a
      cached URL, so a successful batch leaves every cached entry as it was. */
  lemma DownloadOfflineKeepsCached(origin: string, manifest: Manifest, content: Cache, net: Url -> FetchOutcome)
    requires forall k :: k in manifest ==> RootRelative(k)
    ensures OfflineUrls(origin, manifest, content) !! content.Keys
    ensures var r := DownloadOffline(origin, manifest, content, net);
      r.Stored? ==> forall u :: u in content ==> r.cache[u] == content[u]
  {
  }

  /** For a manifest of root-relative keys, a successful download leaves no
      manifest key missing. */
  lemma DownloadOfflineCompletes(origin: string, manifest: Manifest, content: Cache, net: Url -> FetchOutcome)
    requires forall k :: k in manifest ==> RootRelative(k)
    requires DownloadOffline(origin, manifest, content, net).Stored?
    ensures MissingKeys(origin, manifest, DownloadOffline(origin, manifest, content, net).cache) == {}
  {
  }
}
