/**
 The install and activate handlers: install stages the application shell in
 the temp cache; activate reconciles the content cache with the new manifest
 (cold start, warm upgrade or fail-safe wipe) and publishes the staged shell.
 */
module Lifecycle {
  import opened Keys
  import opened Storage

  /** The URLs of the shell keys, as the install handler requests them. */
  function ShellUrls(origin: string, core: seq<Key>): set<Url>
  {
    set i | 0 <= i < |core| :: Resolve(origin, core[i])
  }

  /** The install handler: `addAll` of every shell key into the temp cache.
      `None` is a failed install, which leaves every store as it was. */
  function Install(s: Stores, origin: string, core: seq<Key>, net: Url -> FetchOutcome): (r: Option<Stores>)
    ensures r.Some? <==> forall i :: 0 <= i < |core| ==> Succeeds(net(Resolve(origin, core[i])))
    ensures r.Some? ==> r.value.content == s.content && r.value.snapshot == s.snapshot
    ensures r.Some? ==> forall i :: 0 <= i < |core| ==>
      Resolve(origin, core[i]) in r.value.temp && r.value.temp[Resolve(origin, core[i])] == net(Resolve(origin, core[i])).response
    ensures r.Some? ==> forall u :: u in r.value.temp && u !in s.temp ==>
      exists i :: 0 <= i < |core| && Resolve(origin, core[i]) == u
    ensures r.Some? ==> forall u :: u in s.temp && u !in ShellUrls(origin, core) ==>
      u in r.value.temp && r.value.temp[u] == s.temp[u]
  {
    match AddAll(s.temp, ShellUrls(origin, core), net)
    case Stored(temp) => Some(s.(temp := temp))
    case BatchRejected =>
      assert !forall i :: 0 <= i < |core| ==> Succeeds(net(Resolve(origin, core[i])));
      None
  }

  /** The warm-upgrade test for one cached URL: its key (by activation's rule)
      is in the new manifest with the fingerprint the old snapshot recorded. */
  predicate Reusable(origin: string, manifest: Manifest, previous: Manifest, url: Url)
  {
    var k := ActivateKey(origin, url);
    k in manifest && k in previous && manifest[k] == previous[k]
  }

  /** The content cache after the warm-upgrade diff. */
  function Retained(content: Cache, origin: string, manifest: Manifest, previous: Manifest): Cache
  {
    map u | u in content && Reusable(origin, manifest, previous, u) :: content[u]
  }

  /** The activate handler. `fault` says whether some cache operation threw;
      the handler then deletes all three caches, wherever the throw happened. */
  function Activate(s: Stores, manifest: Manifest, origin: string, fault: bool): (r: Stores)
    ensures fault ==> r == Wiped
    ensures !fault ==> r.temp == map[] && r.snapshot == Some(manifest)
    ensures !fault ==> forall u :: u in s.temp ==> u in r.content && r.content[u] == s.temp[u]
    ensures !fault && s.snapshot.None? ==> r.content == s.temp
    ensures !fault && s.snapshot.Some? ==> forall u :: u in r.content <==>
      u in s.temp || (u in s.content && ActivateKey(origin, u) in manifest && ActivateKey(origin, u) in s.snapshot.value
                      && manifest[ActivateKey(origin, u)] == s.snapshot.value[ActivateKey(origin, u)])
    ensures !fault ==> forall u :: u in r.content && u !in s.temp ==> u in s.content && r.content[u] == s.content[u]
  {
    if fault then Wiped
    else match s.snapshot
      case None => Stores(s.temp, map[], Some(manifest))
      case Some(previous) => Stores(Retained(s.content, origin, manifest, previous) + s.temp, map[], Some(manifest))
  }

  /** The warm-upgrade loop: walk the content cache's URLs and delete every
      entry that is not reusable. */
  method EvictStale(content: Cache, origin: string, manifest: Manifest, previous: Manifest) returns (kept: Cache)
    ensures forall u :: u in kept <==> u in content && Reusable(origin, manifest, previous, u)
    ensures forall u :: u in kept ==> kept[u] == content[u]
  {
    kept := content;
    var pending := content.Keys;
    while pending != {}
      invariant pending <= content.Keys
      invariant forall u :: u in kept <==> u in content && (u in pending || Reusable(origin, manifest, previous, u))
      invariant forall u :: u in kept ==> kept[u] == content[u]
      decreases pending
    {
      var u :| u in pending;
      if !Reusable(origin, manifest, previous, u) {
        kept := kept - {u};
      }
      pending := pending - {u};
    }
  }

  /** The publishing loop: put every entry of `from` into `into`. */
  method CopyEntries(into: Cache, from: Cache) returns (c: Cache)
    ensures c.Keys == into.Keys + from.Keys
    ensures forall u :: u in from ==> c[u] == from[u]
    ensures forall u :: u in into && u !in from ==> c[u] == into[u]
  {
    c := into;
    var pending := from.Keys;
    while pending != {}
      invariant pending <= from.Keys
      invariant c.Keys == into.Keys + (from.Keys - pending)
      invariant forall u :: u in from && u !in pending ==> c[u] == from[u]
      invariant forall u :: u in into && u !in (from.Keys - pending) ==> c[u] == into[u]
      decreases pending
    {
      var u :| u in pending;
      c := c[u := from[u]];
      pending := pending - {u};
    }
  }

  /** The activate handler step by step, as the source sequences its loops. */
  method RunActivate(s: Stores, manifest: Manifest, origin: string, fault: bool) returns (r: Stores)
    ensures r == Activate(s, manifest, origin, fault)
  {
    if fault {
      return Wiped;
    }
    var content: Cache;
    match s.snapshot {
      case None =>
        content := CopyEntries(map[], s.temp);
      case Some(previous) =>
        var kept := EvictStale(s.content, origin, manifest, previous);
        assert kept == Retained(s.content, origin, manifest, previous);
        content := CopyEntries(kept, s.temp);
        assert content == kept + s.temp;
    }
    r := Stores(content, map[], Some(manifest));
  }

  /** Re-activating with the snapshot already equal to the manifest evicts no
      entry whose key the manifest lists; unstaged ones keep their response. */
  lemma SameManifestEvictsNothing(s: Stores, manifest: Manifest, origin: string)
    requires s.snapshot == Some(manifest)
    ensures forall u :: u in s.content && ActivateKey(origin, u) in manifest ==>
      var r := Activate(s, manifest, origin, false);
      u in r.content && (u !in s.temp ==> r.content[u] == s.content[u])
  {
  }

  /** Activating twice with the same manifest leaves the stores as the first
      activation left them, when every staged URL maps to a manifest key:
      whatever the first activation kept from the content cache is kept
      again. */
  lemma ActivateTwiceIsStable(s: Stores, manifest: Manifest, origin: string)
    requires forall u :: u in s.temp ==> ActivateKey(origin, u) in manifest
    ensures Activate(Activate(s, manifest, origin, false), manifest, origin, false) == Activate(s, manifest, origin, false)
  {
  }

  /** A key the old snapshot did not list reaches the content cache through
      activation only from staging: a warm upgrade never keeps it. */
  lemma NewKeyOnlyFromStaging(s: Stores, manifest: Manifest, origin: string, u: Url)
    requires s.snapshot.Some? && ActivateKey(origin, u) !in s.snapshot.value
    requires u !in s.temp
    ensures u !in Activate(s, manifest, origin, false).content
  {
  }

  /** An entry cached under a `?v=` URL never survives a warm upgrade when the
      manifest keys carry no marker, even though the fetch handler served it
      under an unchanged key. */
  lemma VersionedEntryEvictedOnUpgrade(s: Stores, manifest: Manifest, origin: string, path: string, v: string)
    requires s.snapshot.Some?
    requires forall k :: k in manifest ==> Strings.IndexOf(k, VersionMarker) == -1
    requires origin + "/" + path + VersionMarker + v !in s.temp
    ensures origin + "/" + path + VersionMarker + v !in Activate(s, manifest, origin, false).content
  {
    var u := origin + "/" + path + VersionMarker + v;
    ActivateKeyKeepsVersion(origin, path, v);
    var k := path + VersionMarker + v;
    assert Strings.OccursAt(k, VersionMarker, |path|) by {
      assert k[|path|..|path| + 3] == VersionMarker;
    }
    assert k !in manifest;
  }

  /** A successful install followed by a successful activation publishes
      every shell resource into the content cache with the response fetched
      at install, and leaves staging empty. */
  lemma InstallThenActivatePublishesShell(s: Stores, manifest: Manifest, origin: string, core: seq<Key>, net: Url -> FetchOutcome)
    requires Install(s, origin, core, net).Some?
    ensures var r := Activate(Install(s, origin, core, net).value, manifest, origin, false);
      && r.temp == map[]
      && forall i :: 0 <= i < |core| ==>
           Resolve(origin, core[i]) in r.content && r.content[Resolve(origin, core[i])] == net(Resolve(origin, core[i])).response
  {
  }
}
