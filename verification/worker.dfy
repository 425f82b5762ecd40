/**
 Properties of the handlers taken together: what the fetch handler serves
 after install and activate, and what an upgrade does to entries the fetch
 handler cached.
 */
module Worker {
  import opened Strings
  import opened Keys
  import opened Storage
  import opened Lifecycle
  import opened Router

  /** A manifest key whose URL both key rules map back to the key itself. */
  predicate PlainKey(k: Key)
  {
    RootRelative(k) && k != Root && IndexOf(k, VersionMarker) == -1
  }

  /** After a successful install and activation, a GET for a shell resource
      other than "/" is answered from the cache with the response fetched at
      install, without asking the network. */
  lemma ShellServedWithoutNetwork(s: Stores, manifest: Manifest, origin: string, core: seq<Key>,
                                  net: Url -> FetchOutcome, i: nat, later: FetchOutcome)
    requires forall j :: 0 <= j < |core| ==> Succeeds(net(Resolve(origin, core[j])))
    requires i < |core| && PlainKey(core[i]) && core[i] in manifest
    ensures var after := Activate(Install(s, origin, core, net).value, manifest, origin, false);
      var h := HandleFetch(origin, manifest, after.content, Request("GET", Resolve(origin, core[i])), later);
      h.reply == Respond(Served(net(Resolve(origin, core[i])).response)) && !h.fetched
  {
    FetchKeyOfResolve(origin, core[i]);
  }

  /** A resource the fetch handler cached lazily survives the next warm
      upgrade with its response when its fingerprint did not change, and is
      evicted when it did. */
  lemma LazyEntryAcrossUpgrade(s: Stores, manifest: Manifest, origin: string, k: Key, response: Response)
    requires PlainKey(k) && s.snapshot.Some?
    requires k in s.snapshot.value
    requires Resolve(origin, k) !in s.content && Resolve(origin, k) !in s.temp
    requires response.Ok()
    ensures var h := HandleFetch(origin, s.snapshot.value, s.content, Request("GET", Resolve(origin, k)), Resolved(response));
      var after := Activate(s.(content := h.content), manifest, origin, false);
      && (Resolve(origin, k) in after.content <==> k in manifest && manifest[k] == s.snapshot.value[k])
      && (Resolve(origin, k) in after.content ==> after.content[Resolve(origin, k)] == response)
  {
  }
}
