/**
 The fetch handler: which requests the worker intercepts and how it serves
 them. The entry document is served online-first; every other manifest
 resource is served cache-first and fills the cache lazily.
 */
module Router {
  import opened Keys
  import opened Storage

  datatype Request = Request(verb: string, url: Url)

  /** What the page receives for an intercepted request. */
  datatype Answer = Served(response: Response) | Failed(error: NetError)

  /** `PassThrough` is a request the handler returns from without calling
      `respondWith`, so the browser's own networking handles it. */
  datatype Reply = PassThrough | Respond(answer: Answer)

  /** The outcome of handling one request: the reply, the content cache
      afterwards, and whether the network was asked. */
  datatype Handled = Handled(reply: Reply, content: Cache, fetched: bool)

  /** Cache-first with lazy fill for the request URL `url`; `net` is what the
      fetch would settle to if it were issued. */
  function CacheFirst(content: Cache, url: Url, net: FetchOutcome): (r: Handled)
    ensures url in content ==> r.reply == Respond(Served(content[url])) && r.content == content && !r.fetched
    ensures url !in content ==> r.fetched
    ensures url !in content && net.Rejected? ==> r.reply == Respond(Failed(net.error)) && r.content == content
    ensures url !in content && net.Resolved? ==> r.reply == Respond(Served(net.response))
    ensures url !in content && net.Resolved? && net.response.Ok() ==> r.content == content[url := net.response]
    ensures url !in content && net.Resolved? && !net.response.Ok() ==> r.content == content
  {
    if url in content then
      Handled(Respond(Served(content[url])), content, false)
    else
      match net
      case Resolved(response) =>
        Handled(Respond(Served(response)), if response.Ok() then content[url := response] else content, true)
      case Rejected(error) =>
        Handled(Respond(Failed(error)), content, true)
  }

  /** Online-first for the entry document: a resolved fetch is stored whatever
      its status and returned; a rejected one falls back to the cached copy,
      or re-raises its error when there is none. */
  function OnlineFirst(content: Cache, url: Url, net: FetchOutcome): (r: Handled)
    ensures r.fetched
    ensures net.Resolved? ==> r.reply == Respond(Served(net.response)) && r.content == content[url := net.response]
    ensures net.Rejected? ==> r.content == content
    ensures net.Rejected? && url in content ==> r.reply == Respond(Served(content[url]))
    ensures net.Rejected? && url !in content ==> r.reply == Respond(Failed(net.error))
  {
    match net
    case Resolved(response) =>
      Handled(Respond(Served(response)), content[url := response], true)
    case Rejected(error) =>
      if url in content then Handled(Respond(Served(content[url])), content, true)
      else Handled(Respond(Failed(error)), content, true)
  }

  /** The fetch handler: pass through non-GET requests and keys outside the
      manifest, serve "/" online-first and everything else cache-first. */
  function HandleFetch(origin: string, manifest: Manifest, content: Cache, req: Request, net: FetchOutcome): (r: Handled)
    ensures r.reply.PassThrough? <==> req.verb != "GET" || FetchKey(origin, req.url) !in manifest
    ensures r.reply.PassThrough? ==> r.content == content && !r.fetched
    ensures !r.reply.PassThrough? && FetchKey(origin, req.url) == Root ==> r == OnlineFirst(content, req.url, net)
    ensures !r.reply.PassThrough? && FetchKey(origin, req.url) != Root ==> r == CacheFirst(content, req.url, net)
  {
    if req.verb != "GET" then Handled(PassThrough, content, false)
    else
      var key := FetchKey(origin, req.url);
      if key !in manifest then Handled(PassThrough, content, false)
      else if key == Root then OnlineFirst(content, req.url, net)
      else CacheFirst(content, req.url, net)
  }

  /** Handling a request touches at most the entry of its own URL, and never
      removes an entry. */
  lemma HandleFetchTouchesOnlyItsUrl(origin: string, manifest: Manifest, content: Cache, req: Request, net: FetchOutcome)
    ensures var r := HandleFetch(origin, manifest, content, req, net);
      && content.Keys <= r.content.Keys
      && r.content.Keys <= content.Keys + {req.url}
      && forall u :: u in content && u != req.url ==> r.content[u] == content[u]
  {
  }

  /** Cache-first never stores a response that is not ok: every entry it adds
      or changes is an ok response. */
  lemma CacheFirstStoresOnlyOk(content: Cache, url: Url, net: FetchOutcome)
    ensures var r := CacheFirst(content, url, net);
      forall u :: u in r.content && (u !in content || r.content[u] != content[u]) ==> r.content[u].Ok()
  {
  }

  /** Once cache-first has answered with an ok response, the next request for
      the same URL gets that response again without asking the network,
      whatever the network would say. */
  lemma CacheFirstRepeatIsCached(content: Cache, url: Url, net: FetchOutcome, later: FetchOutcome)
    requires CacheFirst(content, url, net).reply.Respond?
    requires CacheFirst(content, url, net).reply.answer.Served?
    requires CacheFirst(content, url, net).reply.answer.response.Ok()
    ensures var first := CacheFirst(content, url, net);
      var second := CacheFirst(first.content, url, later);
      second.reply == first.reply && !second.fetched && second.content == first.content
  {
  }

  /** The entry document reflects the latest network answer, and when the
      network is lost right after, the fallback serves exactly that answer. */
  lemma OnlineFirstFallbackServesLastFetch(content: Cache, url: Url, response: Response, error: NetError)
    ensures var first := OnlineFirst(content, url, Resolved(response));
      var second := OnlineFirst(first.content, url, Rejected(error));
      first.reply == Respond(Served(response)) && second.reply == first.reply
  {
  }

  /** A request with a `?v=` query is intercepted, and by the same strategy,
      exactly when the same URL without the query is. */
  lemma VersionedRequestRoutedAlike(origin: string, manifest: Manifest, content: Cache, verb: string,
                                    path: string, v: string, net: FetchOutcome)
    ensures var plain := HandleFetch(origin, manifest, content, Request(verb, origin + "/" + path), net);
      var versioned := HandleFetch(origin, manifest, content, Request(verb, origin + "/" + path + VersionMarker + v), net);
      && plain.reply.PassThrough? == versioned.reply.PassThrough?
      && (FetchKey(origin, origin + "/" + path) == Root <==> FetchKey(origin, origin + "/" + path + VersionMarker + v) == Root)
  {
    VersionQueryIgnored(origin, path, v);
  }

  /** The cache is looked up by the full request URL, not by the key: a
      versioned request for a resource cached without the query goes to the
      network. */
  lemma VersionedRequestMissesPlainEntry(origin: string, manifest: Manifest, content: Cache,
                                         path: string, v: string, net: FetchOutcome)
    requires origin + "/" + path + VersionMarker + v !in content
    requires FetchKey(origin, origin + "/" + path) in manifest
    ensures HandleFetch(origin, manifest, content, Request("GET", origin + "/" + path + VersionMarker + v), net).fetched
  {
    VersionQueryIgnored(origin, path, v);
  }
}
