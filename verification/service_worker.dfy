/** The web service worker's pure decisions: which responses may be cached, which caches
    an activation deletes, which keys a trim deletes, and how a fetch is answered. The
    Cache API and the network are inputs: `lookup` is what `caches.match` would find, by
    request URL, and `network` is what the one `fetch` of the handler yields. Cache writes
    come out as an ordered effect list. */
module ServiceWorker {
  import opened Wrappers
  import opened Seqs
  import opened Text

  const CacheName := "save-it-v2"
  const RuntimeCache := "save-it-runtime-v2"
  const ImageCache := "save-it-images-v2"
  const OfflinePage := "/offline.html"

  /** The assets added to `CacheName` on install. */
  const PrecacheAssets := ["/", "/index.html", "/offline.html", "/favicon.ico",
                           "/icon-180.png", "/icon-192.png", "/icon-512.png", "/manifest.json"]

  const MaxRuntimeCacheSize: nat := 100
  const MaxImageCacheSize: nat := 50

  /** The caches the current version owns. */
  const CurrentCaches := [CacheName, RuntimeCache, ImageCache]

  lemma ConstantsShape()
    ensures |PrecacheAssets| == 8 && OfflinePage in PrecacheAssets && "/" in PrecacheAssets
    ensures Distinct(CurrentCaches)
  {
    assert PrecacheAssets[2] == OfflinePage;
  }

  /** A response as far as the worker looks at it: its status and its `type`
      ("basic", "cors", "opaque", "default", "error"). */
  datatype Response = Response(status: int, kind: string)

  /** `isValidResponse`: present, status 200, and not a network-error response. */
  predicate IsValidResponse(r: Option<Response>) {
    r.Some? && r.value.status == 200 && r.value.kind != "error"
  }

  lemma ValidResponseShape(r: Option<Response>)
    ensures IsValidResponse(r) ==> r.Some? && r.value.status == 200
    ensures r == None ==> !IsValidResponse(r)
    ensures IsValidResponse(Some(Response(200, "basic")))
    ensures !IsValidResponse(Some(Response(0, "opaque")))
    ensures !IsValidResponse(Some(Response(404, "basic")))
  {
  }

  // ---------------------------------------------------------------------------
  // trimCache and the activate clean-up
  // ---------------------------------------------------------------------------

  /** The keys `trimCache` deletes and the keys it keeps, given the cache's keys in
      insertion order: when there are more than `max`, the oldest go and the newest
      `max` stay, in order; otherwise nothing goes. */
  function TrimSelection(keys: seq<string>, max: nat): (r: (seq<string>, seq<string>))
    ensures r.0 + r.1 == keys
    ensures |keys| > max ==> |r.1| == max
    ensures |keys| <= max ==> r.0 == [] && r.1 == keys
    ensures |r.1| <= max
  {
    if |keys| > max then (keys[..|keys| - max], keys[|keys| - max..]) else ([], keys)
  }

  /** Trimming a trimmed cache deletes nothing. */
  lemma TrimIdempotent(keys: seq<string>, max: nat)
    ensures TrimSelection(TrimSelection(keys, max).1, max) == ([], TrimSelection(keys, max).1)
  {
  }

  /** Trimming to a smaller bound after a larger one is the same as trimming to the
      smaller bound alone. */
  lemma TrimCompose(keys: seq<string>, big: nat, small: nat)
    requires small <= big
    ensures TrimSelection(TrimSelection(keys, big).1, small).1 == TrimSelection(keys, small).1
  {
  }

  /** `cache.put` of a key drops any earlier entry for it and appends the new one, so the
      cache's key order stays the order of last writes. */
  function PutKey(keys: seq<string>, key: string): (r: seq<string>)
    ensures |r| >= 1 && r[|r| - 1] == key
    ensures forall k :: k in r <==> k in keys || k == key
    ensures Distinct(keys) ==> Distinct(r)
    ensures key !in keys ==> r == keys + [key]
  {
    var rest := Filter(keys, (k: string) => k != key);
    assert key !in keys ==> rest == keys by {
      if key !in keys {
        FilterKeepsAll(keys, (k: string) => k != key);
      }
    }
    assert Distinct(keys) ==> Distinct(rest + [key]) by {
      if Distinct(keys) {
        FilterDistinct(keys, (k: string) => k != key);
      }
    }
    rest + [key]
  }

  /** A key just written survives the trim that follows it, as long as the bound is
      positive. */
  lemma PutThenTrimKeepsKey(keys: seq<string>, key: string, max: nat)
    requires max > 0
    ensures key in TrimSelection(PutKey(keys, key), max).1
  {
    var r := PutKey(keys, key);
    var kept := TrimSelection(r, max).1;
    assert kept[|kept| - 1] == r[|r| - 1];
  }

  /** The caches an activation deletes: every cache name not owned by this version. */
  function StaleCaches(names: seq<string>): (r: seq<string>)
    ensures forall n :: n in r <==> n in names && n !in CurrentCaches
    ensures |r| <= |names|
  {
    Filter(names, (n: string) => n !in CurrentCaches)
  }

  /** The current caches, wherever they appear among the names, add nothing to what an
      activation deletes. */
  lemma ActivateIgnoresCurrent(names: seq<string>)
    ensures StaleCaches(names + CurrentCaches) == StaleCaches(names)
    ensures StaleCaches(CurrentCaches + names) == StaleCaches(names)
  {
    var keep := (n: string) => n !in CurrentCaches;
    FilterConcat(names, CurrentCaches, keep);
    FilterConcat(CurrentCaches, names, keep);
    ActivateCurrentOnly(CurrentCaches);
  }

  /** An activation with only current caches deletes nothing. */
  lemma ActivateCurrentOnly(names: seq<string>)
    requires forall i :: 0 <= i < |names| ==> names[i] in CurrentCaches
    ensures StaleCaches(names) == []
  {
    FilterKeepsNone(names, (n: string) => n !in CurrentCaches);
  }

  // ---------------------------------------------------------------------------
  // The fetch handler
  // ---------------------------------------------------------------------------

  /** A request URL, already parsed: its origin, its path and the full text that keys the
      caches. */
  datatype Url = Url(origin: string, pathname: string, href: string)

  /** `verb` is the request's HTTP method. */
  datatype Request = Request(verb: string, url: Url, destination: string, mode: string)

  /** The outcome of the handler's `fetch`: a response, or a rejected promise. */
  datatype FetchOutcome = Failed | Got(response: Response)

  /** What the event ends in: not intercepted (the browser fetches as usual), answered
      with a response, or answered with the network error rethrown. */
  datatype Reply = Passthrough | Respond(response: Response) | Rethrow

  /** A cache write the handler performs, in order. */
  datatype Effect = Put(cache: string, key: string, response: Response) | Trim(cache: string, max: nat)

  /** Which strategy a request gets. */
  datatype Route = NotIntercepted | ExternalImage | Api | AppShell

  function Classify(locationOrigin: string, req: Request): (route: Route)
    ensures route == NotIntercepted <==>
              req.verb != "GET" || (req.url.origin != locationOrigin && req.destination != "image")
    ensures route == ExternalImage <==>
              req.verb == "GET" && req.destination == "image" && req.url.origin != locationOrigin
    ensures route == Api <==>
              req.verb == "GET" && req.url.origin == locationOrigin
              && StartsWith(req.url.pathname, "/api/")
    ensures route == AppShell ==> req.verb == "GET" && req.url.origin == locationOrigin
  {
    if req.verb != "GET" then NotIntercepted
    else if req.destination == "image" && req.url.origin != locationOrigin then ExternalImage
    else if req.url.origin != locationOrigin then NotIntercepted
    else if StartsWith(req.url.pathname, "/api/") then Api
    else AppShell
  }

  /** A same-origin image is not treated as external: it goes through the app-shell
      strategy like any other same-origin asset. */
  lemma SameOriginImageIsAppShell(origin: string, path: string, href: string)
    requires !StartsWith(path, "/api/")
    ensures Classify(origin, Request("GET", Url(origin, path, href), "image", "no-cors")) == AppShell
  {
  }

  /** The placeholder for an external image that could not be fetched: an empty 404. */
  const NotFound := Response(404, "default")

  /** Caches a network response when it is valid, and trims after it when `trim` says so. */
  function CacheIfValid(cache: string, key: string, r: Response, trim: Option<nat>): (effects: seq<Effect>)
    ensures IsValidResponse(Some(r)) ==> |effects| >= 1 && effects[0] == Put(cache, key, r)
    ensures !IsValidResponse(Some(r)) ==> effects == []
    ensures IsValidResponse(Some(r)) && trim.Some? ==>
              |effects| == 2 && effects[1] == Trim(cache, trim.value)
    ensures trim.None? ==> |effects| <= 1
    ensures |effects| <= 2
  {
    if !IsValidResponse(Some(r)) then []
    else if trim.Some? then [Put(cache, key, r), Trim(cache, trim.value)]
    else [Put(cache, key, r)]
  }

  /** The fetch handler: the reply and the cache writes it performs. */
  function HandleFetch(locationOrigin: string, req: Request, lookup: map<string, Response>,
                       network: FetchOutcome): (r: (Reply, seq<Effect>))
    // not intercepted: nothing happens here
    ensures r.0 == Passthrough <==> Classify(locationOrigin, req) == NotIntercepted
    ensures r.0 == Passthrough ==> r.1 == []
    // external images: cache first; the network answer is returned as is; failure is a 404
    ensures Classify(locationOrigin, req) == ExternalImage ==>
              if req.url.href in lookup then r == (Respond(lookup[req.url.href]), [])
              else if network.Failed? then r == (Respond(NotFound), [])
              else r.0 == Respond(network.response)
                   && r.1 == CacheIfValid(ImageCache, req.url.href, network.response, Some(MaxImageCacheSize))
    // API: network first, cache on failure, rethrow when nothing is cached
    ensures Classify(locationOrigin, req) == Api ==>
              if network.Got? then
                r.0 == Respond(network.response)
                && r.1 == CacheIfValid(RuntimeCache, req.url.href, network.response, None)
              else r.1 == [] &&
                   r.0 == (if req.url.href in lookup then Respond(lookup[req.url.href]) else Rethrow)
    // app shell: cache first, refreshed in the background without a trim
    ensures Classify(locationOrigin, req) == AppShell && req.url.href in lookup ==>
              r.0 == Respond(lookup[req.url.href])
              && r.1 == (if network.Got? then CacheIfValid(RuntimeCache, req.url.href, network.response, None)
                         else [])
    // app shell miss: the network answer, cached and trimmed only when valid
    ensures Classify(locationOrigin, req) == AppShell && req.url.href !in lookup && network.Got? ==>
              r.0 == Respond(network.response)
              && r.1 == CacheIfValid(RuntimeCache, req.url.href, network.response, Some(MaxRuntimeCacheSize))
    // app shell miss offline: navigations fall back to the offline page, then to "/"
    ensures Classify(locationOrigin, req) == AppShell && req.url.href !in lookup && network.Failed? ==>
              r.1 == [] && r.0 == NavigationFallback(locationOrigin, req, lookup)
  {
    var key := req.url.href;
    match Classify(locationOrigin, req)
    case NotIntercepted => (Passthrough, [])
    case ExternalImage =>
      if key in lookup then (Respond(lookup[key]), [])
      else if network.Failed? then (Respond(NotFound), [])
      else (Respond(network.response),
            CacheIfValid(ImageCache, key, network.response, Some(MaxImageCacheSize)))
    case Api =>
      if network.Got? then
        (Respond(network.response), CacheIfValid(RuntimeCache, key, network.response, None))
      else if key in lookup then (Respond(lookup[key]), [])
      else (Rethrow, [])
    case AppShell =>
      if key in lookup then
        (Respond(lookup[key]),
         if network.Got? then CacheIfValid(RuntimeCache, key, network.response, None) else [])
      else if network.Got? then
        (Respond(network.response),
         CacheIfValid(RuntimeCache, key, network.response, Some(MaxRuntimeCacheSize)))
      else (NavigationFallback(locationOrigin, req, lookup), [])
  }

  /** After a failed app-shell fetch: a navigation gets the cached offline page, else the
      cached root page; anything else, or a navigation with neither cached, rethrows.
      The two page paths resolve against the worker's own origin. */
  function NavigationFallback(locationOrigin: string, req: Request, lookup: map<string, Response>): (reply: Reply)
    ensures reply != Passthrough
    ensures reply == Rethrow <==>
              req.mode != "navigate"
              || (locationOrigin + OfflinePage !in lookup && locationOrigin + "/" !in lookup)
    ensures reply.Respond? && locationOrigin + OfflinePage in lookup ==>
              reply.response == lookup[locationOrigin + OfflinePage]
    ensures reply.Respond? && locationOrigin + OfflinePage !in lookup ==>
              reply.response == lookup[locationOrigin + "/"]
  {
    if req.mode != "navigate" then Rethrow
    else if locationOrigin + OfflinePage in lookup then Respond(lookup[locationOrigin + OfflinePage])
    else if locationOrigin + "/" in lookup then Respond(lookup[locationOrigin + "/"])
    else Rethrow
  }

  /** Every cache write is of a valid response, under the request's own URL, into the
      runtime or image cache: the precache is never written by a fetch. Every trim
      directly follows a write to the same cache and uses that cache's bound. */
  lemma FetchWritesOnlyValid(locationOrigin: string, req: Request, lookup: map<string, Response>,
                             network: FetchOutcome)
    ensures var effects := HandleFetch(locationOrigin, req, lookup, network).1;
            forall k :: 0 <= k < |effects| ==>
              match effects[k]
              case Put(cache, key, resp) =>
                IsValidResponse(Some(resp)) && key == req.url.href
                && (cache == RuntimeCache || cache == ImageCache) && cache != CacheName
              case Trim(cache, max) =>
                k > 0 && effects[k - 1].Put? && effects[k - 1].cache == cache
                && (cache == ImageCache ==> max == MaxImageCacheSize)
                && (cache == RuntimeCache ==> max == MaxRuntimeCacheSize)
  {
  }

  /** A fetch that fails offline never writes to a cache. */
  lemma OfflineWritesNothing(locationOrigin: string, req: Request, lookup: map<string, Response>)
    ensures HandleFetch(locationOrigin, req, lookup, Failed).1 == []
  {
  }

  /** An intercepted request is rethrown only when the network failed and no cached copy
      or fallback page could stand in; external images are never rethrown. */
  lemma RethrowOnlyOffline(locationOrigin: string, req: Request, lookup: map<string, Response>,
                           network: FetchOutcome)
    requires HandleFetch(locationOrigin, req, lookup, network).0 == Rethrow
    ensures network.Failed? && req.url.href !in lookup
    ensures Classify(locationOrigin, req) != ExternalImage
  {
  }

  /** The API strategy prefers a fresh answer: whenever the network answers, its response
      is returned, even an error status and even when a cached copy exists. */
  lemma ApiPrefersNetwork(locationOrigin: string, req: Request, lookup: map<string, Response>,
                          resp: Response)
    requires Classify(locationOrigin, req) == Api
    ensures HandleFetch(locationOrigin, req, lookup, Got(resp)).0 == Respond(resp)
  {
  }

  /** The app-shell strategy prefers the cache: a cached copy is returned whatever the
      network does, and the network only refreshes it. */
  lemma AppShellPrefersCache(locationOrigin: string, req: Request, lookup: map<string, Response>,
                             n1: FetchOutcome, n2: FetchOutcome)
    requires Classify(locationOrigin, req) == AppShell && req.url.href in lookup
    ensures HandleFetch(locationOrigin, req, lookup, n1).0 == HandleFetch(locationOrigin, req, lookup, n2).0
  {
  }
}
