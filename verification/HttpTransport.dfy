/**
 The HTTP transport's cache of entity tags and bodies, and why it is invisible:
 a pull gives what the server holds at that moment.
 */
module HttpTransports {
  import opened Json

  datatype Cached = Cached(etag: Text, body: Bytes, at: real)

  type Cache = map<Text, Cached>

  /** What comes back for a request: a response, whose body may fail to arrive, or a timeout or network error. */
  datatype Reply = Failed | Response(status: int, etag: Option<Text>, body: Bytes, drained: bool)

  /** How a pull ends: with bytes, with None, or with the RuntimeError it raises. */
  datatype Pulled = Body(bytes: Bytes) | Absent | Error

  function Stripped(path: Text): Text {
    if path != "" && path[0] == '/' then Stripped(path[1..]) else path
  }

  /** The URL path of a remote path: leading slashes do not matter. */
  function BuildPath(base: Text, path: Text): Text {
    base + "/" + Stripped(path)
  }

  /** The path below the base is the given one from its first character that is no slash. */
  lemma {:induction false} StrippedIs(path: Text)
    ensures exists n :: 0 <= n <= |path| && Stripped(path) == path[n..] && (forall i :: 0 <= i < n ==> path[i] == '/')
                        && (n < |path| ==> path[n] != '/')
  {
    if path != "" && path[0] == '/' {
      StrippedIs(path[1..]);
      var n :| 0 <= n <= |path| - 1 && Stripped(path[1..]) == path[1..][n..]
               && (forall i :: 0 <= i < n ==> path[1..][i] == '/') && (n < |path| - 1 ==> path[1..][n] != '/');
      assert path[1..][n..] == path[n + 1..];
      assert forall i :: 1 <= i < n + 1 ==> path[i] == path[1..][i - 1];
    } else {
      assert path[0..] == path;
    }
  }

  lemma BuildPathIs(base: Text, path: Text)
    ensures exists n :: 0 <= n <= |path| && BuildPath(base, path) == base + "/" + path[n..]
                        && (forall i :: 0 <= i < n ==> path[i] == '/') && (n < |path| ==> path[n] != '/')
  {
    StrippedIs(path);
  }

  // ----- What each operation does to the cache ------------------------------

  predicate Expired(c: Cached, ttl: real, now: real) {
    ttl > 0.0 && now - c.at > ttl
  }

  /** The entry a pull may use; an expired one is evicted on the way. */
  function Usable(cache: Cache, ttl: real, path: Text, now: real): Option<Cached> {
    if path in cache && !Expired(cache[path], ttl, now) then Some(cache[path]) else None
  }

  function Swept(cache: Cache, ttl: real, path: Text, now: real): Cache {
    if path in cache && Expired(cache[path], ttl, now) then cache - {path} else cache
  }

  /** The `If-None-Match` header a pull sends. */
  function Sent(cache: Cache, ttl: real, path: Text, now: real): Option<Text> {
    var c := Usable(cache, ttl, path, now);
    if c.Some? then Some(c.value.etag) else None
  }

  function PullResult(cached: Option<Cached>, r: Reply): Pulled {
    if r.Failed? then Error
    else if r.status == 304 && cached.Some? then Body(cached.value.body)
    else if !r.drained then Error
    else if r.status == 200 then Body(r.body)
    else if r.status == 404 then Absent
    else Error
  }

  function PullCache(swept: Cache, path: Text, r: Reply, later: real): Cache {
    if r.Response? && r.drained && r.status == 200 && r.etag.Some? && r.etag.value != ""
    then swept[path := Cached(r.etag.value, r.body, later)] else swept
  }

  predicate PushOk(r: Reply) {
    r.Response? && 200 <= r.status < 300
  }

  predicate DeleteOk(r: Reply) {
    r.Response? && r.status in {200, 202, 204, 404}
  }

  function Unexpired(cache: Cache, ttl: real, now: real): Cache {
    map p | p in cache && !Expired(cache[p], ttl, now) :: cache[p]
  }

  class HttpTransport {
    var etagCache: Cache
    const ttl: real

    constructor (cacheTtl: real)
      ensures etagCache == map[] && ttl == (if cacheTtl < 0.0 then 0.0 else cacheTtl)
    {
      etagCache := map[];
      ttl := if cacheTtl < 0.0 then 0.0 else cacheTtl;
    }

    method GetCachedEntry(path: Text, now: real) returns (entry: Option<Cached>)
      modifies this
      ensures entry == Usable(old(etagCache), ttl, path, now)
      ensures etagCache == Swept(old(etagCache), ttl, path, now)
      ensures entry.Some? <==> path in old(etagCache) && (ttl <= 0.0 || now - old(etagCache)[path].at <= ttl)
      ensures entry.Some? ==> entry.value == old(etagCache)[path] && etagCache == old(etagCache)
      ensures entry.None? ==> etagCache == old(etagCache) - {path}
    {
      if path !in etagCache {
        return None;
      }
      if ttl > 0.0 && now - etagCache[path].at > ttl {
        etagCache := etagCache - {path};
        return None;
      }
      entry := Some(etagCache[path]);
    }

    /** `server` answers the GET for the `If-None-Match` it is sent; `now` and `later` are clock readings. */
    method Pull(path: Text, server: Option<Text> -> Reply, now: real, later: real) returns (result: Pulled)
      modifies this
      ensures var reply := server(Sent(old(etagCache), ttl, path, now));
              && result == PullResult(Usable(old(etagCache), ttl, path, now), reply)
              && etagCache == PullCache(Swept(old(etagCache), ttl, path, now), path, reply, later)
      ensures var live := path in old(etagCache) && (ttl <= 0.0 || now - old(etagCache)[path].at <= ttl);
              var reply := server(if live then Some(old(etagCache)[path].etag) else None);
              var kept := if live then old(etagCache) else old(etagCache) - {path};
              match reply
              case Failed => result == Error && etagCache == kept
              case Response(status, etag, body, drained) =>
                if status == 304 then
                  etagCache == kept && result == if live then Body(old(etagCache)[path].body) else Error
                else if status == 200 && drained then
                  && result == Body(body)
                  && etagCache == if etag.Some? && etag.value != "" then kept[path := Cached(etag.value, body, later)] else kept
                else etagCache == kept && result == if status == 404 && drained then Absent else Error
    {
      var cached := GetCachedEntry(path, now);
      var reply := server(if cached.Some? then Some(cached.value.etag) else None);
      if reply.Failed? {
        return Error;
      }
      if reply.status == 304 {
        if cached.None? {
          return Error;  // the body was never bound
        }
        return Body(cached.value.body);
      }
      if !reply.drained {
        return Error;
      }
      if reply.status == 200 {
        if reply.etag.Some? && reply.etag.value != "" {
          etagCache := etagCache[path := Cached(reply.etag.value, reply.body, later)];
        }
        return Body(reply.body);
      }
      if reply.status == 404 {
        return Absent;
      }
      result := Error;
    }

    method Push(path: Text, reply: Reply) returns (ok: bool)
      modifies this
      ensures ok == (PushOk(reply) && reply.drained)
      ensures etagCache == if PushOk(reply) then old(etagCache) - {path} else old(etagCache)
      ensures ok <==> reply.Response? && 200 <= reply.status <= 299 && reply.drained
      ensures reply.Response? && 200 <= reply.status <= 299 ==> etagCache == old(etagCache) - {path}
      ensures !(reply.Response? && 200 <= reply.status <= 299) ==> etagCache == old(etagCache)
    {
      if reply.Response? && 200 <= reply.status < 300 {
        etagCache := etagCache - {path};
        return reply.drained;
      }
      ok := false;
    }

    method Delete(path: Text, reply: Reply) returns (ok: bool)
      modifies this
      ensures ok == (DeleteOk(reply) && reply.drained)
      ensures etagCache == if DeleteOk(reply) then old(etagCache) - {path} else old(etagCache)
      ensures ok <==> reply.Response? && reply.status in {200, 202, 204, 404} && reply.drained
      ensures reply.Response? && reply.status in {200, 202, 204, 404} ==> etagCache == old(etagCache) - {path}
      ensures !(reply.Response? && reply.status in {200, 202, 204, 404}) ==> etagCache == old(etagCache)
    {
      if reply.Response? && (reply.status == 200 || reply.status == 202 || reply.status == 204 || reply.status == 404) {
        etagCache := etagCache - {path};
        return reply.drained;
      }
      ok := false;
    }

    method ResetCache()
      modifies this
      ensures etagCache == map[]
    {
      etagCache := map[];
    }

    method EvictStale(now: real) returns (evicted: nat)
      modifies this
      ensures etagCache == Unexpired(old(etagCache), ttl, now)
      ensures forall p :: p in etagCache <==> p in old(etagCache) && (ttl <= 0.0 || now - old(etagCache)[p].at <= ttl)
      ensures forall p :: p in etagCache ==> etagCache[p] == old(etagCache)[p]
      ensures evicted == |old(etagCache)| - |etagCache|
    {
      if ttl <= 0.0 {
        assert Unexpired(etagCache, ttl, now) == etagCache;
        return 0;
      }
      var stale := StaleKeys(now);
      WithoutStale(etagCache, stale, ttl, now);
      UnexpiredIs(etagCache, ttl, now);
      hide Unexpired;
      RemoveAll(stale);
      evicted := |stale|;
    }

    method RemoveAll(paths: set<Text>)
      modifies this
      ensures etagCache == old(etagCache) - paths
    {
      var left := paths;
      ghost var gone: set<Text> := {};
      while left != {}
        invariant left + gone == paths
        invariant etagCache == old(etagCache) - gone
      {
        var p :| p in left;
        left := left - {p};
        TakeOut(old(etagCache), gone, p);
        gone := gone + {p};
        etagCache := etagCache - {p};
      }
    }

    method StaleKeys(now: real) returns (stale: set<Text>)
      ensures stale == set p | p in etagCache && now - etagCache[p].at > ttl
    {
      stale := {};
      var left := etagCache.Keys;
      while left != {}
        invariant left <= etagCache.Keys
        invariant stale == set p | p in etagCache && p !in left && now - etagCache[p].at > ttl
      {
        var p :| p in left;
        left := left - {p};
        if now - etagCache[p].at > ttl {
          stale := stale + {p};
        }
      }
    }
  }

  lemma UnexpiredIs(cache: Cache, ttl: real, now: real)
    ensures var rest := Unexpired(cache, ttl, now);
            && (forall p :: p in rest <==> p in cache && (ttl <= 0.0 || now - cache[p].at <= ttl))
            && forall p :: p in rest ==> rest[p] == cache[p]
  {
  }

  lemma TakeOut(cache: Cache, gone: set<Text>, p: Text)
    ensures cache - gone - {p} == cache - (gone + {p})
  {
  }

  lemma WithoutStale(cache: Cache, stale: set<Text>, ttl: real, now: real)
    requires ttl > 0.0 && stale == set p | p in cache && now - cache[p].at > ttl
    ensures cache - stale == Unexpired(cache, ttl, now)
    ensures |cache - stale| == |cache| - |stale|
  {
    assert cache.Keys == stale + (cache - stale).Keys;
  }

  // ----- Transport and server together --------------------------------------

  datatype Resource = Resource(bytes: Bytes, etag: Option<Text>)

  type Server = map<Text, Resource>

  /** What each entity tag at each URL stands for. */
  type Meaning = (Text, Text) -> Bytes

  datatype World = World(server: Server, cache: Cache, now: real)

  /** One thing that happens; `took` says whether a write of ours reached the server. */
  datatype Event =
    | Pull(path: Text, reply: Reply, later: real)
    | Push(path: Text, data: Bytes, etag: Option<Text>, took: bool, reply: Reply)
    | Delete(path: Text, took: bool, reply: Reply)
    | EvictStale
    | ResetCache
    | Foreign(url: Text, resource: Option<Resource>)
    | Clock(now: real)

  function Stored(server: Server, url: Text, resource: Option<Resource>): Server {
    if resource.Some? then server[url := resource.value] else server - {url}
  }

  function Next(w: World, base: Text, ttl: real, e: Event): World {
    match e
    case Pull(path, reply, later) =>
      w.(cache := PullCache(Swept(w.cache, ttl, path, w.now), path, reply, later), now := later)
    case Push(path, data, etag, took, reply) =>
      World(if took then Stored(w.server, BuildPath(base, path), Some(Resource(data, etag))) else w.server,
            if PushOk(reply) then w.cache - {path} else w.cache, w.now)
    case Delete(path, took, reply) =>
      World(if took then Stored(w.server, BuildPath(base, path), None) else w.server,
            if DeleteOk(reply) then w.cache - {path} else w.cache, w.now)
    case EvictStale => w.(cache := Unexpired(w.cache, ttl, w.now))
    case ResetCache => w.(cache := map[])
    case Foreign(url, resource) => w.(server := Stored(w.server, url, resource))
    case Clock(now) => w.(now := now)
  }

  /**
   The server answers a GET by what it holds (RFC 9110): 200 with the bytes and
   their tag, 304 only when the tag it was sent is the current one (sections 13.1.2
   and 15.4.5), 404 only when there is nothing. Failures and other statuses may
   come at any time.
   */
  predicate Honest(server: Server, url: Text, sent: Option<Text>, r: Reply) {
    r.Response? ==>
      && (r.status == 200 ==> url in server && (r.drained ==> server[url] == Resource(r.body, r.etag)))
      && (r.status == 304 ==> url in server && sent.Some? && server[url].etag == sent)
      && (r.status == 404 ==> url !in server)
  }

  /** A tag stored at a URL stands for the bytes stored with it (section 8.8.3). */
  predicate TagTells(means: Meaning, url: Text, r: Resource) {
    r.etag.Some? ==> r.bytes == means(url, r.etag.value)
  }

  ghost predicate Plausible(means: Meaning, w: World, base: Text, ttl: real, e: Event) {
    match e
    case Pull(path, reply, _) => Honest(w.server, BuildPath(base, path), Sent(w.cache, ttl, path, w.now), reply)
    case Push(path, data, etag, _, _) => TagTells(means, BuildPath(base, path), Resource(data, etag))
    case Foreign(url, resource) => resource.Some? ==> TagTells(means, url, resource.value)
    case _ => true
  }

  /** Every cached body is what its tag stands for, and so is everything on the server. */
  ghost predicate Sound(means: Meaning, base: Text, w: World) {
    && (forall path :: path in w.cache ==> w.cache[path].body == means(BuildPath(base, path), w.cache[path].etag))
    && (forall url :: url in w.server ==> TagTells(means, url, w.server[url]))
  }

  /** What a transport without a cache reads: the bytes held, or None. */
  function Read(server: Server, url: Text): Pulled {
    if url in server then Body(server[url].bytes) else Absent
  }

  predicate Answered(r: Reply) {
    r.Response? && (r.status == 304 || (r.drained && r.status in {200, 404}))
  }

  lemma NextIsSound(means: Meaning, w: World, base: Text, ttl: real, e: Event)
    requires Sound(means, base, w) && Plausible(means, w, base, ttl, e)
    ensures Sound(means, base, Next(w, base, ttl, e))
  {
    hide BuildPath;
  }

  /** An answered pull reads what the uncached store reads; an unanswered one raises. */
  lemma PullReads(means: Meaning, w: World, base: Text, ttl: real, path: Text, reply: Reply)
    requires Sound(means, base, w)
    requires Honest(w.server, BuildPath(base, path), Sent(w.cache, ttl, path, w.now), reply)
    ensures PullResult(Usable(w.cache, ttl, path, w.now), reply)
         == if Answered(reply) then Read(w.server, BuildPath(base, path)) else Error
  {
    hide BuildPath;
  }

  function Run(w: World, base: Text, ttl: real, run: seq<Event>): World {
    if run == [] then w else Next(Run(w, base, ttl, run[..|run| - 1]), base, ttl, run[|run| - 1])
  }

  ghost predicate PlausibleRun(means: Meaning, w: World, base: Text, ttl: real, run: seq<Event>) {
    forall k :: 0 <= k < |run| ==> Plausible(means, Run(w, base, ttl, run[..k]), base, ttl, run[k])
  }

  lemma {:induction false} RunsAreSound(means: Meaning, w: World, base: Text, ttl: real, run: seq<Event>, n: nat)
    requires Sound(means, base, w) && PlausibleRun(means, w, base, ttl, run) && n <= |run|
    ensures Sound(means, base, Run(w, base, ttl, run[..n]))
  {
    if n > 0 {
      RunsAreSound(means, w, base, ttl, run, n - 1);
      assert run[..n][..n - 1] == run[..n - 1];
      hide Sound, Plausible, Next;
      NextIsSound(means, Run(w, base, ttl, run[..n - 1]), base, ttl, run[n - 1]);
    }
  }

  /**
   Refinement. In every interleaving of our pulls, pushes and deletes, whether or not
   their answers arrive, with other clients' writes, clock changes, expiry, eviction
   and resets, every pull that gets an answer returns exactly what the server holds.
   */
  lemma EveryPullReadsTheServer(means: Meaning, w: World, base: Text, ttl: real, run: seq<Event>, k: nat)
    requires Sound(means, base, w) && PlausibleRun(means, w, base, ttl, run)
    requires k < |run| && run[k].Pull?
    ensures var s, e := Run(w, base, ttl, run[..k]), run[k];
            (PullResult(Usable(s.cache, ttl, e.path, s.now), e.reply)
             == if Answered(e.reply) then Read(s.server, BuildPath(base, e.path)) else Error)
  {
    RunsAreSound(means, w, base, ttl, run, k);
    var s, e := Run(w, base, ttl, run[..k]), run[k];
    assert Plausible(means, s, base, ttl, e);
    hide Run, Sound, BuildPath;
    PullReads(means, s, base, ttl, e.path, e.reply);
  }

  /** Starting with an empty cache there is nothing to be sound about but the server. */
  lemma EmptyCacheIsSound(means: Meaning, base: Text, w: World)
    requires w.cache == map[]
    ensures Sound(means, base, w) <==> forall url :: url in w.server ==> TagTells(means, url, w.server[url])
  {
  }

  /** So from a fresh transport it is enough that the server's tags tell bytes apart. */
  lemma FreshTransportReadsTheServer(means: Meaning, server: Server, now: real, base: Text, ttl: real, run: seq<Event>, k: nat)
    requires forall url :: url in server ==> TagTells(means, url, server[url])
    requires PlausibleRun(means, World(server, map[], now), base, ttl, run)
    requires k < |run| && run[k].Pull?
    ensures var s, e := Run(World(server, map[], now), base, ttl, run[..k]), run[k];
            (PullResult(Usable(s.cache, ttl, e.path, s.now), e.reply)
             == if Answered(e.reply) then Read(s.server, BuildPath(base, e.path)) else Error)
  {
    var w := World(server, map[], now);
    EmptyCacheIsSound(means, base, w);
    hide Run, Sound;
    EveryPullReadsTheServer(means, w, base, ttl, run, k);
  }

  /** The cache is of use: after an answer with a tag, the next pull of the path within the lifetime
      sends that tag, and a 304 brings back that body without its being sent again. */
  lemma TaggedBodyIsKept(cache: Cache, ttl: real, path: Text, at: real, etag: Text, body: Bytes, later: real, now: real, reply: Reply)
    requires etag != "" && (ttl <= 0.0 || now - later <= ttl) && reply.Response? && reply.status == 304
    ensures var after := PullCache(Swept(cache, ttl, path, at), path, Response(200, Some(etag), body, true), later);
            && Sent(after, ttl, path, now) == Some(etag)
            && PullResult(Usable(after, ttl, path, now), reply) == Body(body)
  {
    hide Swept;
  }

  /**
   Whatever the cache holds and whether or not tags tell bytes apart: an answered pull
   reads the server exactly when the body behind a 304 is still the current one.
   */
  lemma PullReadsIff(w: World, base: Text, ttl: real, path: Text, reply: Reply)
    requires Honest(w.server, BuildPath(base, path), Sent(w.cache, ttl, path, w.now), reply) && Answered(reply)
    ensures var url := BuildPath(base, path);
            PullResult(Usable(w.cache, ttl, path, w.now), reply) == Read(w.server, url)
            <==> (reply.status == 304 ==> w.cache[path].body == w.server[url].bytes)
  {
    hide BuildPath;
  }
}
