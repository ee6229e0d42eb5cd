/**
 * The service worker (src/sw.ts): request routing, the network-first and cache-first
 * strategies over the Cache API, pre-caching on install, removal of old caches on
 * activate, and the background sync that replays the pending form submissions.
 *
 * The network is a parameter: a function from request to the outcome of `fetch`.
 */
module ServiceWorker {
  import opened Options
  import opened JsString
  import opened FetchApi
  import opened PendingStore

  /** The cache names, each the prefix `bridgenotary-`, a kind, `-` and the cache version `v1`. */
  const RuntimeCache: string := "bridgenotary-runtime-v1"
  const StaticCache: string := "bridgenotary-static-v1"
  const ApiCache: string := "bridgenotary-api-v1"
  const CachePrefix: string := "bridgenotary-"

  /** The paths pre-cached on install. */
  const StaticFiles: seq<string> := ["/", "/index.html", "/manifest.json"]

  /** The alternatives of `/\.(png|jpg|jpeg|svg|gif|webp|css|js)$/`. */
  const StaticExtensions: seq<string> := ["png", "jpg", "jpeg", "svg", "gif", "webp", "css", "js"]

  const SyncTag: string := "sync-forms"
  const SyncPath: string := "/api/request-form"

  // ---------------------------------------------------------------------------
  // Routing
  // ---------------------------------------------------------------------------

  datatype Strategy = PassThrough | NetworkFirst | CacheFirst

  /** The asset pattern: the path ends with a dot and one of the extensions. */
  predicate IsStaticAsset(pathname: string) {
    exists ext :: ext in StaticExtensions && EndsWith(pathname, "." + ext)
  }

  /** The fetch handler's decision: cross-origin requests are not answered, `/api/` goes to the network first, assets to the cache first, the rest to the network first. */
  function Route(origin: string, req: Request): (s: Strategy)
    ensures s == PassThrough <==> req.url.origin != origin
    ensures s == CacheFirst <==>
      req.url.origin == origin && !StartsWith(req.url.pathname, "/api/") && IsStaticAsset(req.url.pathname)
    ensures s == NetworkFirst <==>
      req.url.origin == origin && (StartsWith(req.url.pathname, "/api/") || !IsStaticAsset(req.url.pathname))
  {
    if req.url.origin != origin then PassThrough
    else if StartsWith(req.url.pathname, "/api/") then NetworkFirst
    else if IsStaticAsset(req.url.pathname) then CacheFirst
    else NetworkFirst
  }

  /** Index of the last `.` in `s`, if any. */
  function LastDot(s: string): (r: Option<nat>)
    ensures r.Some? ==> r.value < |s| && s[r.value] == '.' && '.' !in s[r.value + 1..]
    ensures r.None? ==> '.' !in s
  {
    if s == [] then None
    else if s[|s| - 1] == '.' then Some(|s| - 1)
    else
      var r := LastDot(s[..|s| - 1]);
      assert s == s[..|s| - 1] + [s[|s| - 1]];
      if r.Some? then
        assert s[r.value + 1..] == s[..|s| - 1][r.value + 1..] + [s[|s| - 1]];
        r
      else r
  }

  /** A path that ends with `.` and a dot-free extension has that extension after its last dot. */
  lemma ExtensionAfterLastDot(pathname: string, ext: string)
    requires '.' !in ext && EndsWith(pathname, "." + ext)
    ensures LastDot(pathname).Some? && pathname[LastDot(pathname).value + 1..] == ext
  {
    var p := |pathname| - |ext| - 1;
    assert pathname[p..] == "." + ext;
    assert pathname[p + 1..] == ext;
    assert pathname[p] == '.';
  }

  /** The text after the last dot, with that dot, ends the path. */
  lemma LastDotExtension(pathname: string)
    requires LastDot(pathname).Some?
    ensures EndsWith(pathname, "." + pathname[LastDot(pathname).value + 1..])
  {
    var d := LastDot(pathname).value;
    assert pathname[d..] == "." + pathname[d + 1..];
  }

  /** A path ends with `.` and a dot-free extension exactly when that extension follows its last dot. */
  lemma EndsWithExtension(pathname: string, ext: string)
    requires '.' !in ext
    ensures EndsWith(pathname, "." + ext) <==>
      LastDot(pathname).Some? && pathname[LastDot(pathname).value + 1..] == ext
  {
    if EndsWith(pathname, "." + ext) {
      ExtensionAfterLastDot(pathname, ext);
    }
    if LastDot(pathname).Some? {
      LastDotExtension(pathname);
    }
  }

  lemma ExtensionsHaveNoDot(ext: string)
    requires ext in StaticExtensions
    ensures '.' !in ext
  {
  }

  /** The asset pattern read the other way: the text after the last dot is one of the extensions. */
  lemma IsStaticAssetByExtension(pathname: string)
    ensures IsStaticAsset(pathname) <==>
      LastDot(pathname).Some? && pathname[LastDot(pathname).value + 1..] in StaticExtensions
  {
    if IsStaticAsset(pathname) {
      var ext :| ext in StaticExtensions && EndsWith(pathname, "." + ext);
      ExtensionsHaveNoDot(ext);
      EndsWithExtension(pathname, ext);
    }
    var d := LastDot(pathname);
    if d.Some? && pathname[d.value + 1..] in StaticExtensions {
      var ext := pathname[d.value + 1..];
      ExtensionsHaveNoDot(ext);
      EndsWithExtension(pathname, ext);
    }
  }

  /** `/api/` wins over the asset pattern: an API path is never served cache-first, whatever its extension. */
  lemma ApiIsNetworkFirst(origin: string, req: Request)
    requires req.url.origin == origin && StartsWith(req.url.pathname, "/api/")
    ensures Route(origin, req) == NetworkFirst
  {
  }

  // ---------------------------------------------------------------------------
  // Cache storage, as values
  // ---------------------------------------------------------------------------

  /** One cache: responses by request URL. */
  type Entries = map<Url, Response>

  predicate Holds(caches: map<string, Entries>, name: string, url: Url) {
    name in caches && url in caches[name]
  }

  /** `caches.match` over the caches in `names`, in that order: the first cache that holds the URL answers. */
  function MatchIn(names: seq<string>, caches: map<string, Entries>, url: Url): Option<Response> {
    if names == [] then None
    else if Holds(caches, names[0], url) then Some(caches[names[0]][url])
    else MatchIn(names[1..], caches, url)
  }

  /** `caches.match(request)`: only GET requests match. */
  function Lookup(names: seq<string>, caches: map<string, Entries>, req: Request): Option<Response> {
    if req.httpMethod == "GET" then MatchIn(names, caches, req.url) else None
  }

  lemma {:induction false} MatchInNone(names: seq<string>, caches: map<string, Entries>, url: Url)
    ensures MatchIn(names, caches, url).None? <==> forall i :: 0 <= i < |names| ==> !Holds(caches, names[i], url)
  {
    if names != [] {
      MatchInNone(names[1..], caches, url);
      assert forall i :: 1 <= i < |names| ==> names[i] == names[1..][i - 1];
    }
  }

  /** The cache that answers is the first one in `names` that holds the URL. */
  lemma {:induction false} MatchInFirst(names: seq<string>, caches: map<string, Entries>, url: Url, i: nat)
    requires i < |names| && Holds(caches, names[i], url)
    requires forall j :: 0 <= j < i ==> !Holds(caches, names[j], url)
    ensures MatchIn(names, caches, url) == Some(caches[names[i]][url])
  {
    if i > 0 {
      MatchInFirst(names[1..], caches, url, i - 1);
    }
  }

  /** `caches.open(name)`: the list of names after it; a new cache goes last. */
  function Opened(names: seq<string>, name: string): (r: seq<string>)
    ensures name in r
  {
    if name in names then names else names + [name]
  }

  function OpenedCaches(caches: map<string, Entries>, name: string): (r: map<string, Entries>)
    ensures name in r
  {
    if name in caches then caches else caches[name := map[]]
  }

  /** `cache.put` stores only GET requests, and never a partial (206) response. */
  predicate Storable(req: Request, resp: Response) {
    req.httpMethod == "GET" && resp.status != 206
  }

  /** `cache.put(request, response)` on the cache `name`; a put that rejects stores nothing. */
  function PutInto(caches: map<string, Entries>, name: string, req: Request, resp: Response): map<string, Entries>
    requires name in caches
  {
    if Storable(req, resp) then caches[name := caches[name][req.url := resp]] else caches
  }

  /** A response just stored answers the next `caches.match` of its request, unless an older cache holds the same URL. */
  lemma PutThenLookup(names: seq<string>, caches: map<string, Entries>, i: nat, req: Request, resp: Response)
    requires i < |names| && names[i] in caches && Storable(req, resp)
    requires forall j :: 0 <= j < i ==> names[j] != names[i] && !Holds(caches, names[j], req.url)
    ensures Lookup(names, PutInto(caches, names[i], req, resp), req) == Some(resp)
  {
    var after := PutInto(caches, names[i], req, resp);
    assert forall j :: 0 <= j < i ==> !Holds(after, names[j], req.url);
    MatchInFirst(names, after, req.url, i);
  }

  /** A request that is not GET is never stored and never matched. */
  lemma NonGetIsNeverCached(names: seq<string>, caches: map<string, Entries>, name: string, req: Request, resp: Response)
    requires name in caches && req.httpMethod != "GET"
    ensures PutInto(caches, name, req, resp) == caches
    ensures Lookup(names, caches, req) == None
  {
  }

  // ---------------------------------------------------------------------------
  // The strategies, as values
  // ---------------------------------------------------------------------------

  /** The answer of `networkFirst`, given the cache state before it and the network's outcome. */
  function NetworkFirstAnswer(names: seq<string>, caches: map<string, Entries>, req: Request, out: FetchOutcome): Response {
    if out.Responded? && out.response.Ok() then out.response
    else match Lookup(names, caches, req)
      case Some(cached) => cached
      case None => Offline
  }

  /** The answer of `cacheFirst`, given the cache state before it and the network's outcome. */
  function CacheFirstAnswer(names: seq<string>, caches: map<string, Entries>, req: Request, out: FetchOutcome): Response {
    match Lookup(names, caches, req)
    case Some(cached) => cached
    case None => if out.Responded? && out.response.Ok() then out.response else Offline
  }

  /** A network-first answer is a successful network response, else a cached copy, else the 503 fallback; an error status from the network is never passed on. */
  lemma NetworkFirstAnswerSpec(names: seq<string>, caches: map<string, Entries>, req: Request, out: FetchOutcome)
    ensures var r := NetworkFirstAnswer(names, caches, req, out);
      (out.Responded? && out.response.Ok() ==> r == out.response)
      && (!(out.Responded? && out.response.Ok()) ==>
            (Lookup(names, caches, req).Some? ==> r == Lookup(names, caches, req).value)
            && (Lookup(names, caches, req).None? ==> r == Offline))
      && (r.Ok() || r == Offline || Lookup(names, caches, req) == Some(r))
  {
  }

  /** When both the network fails and nothing is cached, the two strategies agree on the 503 fallback. */
  lemma StrategiesAgreeOffline(names: seq<string>, caches: map<string, Entries>, req: Request, out: FetchOutcome)
    requires Lookup(names, caches, req).None? && !(out.Responded? && out.response.Ok())
    ensures NetworkFirstAnswer(names, caches, req, out) == CacheFirstAnswer(names, caches, req, out) == Offline
  {
  }

  // ---------------------------------------------------------------------------
  // Install: cache.addAll, all or nothing
  // ---------------------------------------------------------------------------

  /** A response `addAll` accepts: an ok status other than 206. */
  predicate Cacheable(out: FetchOutcome) {
    out.Responded? && out.response.Ok() && out.response.status != 206
  }

  predicate AllCacheable(outs: seq<FetchOutcome>) {
    forall i :: 0 <= i < |outs| ==> Cacheable(outs[i])
  }

  function StaticRequests(origin: string): (reqs: seq<Request>)
    ensures |reqs| == |StaticFiles|
  {
    seq(|StaticFiles|, i requires 0 <= i < |StaticFiles| => Request("GET", Url(origin, StaticFiles[i], "")))
  }

  function Outcomes(reqs: seq<Request>, network: Request -> FetchOutcome): (outs: seq<FetchOutcome>)
    ensures |outs| == |reqs|
  {
    seq(|reqs|, i requires 0 <= i < |reqs| => network(reqs[i]))
  }

  /** Store every response under its request's URL, in order. */
  function StoreAll(entries: Entries, reqs: seq<Request>, outs: seq<FetchOutcome>): Entries
    requires |reqs| == |outs| && AllCacheable(outs)
    decreases |reqs|
  {
    if reqs == [] then entries
    else StoreAll(entries[reqs[0].url := outs[0].response], reqs[1..], outs[1..])
  }

  /** `cache.addAll(requests)`: every response stored when all are acceptable, otherwise the cache as it was. */
  function AddAll(entries: Entries, reqs: seq<Request>, outs: seq<FetchOutcome>): Entries
    requires |reqs| == |outs|
  {
    if AllCacheable(outs) then StoreAll(entries, reqs, outs) else entries
  }

  predicate DistinctUrls(reqs: seq<Request>) {
    forall i, j :: 0 <= i < j < |reqs| ==> reqs[i].url != reqs[j].url
  }

  lemma {:induction false} StoreAllSpec(entries: Entries, reqs: seq<Request>, outs: seq<FetchOutcome>)
    requires |reqs| == |outs| && AllCacheable(outs) && DistinctUrls(reqs)
    decreases |reqs|
    ensures forall i :: 0 <= i < |reqs| ==>
      (reqs[i].url in StoreAll(entries, reqs, outs) && StoreAll(entries, reqs, outs)[reqs[i].url] == outs[i].response)
    ensures forall u :: (forall i :: 0 <= i < |reqs| ==> reqs[i].url != u) ==>
      (u in StoreAll(entries, reqs, outs) <==> u in entries)
      && (u in entries ==> StoreAll(entries, reqs, outs)[u] == entries[u])
  {
    if reqs != [] {
      StoreAllSpec(entries[reqs[0].url := outs[0].response], reqs[1..], outs[1..]);
      forall i | 1 <= i < |reqs|
        ensures reqs[i] == reqs[1..][i - 1] && outs[i] == outs[1..][i - 1]
      {
      }
    }
  }

  /** Either every request's response is stored, or nothing in the cache changes. */
  lemma AddAllAtomic(entries: Entries, reqs: seq<Request>, outs: seq<FetchOutcome>)
    requires |reqs| == |outs| && DistinctUrls(reqs)
    ensures AllCacheable(outs) ==> forall i :: 0 <= i < |reqs| ==>
      reqs[i].url in AddAll(entries, reqs, outs) && AddAll(entries, reqs, outs)[reqs[i].url] == outs[i].response
    ensures !AllCacheable(outs) ==> AddAll(entries, reqs, outs) == entries
    ensures forall u :: (forall i :: 0 <= i < |reqs| ==> reqs[i].url != u) ==>
      (u in AddAll(entries, reqs, outs) <==> u in entries)
  {
    if AllCacheable(outs) {
      StoreAllSpec(entries, reqs, outs);
    }
  }

  lemma StaticRequestsDistinct(origin: string)
    ensures DistinctUrls(StaticRequests(origin))
  {
    var reqs := StaticRequests(origin);
    assert reqs[0].url.pathname == "/" && reqs[1].url.pathname == "/index.html" && reqs[2].url.pathname == "/manifest.json";
  }

  // ---------------------------------------------------------------------------
  // Activate: delete the caches of older versions
  // ---------------------------------------------------------------------------

  /** A cache the activate handler deletes: one of this site's, but not a current one. */
  predicate Stale(name: string) {
    name != StaticCache && name != RuntimeCache && name != ApiCache && StartsWith(name, CachePrefix)
  }

  /** The names that survive activation, in their order. */
  function Surviving(names: seq<string>): seq<string> {
    if names == [] then []
    else Surviving(names[..|names| - 1]) + (if Stale(names[|names| - 1]) then [] else [names[|names| - 1]])
  }

  /** The names with every copy of `name` taken out: `caches.delete(name)` on the list of names. */
  function Without(names: seq<string>, name: string): (r: seq<string>)
    ensures name !in r
  {
    if names == [] then []
    else (if names[0] == name then [] else [names[0]]) + Without(names[1..], name)
  }

  lemma {:induction false} SurvivingSpec(names: seq<string>)
    ensures forall x :: x in Surviving(names) <==> x in names && !Stale(x)
  {
    if names != [] {
      SurvivingSpec(names[..|names| - 1]);
      assert names == names[..|names| - 1] + [names[|names| - 1]];
    }
  }

  lemma {:induction false} SurvivingNoStale(names: seq<string>)
    requires forall i :: 0 <= i < |names| ==> !Stale(names[i])
    ensures Surviving(names) == names
  {
    if names != [] {
      SurvivingNoStale(names[..|names| - 1]);
      assert names[..|names| - 1] + [names[|names| - 1]] == names;
    }
  }

  /** Activation keeps the current caches and every cache that is not this site's, and a second activation deletes nothing more. */
  lemma SurvivingKeepsCurrent(names: seq<string>)
    ensures forall x ::
      (x in names && (x == StaticCache || x == RuntimeCache || x == ApiCache || !StartsWith(x, CachePrefix)))
      ==> x in Surviving(names)
    ensures Surviving(Surviving(names)) == Surviving(names)
  {
    SurvivingSpec(names);
    var s := Surviving(names);
    assert forall i :: 0 <= i < |s| ==> s[i] in s;
    SurvivingNoStale(s);
  }

  lemma {:induction false} WithoutAbsent(names: seq<string>, name: string)
    requires name !in names
    ensures Without(names, name) == names
  {
    if names != [] {
      WithoutAbsent(names[1..], name);
    }
  }

  predicate Distinct(names: seq<string>) {
    forall i, j :: 0 <= i < j < |names| ==> names[i] != names[j]
  }

  /** Taking one name out of a list without repeats leaves a list without repeats that lacks only that name. */
  lemma DistinctRemove(names: seq<string>, i: nat)
    requires Distinct(names) && i < |names|
    ensures names == names[..i] + [names[i]] + names[i + 1..]
    ensures names[i] !in names[..i] && names[i] !in names[i + 1..]
    ensures Distinct(names[..i] + names[i + 1..])
    ensures forall n :: n in names <==> n in names[..i] + names[i + 1..] || n == names[i]
  {
    var r := names[..i] + names[i + 1..];
    assert forall j :: 0 <= j < |r| ==> r[j] == names[if j < i then j else j + 1];
  }

  /** The stale names among `names`: the caches activation deletes. */
  function StaleIn(names: seq<string>): set<string> {
    set n | n in names && Stale(n)
  }

  /** Visiting one more name adds it to the survivors unless it is stale. */
  lemma SurvivingStep(names: seq<string>, i: nat)
    requires i < |names|
    ensures Surviving(names[..i + 1]) == Surviving(names[..i]) + (if Stale(names[i]) then [] else [names[i]])
  {
    assert names[..i + 1][..i] == names[..i];
  }

  /** Deleting a stale name in the middle of the activate loop removes just that name. */
  lemma ActivateStepRemoves(names: seq<string>, i: nat)
    requires Distinct(names) && i < |names| && Stale(names[i])
    ensures Without(Surviving(names[..i]) + names[i..], names[i]) == Surviving(names[..i]) + names[i + 1..]
  {
    var name := names[i];
    DistinctRemove(names, i);
    assert name !in names[..i];
    SurvivingSpec(names[..i]);
    assert names[i..] == [name] + names[i + 1..];
    assert Surviving(names[..i]) + names[i..] == Surviving(names[..i]) + [name] + names[i + 1..];
    WithoutOnce(Surviving(names[..i]), name, names[i + 1..]);
  }

  lemma RemoveOneMore(m: map<string, Entries>, done: set<string>, name: string)
    ensures m - done - {name} == m - (done + {name})
  {
  }

  /** A name that is not stale stays where it is. */
  lemma ActivateKeep(names: seq<string>, i: nat)
    requires i < |names| && !Stale(names[i])
    ensures Surviving(names[..i]) + names[i..] == Surviving(names[..i + 1]) + names[i + 1..]
  {
    var kept := Surviving(names[..i]);
    SurvivingStep(names, i);
    assert names[i..] == [names[i]] + names[i + 1..];
    assert kept + names[i..] == kept + [names[i]] + names[i + 1..];
  }

  /** A stale name is deleted, and the survivors so far stay the same. */
  lemma ActivateDrop(names: seq<string>, i: nat)
    requires Distinct(names) && i < |names| && Stale(names[i])
    ensures Without(Surviving(names[..i]) + names[i..], names[i]) == Surviving(names[..i + 1]) + names[i + 1..]
  {
    SurvivingStep(names, i);
    ActivateStepRemoves(names, i);
    assert Surviving(names[..i]) + [] == Surviving(names[..i]);
  }

  lemma ActivateStepState(names: seq<string>, i: nat, before: seq<string>, after: seq<string>)
    requires Distinct(names) && i < |names|
    requires before == Surviving(names[..i]) + names[i..]
    requires after == if Stale(names[i]) then Without(before, names[i]) else before
    ensures after == Surviving(names[..i + 1]) + names[i + 1..]
  {
    if Stale(names[i]) {
      ActivateDrop(names, i);
    } else {
      ActivateKeep(names, i);
    }
  }

  lemma ActivateStepCaches(names: seq<string>, i: nat, start: map<string, Entries>, before: map<string, Entries>, after: map<string, Entries>)
    requires i < |names|
    requires before == start - StaleIn(names[..i])
    requires after == if Stale(names[i]) then before - {names[i]} else before
    ensures after == start - StaleIn(names[..i + 1])
  {
    assert names[..i + 1] == names[..i] + [names[i]];
    assert StaleIn(names[..i + 1]) == StaleIn(names[..i]) + (if Stale(names[i]) then {names[i]} else {});
    RemoveOneMore(start, StaleIn(names[..i]), names[i]);
  }

  lemma WithoutHead(name: string, b: seq<string>)
    ensures Without([name] + b, name) == Without(b, name)
  {
    assert ([name] + b)[1..] == b;
  }

  lemma WithoutOnce(a: seq<string>, name: string, b: seq<string>)
    requires name !in a && name !in b
    ensures Without(a + [name] + b, name) == a + b
  {
    var nb := [name] + b;
    assert a + [name] + b == a + nb;
    WithoutAppend(a, nb, name);
    WithoutAbsent(a, name);
    WithoutHead(name, b);
    WithoutAbsent(b, name);
  }

  lemma {:induction false} WithoutAppend(a: seq<string>, b: seq<string>, name: string)
    ensures Without(a + b, name) == Without(a, name) + Without(b, name)
  {
    if a == [] {
      assert a + b == b;
    } else {
      assert (a + b)[1..] == a[1..] + b;
      WithoutAppend(a[1..], b, name);
    }
  }

  // ---------------------------------------------------------------------------
  // Background sync
  // ---------------------------------------------------------------------------

  /** The records a sync leaves behind: those whose replay did not reach the server. Any response, even an error status, deletes. */
  function Kept<D>(records: map<string, PendingRecord<D>>, replay: PendingRecord<D> -> FetchOutcome): map<string, PendingRecord<D>> {
    map k | k in records && replay(records[k]).NetworkError? :: records[k]
  }

  /** The ids of the records in `done` whose replay got a response. */
  function Delivered<D>(done: seq<PendingRecord<D>>, replay: PendingRecord<D> -> FetchOutcome): set<string> {
    set i | 0 <= i < |done| && replay(done[i]).Responded? :: done[i].id
  }

  lemma SyncStep<D>(start: map<string, PendingRecord<D>>, pending: seq<PendingRecord<D>>, i: nat,
                    replay: PendingRecord<D> -> FetchOutcome, before: map<string, PendingRecord<D>>,
                    after: map<string, PendingRecord<D>>)
    requires i < |pending|
    requires before == start - Delivered(pending[..i], replay)
    requires after == if replay(pending[i]).Responded? then before - {pending[i].id} else before
    ensures after == start - Delivered(pending[..i + 1], replay)
  {
    var done, next := pending[..i], pending[..i + 1];
    assert next == done + [pending[i]];
    assert Delivered(next, replay) ==
      Delivered(done, replay) + (if replay(pending[i]).Responded? then {pending[i].id} else {}) by {
      forall x | x in Delivered(next, replay)
        ensures x in Delivered(done, replay) || (replay(pending[i]).Responded? && x == pending[i].id)
      {
        var j :| 0 <= j < |next| && replay(next[j]).Responded? && next[j].id == x;
        if j < i {
          assert next[j] == done[j];
        }
      }
      forall x | x in Delivered(done, replay)
        ensures x in Delivered(next, replay)
      {
        var j :| 0 <= j < |done| && replay(done[j]).Responded? && done[j].id == x;
        assert next[j] == done[j];
      }
      if replay(pending[i]).Responded? {
        assert next[i] == pending[i];
      }
    }
  }

  /** After the loop has visited every stored record, what is left is `Kept`. */
  lemma SyncDone<D>(start: map<string, PendingRecord<D>>, pending: seq<PendingRecord<D>>,
                    replay: PendingRecord<D> -> FetchOutcome)
    requires forall k :: k in start ==> start[k].id == k
    requires forall r :: r in pending <==> r.id in start && start[r.id] == r
    ensures start - Delivered(pending[..|pending|], replay) == Kept(start, replay)
  {
    assert pending[..|pending|] == pending;
    forall k | k in start
      ensures k in Delivered(pending, replay) <==> replay(start[k]).Responded?
    {
      var r := start[k];
      if replay(r).Responded? {
        assert r in pending;
        var j :| 0 <= j < |pending| && pending[j] == r;
      }
      if k in Delivered(pending, replay) {
        var j :| 0 <= j < |pending| && replay(pending[j]).Responded? && pending[j].id == k;
        assert pending[j] in pending;
      }
    }
  }

  function SyncRequest(origin: string): Request {
    Request("POST", Url(origin, SyncPath, ""))
  }

  /** The requests a sync of `n` records sends: `n` POSTs to the sync path. */
  function SyncRequests(origin: string, n: nat): seq<Request> {
    if n == 0 then [] else SyncRequests(origin, n - 1) + [SyncRequest(origin)]
  }

  /** One more replay appends one more sync request to the log. */
  lemma SyncRequestsStep(origin: string, log: seq<Request>, i: nat)
    ensures log + SyncRequests(origin, i) + [SyncRequest(origin)] == log + SyncRequests(origin, i + 1)
  {
  }

  // ---------------------------------------------------------------------------
  // The worker
  // ---------------------------------------------------------------------------

  /** The worker's global state: the origin it serves and the `CacheStorage` it updates, plus the log of requests it sent. */
  class Worker {
    const origin: string
    /** Cache names in creation order, the order `caches.keys()` and `caches.match` use. */
    var cacheNames: seq<string>
    var caches: map<string, Entries>
    /** Every request passed to `fetch`, in order. */
    var sent: seq<Request>

    ghost predicate Valid()
      reads this
    {
      Distinct(cacheNames) && (forall n :: n in caches <==> n in cacheNames)
    }

    constructor (origin: string)
      ensures Valid() && this.origin == origin && cacheNames == [] && caches == map[] && sent == []
    {
      this.origin := origin;
      cacheNames := [];
      caches := map[];
      sent := [];
    }

    /** `caches.match(request)` on the current state. */
    function Match(req: Request): Option<Response>
      reads this
    {
      Lookup(cacheNames, caches, req)
    }

    /** `caches.open(name)`. */
    method OpenCache(name: string)
      requires Valid()
      modifies this
      ensures Valid() && sent == old(sent)
      ensures cacheNames == Opened(old(cacheNames), name) && caches == OpenedCaches(old(caches), name)
    {
      if name !in caches {
        cacheNames := cacheNames + [name];
        caches := caches[name := map[]];
      }
    }

    /** `cache.put(request, response)` on the open cache `name`. */
    method Put(name: string, req: Request, resp: Response)
      requires Valid() && name in caches
      modifies this
      ensures Valid() && sent == old(sent) && cacheNames == old(cacheNames)
      ensures caches == PutInto(old(caches), name, req, resp)
    {
      if Storable(req, resp) {
        caches := caches[name := caches[name][req.url := resp]];
      }
    }

    /** `caches.delete(name)`. */
    method DeleteCache(name: string)
      requires Valid()
      modifies this
      ensures Valid() && sent == old(sent)
      ensures cacheNames == Without(old(cacheNames), name) && caches == old(caches) - {name}
    {
      if name in caches {
        var i :| 0 <= i < |cacheNames| && cacheNames[i] == name;
        var a, b := cacheNames[..i], cacheNames[i + 1..];
        DistinctRemove(cacheNames, i);
        WithoutOnce(a, name, b);
        cacheNames := a + b;
        caches := caches - {name};
      } else {
        WithoutAbsent(cacheNames, name);
      }
    }

    /** `fetch(request)`: asks the network and logs the request. */
    method Fetch(req: Request, network: Request -> FetchOutcome) returns (out: FetchOutcome)
      modifies this
      ensures out == network(req) && sent == old(sent) + [req]
      ensures cacheNames == old(cacheNames) && caches == old(caches)
    {
      out := network(req);
      sent := sent + [req];
    }

    /** `networkFirst(request)`: a successful response is put in the runtime cache and returned; otherwise the cached copy or the 503 fallback. */
    method NetworkFirst(req: Request, network: Request -> FetchOutcome) returns (resp: Response)
      requires Valid()
      modifies this
      ensures Valid() && sent == old(sent) + [req]
      ensures resp == NetworkFirstAnswer(old(cacheNames), old(caches), req, network(req))
      ensures var out := network(req);
        if out.Responded? && out.response.Ok() then
          cacheNames == Opened(old(cacheNames), RuntimeCache)
          && caches == PutInto(OpenedCaches(old(caches), RuntimeCache), RuntimeCache, req, out.response)
        else
          cacheNames == old(cacheNames) && caches == old(caches)
    {
      var out := Fetch(req, network);
      if out.Responded? && out.response.Ok() {
        OpenCache(RuntimeCache);
        Put(RuntimeCache, req, out.response);
        resp := out.response;
      } else {
        var cached := Match(req);
        if cached.Some? {
          resp := cached.value;
        } else {
          resp := Offline;
        }
      }
    }

    /** `cacheFirst(request)`: a cached copy is returned without touching the network; otherwise a successful response is put in the static cache. */
    method CacheFirst(req: Request, network: Request -> FetchOutcome) returns (resp: Response)
      requires Valid()
      modifies this
      ensures Valid()
      ensures resp == CacheFirstAnswer(old(cacheNames), old(caches), req, network(req))
      ensures old(Match(req)).Some? ==> sent == old(sent) && cacheNames == old(cacheNames) && caches == old(caches)
      ensures old(Match(req)).None? ==> sent == old(sent) + [req]
      ensures var out := network(req);
        if old(Match(req)).None? && out.Responded? && out.response.Ok() then
          cacheNames == Opened(old(cacheNames), StaticCache)
          && caches == PutInto(OpenedCaches(old(caches), StaticCache), StaticCache, req, out.response)
        else
          cacheNames == old(cacheNames) && caches == old(caches)
    {
      var cached := Match(req);
      if cached.Some? {
        resp := cached.value;
        return;
      }
      var out := Fetch(req, network);
      if out.Responded? && out.response.Ok() {
        OpenCache(StaticCache);
        Put(StaticCache, req, out.response);
        resp := out.response;
      } else {
        resp := Offline;
      }
    }

    /** The `fetch` event: `None` when the handler does not call `respondWith`. */
    method HandleFetch(req: Request, network: Request -> FetchOutcome) returns (answer: Option<Response>)
      requires Valid()
      modifies this
      ensures Valid()
      ensures answer.None? <==> req.url.origin != origin
      ensures answer.None? ==> sent == old(sent) && cacheNames == old(cacheNames) && caches == old(caches)
      ensures Route(origin, req) == Strategy.NetworkFirst ==>
        answer == Some(NetworkFirstAnswer(old(cacheNames), old(caches), req, network(req)))
        && sent == old(sent) + [req]
        && var out := network(req);
        if out.Responded? && out.response.Ok() then
          cacheNames == Opened(old(cacheNames), RuntimeCache)
          && caches == PutInto(OpenedCaches(old(caches), RuntimeCache), RuntimeCache, req, out.response)
        else
          cacheNames == old(cacheNames) && caches == old(caches)
      ensures Route(origin, req) == Strategy.CacheFirst ==>
        answer == Some(CacheFirstAnswer(old(cacheNames), old(caches), req, network(req)))
        && var out := network(req);
        var miss := Lookup(old(cacheNames), old(caches), req).None?;
        (sent == if miss then old(sent) + [req] else old(sent))
        && if miss && out.Responded? && out.response.Ok() then
          cacheNames == Opened(old(cacheNames), StaticCache)
          && caches == PutInto(OpenedCaches(old(caches), StaticCache), StaticCache, req, out.response)
        else
          cacheNames == old(cacheNames) && caches == old(caches)
    {
      match Route(origin, req)
      case PassThrough =>
        answer := None;
      case NetworkFirst =>
        var resp := NetworkFirst(req, network);
        answer := Some(resp);
      case CacheFirst =>
        var resp := CacheFirst(req, network);
        answer := Some(resp);
    }

    /** The `install` event: open the static cache and `addAll` the static files; a failed `addAll` is swallowed. */
    method Install(network: Request -> FetchOutcome)
      requires Valid()
      modifies this
      ensures Valid()
      ensures sent == old(sent) + StaticRequests(origin)
      ensures cacheNames == Opened(old(cacheNames), StaticCache)
      ensures var ready := OpenedCaches(old(caches), StaticCache);
        caches == ready[StaticCache := AddAll(ready[StaticCache], StaticRequests(origin), Outcomes(StaticRequests(origin), network))]
    {
      OpenCache(StaticCache);
      var reqs := StaticRequests(origin);
      var outs: seq<FetchOutcome> := [];
      var i := 0;
      while i < |reqs|
        invariant 0 <= i <= |reqs|
        invariant Valid() && StaticCache in caches
        invariant cacheNames == Opened(old(cacheNames), StaticCache) && caches == OpenedCaches(old(caches), StaticCache)
        invariant sent == old(sent) + reqs[..i]
        invariant outs == Outcomes(reqs[..i], network)
      {
        var out := Fetch(reqs[i], network);
        assert reqs[..i + 1] == reqs[..i] + [reqs[i]];
        outs := outs + [out];
        i := i + 1;
      }
      assert reqs[..i] == reqs;
      caches := caches[StaticCache := AddAll(caches[StaticCache], reqs, outs)];
    }

    /** The callback the activate handler maps over the cache names. */
    method DeleteIfStale(name: string)
      requires Valid()
      modifies this
      ensures Valid() && sent == old(sent)
      ensures Stale(name) ==> cacheNames == Without(old(cacheNames), name) && caches == old(caches) - {name}
      ensures !Stale(name) ==> cacheNames == old(cacheNames) && caches == old(caches)
    {
      if Stale(name) {
        DeleteCache(name);
      }
    }

    /** The `activate` event: delete every cache whose name is stale. */
    method Activate()
      requires Valid()
      modifies this
      ensures Valid() && sent == old(sent)
      ensures cacheNames == Surviving(old(cacheNames))
      ensures caches == old(caches) - StaleIn(old(cacheNames))
    {
      var names := cacheNames;
      var i := 0;
      assert names[..0] == [] && names[0..] == names;
      assert old(caches) - StaleIn([]) == old(caches);
      while i < |names|
        invariant 0 <= i <= |names| && names == old(cacheNames)
        invariant Valid() && sent == old(sent)
        invariant cacheNames == Surviving(names[..i]) + names[i..]
        invariant caches == old(caches) - StaleIn(names[..i])
      {
        ghost var before, entries := cacheNames, caches;
        DeleteIfStale(names[i]);
        ActivateStepState(names, i, before, cacheNames);
        ActivateStepCaches(names, i, old(caches), entries, caches);
        i := i + 1;
      }
      assert names[..i] == names && names[i..] == [];
    }

    /** One turn of the sync loop: post the record's data, and delete the record when the server answers at all. */
    method ReplaySubmission<D>(db: Database<D>, rec: PendingRecord<D>, replay: PendingRecord<D> -> FetchOutcome)
      requires Valid() && db.Valid() && db.hasStore
      modifies this, db
      ensures Valid() && db.Valid() && db.created == old(db.created) && db.hasStore
      ensures cacheNames == old(cacheNames) && caches == old(caches)
      ensures sent == old(sent) + [SyncRequest(origin)]
      ensures db.records == if replay(rec).Responded? then old(db.records) - {rec.id} else old(db.records)
    {
      var out := Fetch(SyncRequest(origin), _ => replay(rec));
      if out.Responded? {
        db.Delete(rec.id);
      }
    }

    /** The `for` loop of the sync: replay each record in turn, deleting the ones the server answered. */
    method ReplayAll<D>(db: Database<D>, pending: seq<PendingRecord<D>>, replay: PendingRecord<D> -> FetchOutcome)
      requires Valid() && db.Valid() && db.hasStore
      modifies this, db
      ensures Valid() && db.Valid() && db.created == old(db.created) && db.hasStore
      ensures cacheNames == old(cacheNames) && caches == old(caches)
      ensures db.records == old(db.records) - Delivered(pending, replay)
      ensures sent == old(sent) + SyncRequests(origin, |pending|)
    {
      var i := 0;
      assert pending[..0] == [];
      while i < |pending|
        invariant 0 <= i <= |pending|
        invariant Valid() && cacheNames == old(cacheNames) && caches == old(caches)
        invariant db.Valid() && db.created == old(db.created) && db.hasStore
        invariant db.records == old(db.records) - Delivered(pending[..i], replay)
        invariant sent == old(sent) + SyncRequests(origin, i)
      {
        ghost var before := db.records;
        ReplaySubmission(db, pending[i], replay);
        SyncStep(old(db.records), pending, i, replay, before, db.records);
        SyncRequestsStep(origin, old(sent), i);
        i := i + 1;
      }
      assert pending[..i] == pending;
    }

    /** `syncFormSubmissions`: replay every pending record and delete the ones the server answered. */
    method SyncFormSubmissions<D>(db: Database<D>, replay: PendingRecord<D> -> FetchOutcome)
      requires Valid() && db.Valid()
      modifies this, db
      ensures Valid() && db.Valid() && db.created && db.hasStore == old(db.hasStore)
      ensures cacheNames == old(cacheNames) && caches == old(caches)
      ensures db.records == Kept(old(db.records), replay)
      ensures sent == old(sent) + SyncRequests(origin, |old(db.records)|)
    {
      db.Open(false);
      if !db.hasStore {
        // The read transaction throws, the outer catch swallows it.
        assert old(sent) + SyncRequests(origin, 0) == old(sent);
        return;
      }
      var pending := db.GetAll();
      ghost var start := db.records;
      ReplayAll(db, pending, replay);
      SyncDone(start, pending, replay);
      assert pending[..|pending|] == pending;
    }

    /** The `sync` event: only the tag `sync-forms` starts a sync. */
    method HandleSync<D>(tag: string, db: Database<D>, replay: PendingRecord<D> -> FetchOutcome)
      requires Valid() && db.Valid()
      modifies this, db
      ensures Valid() && db.Valid()
      ensures cacheNames == old(cacheNames) && caches == old(caches)
      ensures tag == SyncTag ==>
        db.records == Kept(old(db.records), replay)
        && db.created && db.hasStore == old(db.hasStore)
        && sent == old(sent) + SyncRequests(origin, |old(db.records)|)
      ensures tag != SyncTag ==>
        db.records == old(db.records) && db.created == old(db.created) && db.hasStore == old(db.hasStore)
        && sent == old(sent)
    {
      if tag == SyncTag {
        SyncFormSubmissions(db, replay);
      }
    }
  }
}
