/**
 * The FieldHub service worker: which requests it intercepts and with which
 * strategy, the named cache partitions it keeps (pre-cached on install,
 * pruned on activate, filled by the strategies) and the window it focuses
 * or opens when a notification is clicked.
 *
 * Cache storage is a sequence of named partitions in creation order, each a
 * map from request URL to response; every network fetch is a parameter.
 */
module ServiceWorker {
  import opened Wrappers
  import opened Strings
  import OfflineQueue

  const CACHE_NAME := "fieldhub-v1"
  const STATIC_CACHE := "fieldhub-static-v1"
  const DYNAMIC_CACHE := "fieldhub-dynamic-v1"

  const STATIC_ASSETS: seq<string> := [
    "/?source=pwa",
    "/tech?source=pwa",
    "/offline",
    "/assets/css/app.css",
    "/assets/js/app.js",
    "/images/logo.svg",
    "/images/icon-192.png",
    "/images/icon-512.png",
    "/manifest.json"
  ]

  /** Path prefixes that always go to the network. */
  const API_ROUTES: seq<string> := ["/api/", "/live/", "/socket/"]

  // ---------------------------------------------------------------------------
  // Routing

  /** A request as the fetch handler sees it: its HTTP method (`verb`), parsed URL parts and the accept header. */
  datatype Request = Request(verb: string, url: string, protocol: string, pathname: string, accept: Option<string>)

  datatype Route = PassThrough | NetworkFirst | CacheFirst | StaleWhileRevalidate

  predicate IsApiPath(pathname: string) {
    exists k :: 0 <= k < |API_ROUTES| && StartsWith(pathname, API_ROUTES[k])
  }

  /** isStaticAsset: the asset directories and the static file extensions. */
  predicate IsStaticAsset(pathname: string) {
    || StartsWith(pathname, "/assets/")
    || StartsWith(pathname, "/images/")
    || EndsWith(pathname, ".css")
    || EndsWith(pathname, ".js")
    || EndsWith(pathname, ".png")
    || EndsWith(pathname, ".jpg")
    || EndsWith(pathname, ".svg")
    || EndsWith(pathname, ".woff2")
  }

  /** The accept header is present and mentions text/html. */
  predicate AcceptsHtml(r: Request) {
    r.accept.Some? && Contains(r.accept.value, "text/html")
  }

  /** Whether the worker takes the request over at all. */
  predicate Intercepted(r: Request) {
    r.verb == "GET" && !IsApiPath(r.pathname) && StartsWith(r.protocol, "http")
  }

  /**
   * The fetch handler's decision, first match wins: non-GET, API paths and
   * non-http protocols are left alone; pages go network-first, static
   * assets cache-first and everything else stale-while-revalidate.
   */
  function RouteFor(r: Request): (route: Route)
    ensures route == PassThrough <==> !Intercepted(r)
    ensures route == NetworkFirst <==> Intercepted(r) && AcceptsHtml(r)
    ensures route == CacheFirst <==> Intercepted(r) && !AcceptsHtml(r) && IsStaticAsset(r.pathname)
    ensures route == StaleWhileRevalidate <==> Intercepted(r) && !AcceptsHtml(r) && !IsStaticAsset(r.pathname)
  {
    if r.verb != "GET" then PassThrough
    else if exists k :: 0 <= k < |API_ROUTES| && StartsWith(r.pathname, API_ROUTES[k]) then PassThrough
    else if !StartsWith(r.protocol, "http") then PassThrough
    else if r.accept.Some? && Contains(r.accept.value, "text/html") then NetworkFirst
    else if IsStaticAsset(r.pathname) then CacheFirst
    else StaleWhileRevalidate
  }

  /** Every path under an API prefix reaches the network untouched, whatever its method. */
  lemma ApiPathsPassThrough(r: Request, k: nat, rest: string)
    requires k < |API_ROUTES| && r.pathname == API_ROUTES[k] + rest
    ensures RouteFor(r) == PassThrough
  {
    assert StartsWith(r.pathname, API_ROUTES[k]);
  }

  /** The offline queue's drain request (a POST to the sync endpoint) is never intercepted. */
  lemma DrainRequestPassesThrough(r: Request)
    requires r.pathname == OfflineQueue.SYNC_ENDPOINT
    ensures RouteFor(r) == PassThrough
  {
    assert r.pathname == API_ROUTES[0] + "tech/sync";
    ApiPathsPassThrough(r, 0, "tech/sync");
  }

  // ---------------------------------------------------------------------------
  // Responses and cache partitions

  datatype Body = Text(content: string) | OfflinePage

  datatype Response = Response(status: int, contentType: Option<string>, body: Body)

  predicate IsOkStatus(resp: Response) {
    200 <= resp.status <= 299
  }

  /**
   * A response the Cache API stores: `response.ok`, and not a 206 partial
   * response, which cache.put and cache.addAll reject.
   */
  predicate Cacheable(resp: Response) {
    IsOkStatus(resp) && resp.status != 206
  }

  datatype FetchOutcome = NetworkFailure | Fetched(response: Response)

  /** One named cache: request URL to stored response. */
  datatype Partition = Partition(name: string, entries: map<string, Response>)

  predicate HasName(cs: seq<Partition>, name: string) {
    exists i :: 0 <= i < |cs| && cs[i].name == name
  }

  /** Cache names are unique. */
  predicate DistinctNames(cs: seq<Partition>) {
    forall i, j :: 0 <= i < j < |cs| ==> cs[i].name != cs[j].name
  }

  /** caches.match: the entry of the first partition, in creation order, that holds the URL. */
  function Lookup(cs: seq<Partition>, key: string): Option<Response>
    decreases |cs|
  {
    if |cs| == 0 then None
    else if key in cs[0].entries then Some(cs[0].entries[key])
    else Lookup(cs[1..], key)
  }

  /** Lookup finds the URL exactly when some partition holds it, and answers with the first one's entry. */
  lemma {:induction false} LookupFirst(cs: seq<Partition>, key: string)
    ensures Lookup(cs, key).Some? <==> exists i :: 0 <= i < |cs| && key in cs[i].entries
    ensures Lookup(cs, key).Some? ==>
      exists i :: 0 <= i < |cs| && key in cs[i].entries && Lookup(cs, key).value == cs[i].entries[key]
                  && forall j :: 0 <= j < i ==> key !in cs[j].entries
    decreases |cs|
  {
    if |cs| > 0 && key !in cs[0].entries {
      LookupFirst(cs[1..], key);
      if exists i :: 0 <= i < |cs| && key in cs[i].entries {
        var i :| 0 <= i < |cs| && key in cs[i].entries;
        assert cs[1..][i - 1] == cs[i];
      }
      if Lookup(cs, key).Some? {
        var i :| 0 <= i < |cs[1..]| && key in cs[1..][i] .entries && Lookup(cs, key).value == cs[1..][i].entries[key]
                 && forall j :: 0 <= j < i ==> key !in cs[1..][j].entries;
        assert forall j :: 0 < j < i + 1 ==> cs[j] == cs[1..][j - 1];
      }
    }
  }

  /** caches.open: the partition with that name, created empty at the end when absent. */
  function Open(cs: seq<Partition>, name: string): (r: seq<Partition>)
    ensures HasName(r, name)
    ensures DistinctNames(cs) ==> DistinctNames(r)
    ensures forall k :: Lookup(r, k) == Lookup(cs, k)
  {
    if HasName(cs, name) then cs
    else
      LookupAppendEmpty(cs, name);
      assert (cs + [Partition(name, map[])])[|cs|].name == name;
      cs + [Partition(name, map[])]
  }

  lemma {:induction false} LookupAppendEmpty(cs: seq<Partition>, name: string)
    ensures forall k :: Lookup(cs + [Partition(name, map[])], k) == Lookup(cs, k)
    decreases |cs|
  {
    if |cs| > 0 {
      LookupAppendEmpty(cs[1..], name);
      assert (cs + [Partition(name, map[])])[1..] == cs[1..] + [Partition(name, map[])];
    }
  }

  /**
   * Stores `add` in the partition named `name` (cache.put stores one entry,
   * cache.addAll several); nothing else changes.
   */
  function MergeIn(cs: seq<Partition>, name: string, add: map<string, Response>): (r: seq<Partition>)
    ensures |r| == |cs|
    ensures forall i :: 0 <= i < |r| ==> r[i].name == cs[i].name
    ensures forall i :: 0 <= i < |r| && cs[i].name != name ==> r[i] == cs[i]
    ensures forall i :: 0 <= i < |r| && cs[i].name == name ==> r[i].entries == cs[i].entries + add
    decreases |cs|
  {
    if |cs| == 0 then []
    else
      var head := if cs[0].name == name then Partition(name, cs[0].entries + add) else cs[0];
      [head] + MergeIn(cs[1..], name, add)
  }

  /** After storing, every stored URL is found in the cache storage. */
  lemma {:induction false} MergeInFound(cs: seq<Partition>, name: string, add: map<string, Response>, key: string)
    requires HasName(cs, name) && key in add
    ensures Lookup(MergeIn(cs, name, add), key).Some?
  {
    var i :| 0 <= i < |cs| && cs[i].name == name;
    LookupFirst(MergeIn(cs, name, add), key);
    assert key in MergeIn(cs, name, add)[i].entries;
  }

  /** Storing leaves the answer for every URL not stored as it was. */
  lemma {:induction false} MergeInOthers(cs: seq<Partition>, name: string, add: map<string, Response>, k: string)
    requires k !in add
    ensures Lookup(MergeIn(cs, name, add), k) == Lookup(cs, k)
    decreases |cs|
  {
    if |cs| > 0 {
      MergeInOthers(cs[1..], name, add, k);
      assert MergeIn(cs, name, add)[1..] == MergeIn(cs[1..], name, add);
    }
  }

  /** Storing into the partition created first makes it answer with the new response. */
  lemma MergeInFirstAnswers(cs: seq<Partition>, name: string, add: map<string, Response>, key: string)
    requires |cs| > 0 && cs[0].name == name && key in add
    ensures Lookup(MergeIn(cs, name, add), key) == Some(add[key])
  {
  }

  lemma MergeInKeepsDistinct(cs: seq<Partition>, name: string, add: map<string, Response>)
    requires DistinctNames(cs)
    ensures DistinctNames(MergeIn(cs, name, add))
  {
    var r := MergeIn(cs, name, add);
    assert forall i :: 0 <= i < |r| ==> r[i].name == cs[i].name;
  }

  /** caches.delete: drops the partition with that name. */
  function DeleteIn(cs: seq<Partition>, name: string): seq<Partition>
    decreases |cs|
  {
    if |cs| == 0 then []
    else (if cs[0].name == name then [] else [cs[0]]) + DeleteIn(cs[1..], name)
  }

  lemma {:induction false} DeleteInConcat(a: seq<Partition>, b: seq<Partition>, name: string)
    ensures DeleteIn(a + b, name) == DeleteIn(a, name) + DeleteIn(b, name)
    decreases |a|
  {
    if |a| == 0 {
      assert a + b == b;
    } else {
      var ab := a + b;
      assert ab[0] == a[0];
      assert ab[1..] == a[1..] + b;
      var h := if a[0].name == name then [] else [a[0]];
      DeleteInConcat(a[1..], b, name);
      assert DeleteIn(ab, name) == h + DeleteIn(a[1..] + b, name);
      assert DeleteIn(a, name) == h + DeleteIn(a[1..], name);
    }
  }

  lemma {:induction false} DeleteInAbsent(cs: seq<Partition>, name: string)
    requires forall i :: 0 <= i < |cs| ==> cs[i].name != name
    ensures DeleteIn(cs, name) == cs
    decreases |cs|
  {
    if |cs| > 0 {
      DeleteInAbsent(cs[1..], name);
    }
  }

  predicate IsCurrent(name: string) {
    name == STATIC_CACHE || name == DYNAMIC_CACHE
  }

  /** The activate filter: the partitions whose name is one of the two current ones, in order. */
  function CurrentOnly(cs: seq<Partition>): seq<Partition>
    decreases |cs|
  {
    if |cs| == 0 then []
    else (if IsCurrent(cs[0].name) then [cs[0]] else []) + CurrentOnly(cs[1..])
  }

  /** The activate filter keeps exactly the current partitions. */
  lemma {:induction false} CurrentOnlyMembers(cs: seq<Partition>)
    ensures forall p :: p in CurrentOnly(cs) <==> p in cs && IsCurrent(p.name)
    decreases |cs|
  {
    if |cs| > 0 {
      CurrentOnlyMembers(cs[1..]);
      assert cs == [cs[0]] + cs[1..];
    }
  }

  lemma {:induction false} CurrentOnlyConcat(a: seq<Partition>, b: seq<Partition>)
    ensures CurrentOnly(a + b) == CurrentOnly(a) + CurrentOnly(b)
    decreases |a|
  {
    if |a| == 0 {
      assert a + b == b;
    } else {
      var ab := a + b;
      assert ab[0] == a[0];
      assert ab[1..] == a[1..] + b;
      var h := if IsCurrent(a[0].name) then [a[0]] else [];
      CurrentOnlyConcat(a[1..], b);
      assert CurrentOnly(ab) == h + CurrentOnly(a[1..] + b);
      assert CurrentOnly(a) == h + CurrentOnly(a[1..]);
    }
  }

  lemma {:induction false} CurrentOnlyDistinct(cs: seq<Partition>)
    requires DistinctNames(cs)
    ensures DistinctNames(CurrentOnly(cs))
    decreases |cs|
  {
    if |cs| > 0 {
      var rest := CurrentOnly(cs[1..]);
      CurrentOnlyDistinct(cs[1..]);
      CurrentOnlyMembers(cs[1..]);
      if IsCurrent(cs[0].name) {
        var r := [cs[0]] + rest;
        forall i, j | 0 <= i < j < |r|
          ensures r[i].name != r[j].name
        {
          if i == 0 {
            assert r[j] in rest;
            var k :| 0 <= k < |cs[1..]| && cs[1..][k] == r[j];
            assert cs[k + 1] == r[j];
          }
        }
      }
    }
  }

  /** A cache name survives activation exactly when it existed and is current. */
  lemma SurvivesActivation(cs: seq<Partition>, name: string)
    ensures HasName(CurrentOnly(cs), name) <==> HasName(cs, name) && IsCurrent(name)
  {
    CurrentOnlyMembers(cs);
    if HasName(CurrentOnly(cs), name) {
      var i :| 0 <= i < |CurrentOnly(cs)| && CurrentOnly(cs)[i].name == name;
      assert CurrentOnly(cs)[i] in CurrentOnly(cs);
    }
    if HasName(cs, name) && IsCurrent(name) {
      var i :| 0 <= i < |cs| && cs[i].name == name;
      assert cs[i] in CurrentOnly(cs);
    }
  }

  /** Activation keeps the static and dynamic partitions exactly as they were and nothing else. */
  lemma ActivationKeepsCurrent(cs: seq<Partition>, name: string)
    ensures HasName(CurrentOnly(cs), name) <==> HasName(cs, name) && IsCurrent(name)
    ensures forall i :: 0 <= i < |cs| && IsCurrent(cs[i].name) ==> cs[i] in CurrentOnly(cs)
    ensures !HasName(CurrentOnly(cs), CACHE_NAME)
  {
    SurvivesActivation(cs, name);
    SurvivesActivation(cs, CACHE_NAME);
    CurrentOnlyMembers(cs);
  }

  /**
   * One round of the activate loop: a current partition stays, any other is
   * the only one with its name, so deleting by name removes exactly it.
   */
  lemma ActivateStep(cs: seq<Partition>, i: nat)
    requires DistinctNames(cs) && i < |cs|
    ensures var now := CurrentOnly(cs[..i]) + cs[i..];
            var next := CurrentOnly(cs[..i + 1]) + cs[i + 1..];
            if IsCurrent(cs[i].name) then now == next else DeleteIn(now, cs[i].name) == next
  {
    var before := CurrentOnly(cs[..i]);
    assert cs[..i + 1] == cs[..i] + [cs[i]];
    CurrentOnlyConcat(cs[..i], [cs[i]]);
    assert cs[i..] == [cs[i]] + cs[i + 1..];
    if !IsCurrent(cs[i].name) {
      assert CurrentOnly([cs[i]]) == [] by {
        assert [cs[i]][1..] == [];
      }
      KeptBeforeLacksName(cs, i);
      var after := cs[i + 1..];
      forall j | 0 <= j < |after| ensures after[j].name != cs[i].name {
        assert after[j] == cs[i + 1 + j];
      }
      DeleteSplice(before, cs[i], cs[i + 1..]);
      assert before + [cs[i]] + cs[i + 1..] == before + cs[i..];
    }
  }

  /** No partition kept from the first i carries the name of partition i. */
  lemma KeptBeforeLacksName(cs: seq<Partition>, i: nat)
    requires DistinctNames(cs) && i < |cs|
    ensures forall j :: 0 <= j < |CurrentOnly(cs[..i])| ==> CurrentOnly(cs[..i])[j].name != cs[i].name
  {
    var before := CurrentOnly(cs[..i]);
    CurrentOnlyMembers(cs[..i]);
    forall j | 0 <= j < |before|
      ensures before[j].name != cs[i].name
    {
      assert before[j] in cs[..i];
      var k :| 0 <= k < i && cs[..i][k] == before[j];
      assert cs[k] == before[j];
    }
  }

  /** Deleting the only partition with a name removes it and keeps the rest in order. */
  lemma DeleteSplice(before: seq<Partition>, p: Partition, after: seq<Partition>)
    requires forall j :: 0 <= j < |before| ==> before[j].name != p.name
    requires forall j :: 0 <= j < |after| ==> after[j].name != p.name
    ensures DeleteIn(before + [p] + after, p.name) == before + after
  {
    DeleteInConcat(before + [p], after, p.name);
    DeleteInConcat(before, [p], p.name);
    DeleteInAbsent(before, p.name);
    DeleteInAbsent(after, p.name);
    assert DeleteIn([p], p.name) == [] by {
      assert [p][1..] == [];
    }
    assert DeleteIn(before + [p], p.name) == before;
  }

  // ---------------------------------------------------------------------------
  // Install

  /** The install filter: the static assets whose URL has no query string. */
  function PrecacheList(assets: seq<string>): seq<string>
    decreases |assets|
  {
    if |assets| == 0 then []
    else (if '?' in assets[0] then [] else [assets[0]]) + PrecacheList(assets[1..])
  }

  /** The install filter keeps exactly the query-free URLs. */
  lemma {:induction false} PrecacheListMembers(assets: seq<string>)
    ensures forall u :: u in PrecacheList(assets) <==> u in assets && '?' !in u
    decreases |assets|
  {
    if |assets| > 0 {
      PrecacheListMembers(assets[1..]);
      assert assets == [assets[0]] + assets[1..];
    }
  }

  function OutcomeAt(outs: seq<FetchOutcome>, k: nat): FetchOutcome {
    if k < |outs| then outs[k] else NetworkFailure
  }

  /** cache.addAll succeeds only when every one of the first n fetches returned an ok response. */
  predicate AllFetchedOk(outs: seq<FetchOutcome>, n: nat) {
    forall k :: 0 <= k < n ==> OutcomeAt(outs, k).Fetched? && Cacheable(OutcomeAt(outs, k).response)
  }

  /** What a successful addAll stores: each of the first n URLs with its fetched response. */
  function AddedEntries(keys: seq<string>, outs: seq<FetchOutcome>, n: nat): (r: map<string, Response>)
    requires n <= |keys| && AllFetchedOk(outs, n)
    ensures forall k :: 0 <= k < n ==> keys[k] in r
    ensures forall key :: key in r ==> key in keys[..n]
    decreases n
  {
    if n == 0 then map[]
    else
      var prev := AddedEntries(keys, outs, n - 1);
      assert forall key :: key in prev ==> key in keys[..n] by {
        assert keys[..n - 1] == keys[..n][..n - 1];
      }
      prev[keys[n - 1] := OutcomeAt(outs, n - 1).response]
  }

  /** Request URLs of the pre-cached assets, resolved against the worker's origin. */
  function Absolute(origin: string, paths: seq<string>): (r: seq<string>)
    ensures |r| == |paths| && forall k :: 0 <= k < |r| ==> r[k] == origin + paths[k]
  {
    seq(|paths|, k requires 0 <= k < |paths| => origin + paths[k])
  }

  /** After a successful addAll of `paths`, each of them is found under its absolute URL. */
  lemma PrecachedFound(cs: seq<Partition>, origin: string, paths: seq<string>, outs: seq<FetchOutcome>)
    requires HasName(cs, STATIC_CACHE) && AllFetchedOk(outs, |paths|)
    ensures var keys := Absolute(origin, paths);
      forall u :: u in paths ==> Lookup(MergeIn(cs, STATIC_CACHE, AddedEntries(keys, outs, |keys|)), origin + u).Some?
  {
    var keys := Absolute(origin, paths);
    var added := AddedEntries(keys, outs, |keys|);
    forall u | u in paths
      ensures Lookup(MergeIn(cs, STATIC_CACHE, added), origin + u).Some?
    {
      var k :| 0 <= k < |paths| && paths[k] == u;
      assert keys[k] == origin + u;
      MergeInFound(cs, STATIC_CACHE, added, origin + u);
    }
  }

  // ---------------------------------------------------------------------------
  // Notification click

  datatype WindowClient = WindowClient(url: string, focusable: bool)

  datatype ClickAction = Focus(index: nat) | OpenWindow(url: string) | NoAction

  /** `data?.url || '/tech'`: a missing or empty URL falls back to the technician page. */
  function ClickTarget(dataUrl: Option<string>): (r: string)
    ensures |r| > 0
    ensures dataUrl.Some? && dataUrl.value != "" ==> r == dataUrl.value
    ensures dataUrl.None? || dataUrl.value == "" ==> r == "/tech"
  {
    if dataUrl.Some? && dataUrl.value != "" then dataUrl.value else "/tech"
  }

  predicate ShowsTarget(c: WindowClient, target: string) {
    Contains(c.url, target) && c.focusable
  }

  /**
   * notificationclick: focuses the first window whose URL contains the
   * target; only when none does, opens a new window on it (if the browser can).
   */
  method NotificationClick(dataUrl: Option<string>, windows: seq<WindowClient>, canOpen: bool)
    returns (a: ClickAction)
    ensures a.Focus? ==>
      && a.index < |windows| && ShowsTarget(windows[a.index], ClickTarget(dataUrl))
      && forall j :: 0 <= j < a.index ==> !ShowsTarget(windows[j], ClickTarget(dataUrl))
    ensures !a.Focus? <==> forall j :: 0 <= j < |windows| ==> !ShowsTarget(windows[j], ClickTarget(dataUrl))
    ensures a.OpenWindow? <==> !a.Focus? && canOpen
    ensures a.OpenWindow? ==> a.url == ClickTarget(dataUrl)
  {
    var target := ClickTarget(dataUrl);
    var i := 0;
    while i < |windows|
      invariant 0 <= i <= |windows|
      invariant forall j :: 0 <= j < i ==> !ShowsTarget(windows[j], target)
    {
      if Contains(windows[i].url, target) && windows[i].focusable {
        return Focus(i);
      }
      i := i + 1;
    }
    if canOpen {
      return OpenWindow(target);
    }
    return NoAction;
  }

  // ---------------------------------------------------------------------------
  // The worker

  /** What the fetch handler did with a request. */
  datatype Handled = NotIntercepted | Responded(response: Option<Response>)

  const OFFLINE_TEXT := Response(503, Some("text/plain;charset=UTF-8"), Text("Offline"))
  const OFFLINE_PAGE := Response(503, Some("text/html"), OfflinePage)

  class Worker {
    /** The origin the worker's relative URLs resolve against. */
    const origin: string
    /** The install list: the static assets without a query string. */
    const precached: seq<string>
    var caches: seq<Partition>
    var skippedWaiting: bool
    var claimedClients: bool

    ghost predicate Valid()
      reads this
    {
      DistinctNames(caches)
    }

    /**
     * The worker script loaded at `origin` over the caches that already
     * exist; `assets` is its asset list (`STATIC_ASSETS` in the script).
     */
    constructor (origin: string, existing: seq<Partition>, assets: seq<string>)
      requires DistinctNames(existing)
      ensures Valid() && this.origin == origin && caches == existing
      ensures precached == PrecacheList(assets)
      ensures !skippedWaiting && !claimedClients
    {
      this.origin := origin;
      precached := PrecacheList(assets);
      caches := existing;
      skippedWaiting := false;
      claimedClients := false;
    }

    /**
     * install: opens the static partition and adds every query-free static
     * asset in one all-or-nothing addAll; waiting is skipped either way.
     */
    method Install(outs: seq<FetchOutcome>)
      requires Valid()
      modifies this
      ensures Valid() && skippedWaiting && claimedClients == old(claimedClients)
      ensures HasName(caches, STATIC_CACHE)
      ensures var keys := Absolute(origin, precached);
        if AllFetchedOk(outs, |keys|)
        then caches == MergeIn(Open(old(caches), STATIC_CACHE), STATIC_CACHE, AddedEntries(keys, outs, |keys|))
             && forall u :: u in precached ==> Lookup(caches, origin + u).Some?
        else caches == Open(old(caches), STATIC_CACHE)
    {
      var keys := Absolute(origin, precached);
      caches := Open(caches, STATIC_CACHE);
      if AllFetchedOk(outs, |keys|) {
        var added := AddedEntries(keys, outs, |keys|);
        MergeInKeepsDistinct(caches, STATIC_CACHE, added);
        ghost var withStatic := caches;
        caches := MergeIn(caches, STATIC_CACHE, added);
        PrecachedFound(withStatic, origin, precached, outs);
      }
      skippedWaiting := true;
    }

    /** activate: deletes every partition but the two current ones and claims the open pages. */
    method Activate()
      requires Valid()
      modifies this
      ensures Valid() && caches == CurrentOnly(old(caches)) && claimedClients
      ensures skippedWaiting == old(skippedWaiting)
    {
      // the names are read once, as caches.keys() does, before any deletion
      var cs := caches;
      var i := 0;
      while i < |cs|
        invariant 0 <= i <= |cs|
        invariant caches == CurrentOnly(cs[..i]) + cs[i..]
        invariant skippedWaiting == old(skippedWaiting)
      {
        ActivateStep(cs, i);
        var key := cs[i].name;
        if !IsCurrent(key) {
          caches := DeleteIn(caches, key);
        }
        i := i + 1;
      }
      assert cs[..|cs|] == cs;
      CurrentOnlyDistinct(cs);
      claimedClients := true;
    }

    /**
     * cacheFirst: a cached copy is answered without touching the network;
     * otherwise the fetched response is returned and, when ok, stored in
     * the static partition; a network failure answers 503 "Offline".
     */
    method CacheFirstFetch(req: Request, fetched: FetchOutcome) returns (resp: Response, didFetch: bool)
      requires Valid()
      modifies this
      ensures Valid() && skippedWaiting == old(skippedWaiting) && claimedClients == old(claimedClients)
      ensures Lookup(old(caches), req.url).Some? ==>
        resp == Lookup(old(caches), req.url).value && !didFetch && caches == old(caches)
      ensures Lookup(old(caches), req.url).None? ==> didFetch
      ensures Lookup(old(caches), req.url).None? && fetched.NetworkFailure? ==>
        resp == OFFLINE_TEXT && caches == old(caches)
      ensures Lookup(old(caches), req.url).None? && fetched.Fetched? ==>
        && resp == fetched.response
        && caches == (if Cacheable(resp) then MergeIn(Open(old(caches), STATIC_CACHE), STATIC_CACHE, map[req.url := resp])
                      else if IsOkStatus(resp) then Open(old(caches), STATIC_CACHE)
                      else old(caches))
    {
      var cached := Lookup(caches, req.url);
      if cached.Some? {
        return cached.value, false;
      }
      didFetch := true;
      match fetched
      case NetworkFailure =>
        resp := OFFLINE_TEXT;
      case Fetched(r) =>
        if IsOkStatus(r) {
          caches := Open(caches, STATIC_CACHE);
          // the put that follows rejects a 206 partial response
          if Cacheable(r) {
            MergeInKeepsDistinct(caches, STATIC_CACHE, map[req.url := r]);
            caches := MergeIn(caches, STATIC_CACHE, map[req.url := r]);
          }
        }
        resp := r;
    }

    /**
     * networkFirstWithFallback: the network's answer, stored in the dynamic
     * partition when ok; on a network failure the cached copy, else the
     * cached offline page, else a generated 503 offline page.
     */
    method NetworkFirstFetch(req: Request, fetched: FetchOutcome) returns (resp: Response)
      requires Valid()
      modifies this
      ensures Valid() && skippedWaiting == old(skippedWaiting) && claimedClients == old(claimedClients)
      ensures fetched.Fetched? ==>
        && resp == fetched.response
        && caches == (if Cacheable(resp) then MergeIn(Open(old(caches), DYNAMIC_CACHE), DYNAMIC_CACHE, map[req.url := resp])
                      else if IsOkStatus(resp) then Open(old(caches), DYNAMIC_CACHE)
                      else old(caches))
      ensures fetched.NetworkFailure? ==> caches == old(caches) && resp == FallbackFor(old(caches), origin, req.url)
    {
      match fetched
      case Fetched(r) =>
        if IsOkStatus(r) {
          caches := Open(caches, DYNAMIC_CACHE);
          if Cacheable(r) {
            MergeInKeepsDistinct(caches, DYNAMIC_CACHE, map[req.url := r]);
            caches := MergeIn(caches, DYNAMIC_CACHE, map[req.url := r]);
          }
        }
        resp := r;
      case NetworkFailure =>
        var cached := Lookup(caches, req.url);
        if cached.Some? {
          return cached.value;
        }
        var offline := Lookup(caches, origin + "/offline");
        if offline.Some? {
          return offline.value;
        }
        resp := OFFLINE_PAGE;
    }

    /**
     * staleWhileRevalidate: always fetches, storing an ok answer in the
     * dynamic partition; answers with the cached copy when there was one,
     * else with the network's answer (none on a network failure).
     */
    method StaleWhileRevalidateFetch(req: Request, fetched: FetchOutcome) returns (resp: Option<Response>)
      requires Valid()
      modifies this
      ensures Valid() && skippedWaiting == old(skippedWaiting) && claimedClients == old(claimedClients)
      ensures Lookup(old(caches), req.url).Some? ==> resp == Lookup(old(caches), req.url)
      ensures Lookup(old(caches), req.url).None? ==>
        resp == if fetched.Fetched? then Some(fetched.response) else None
      ensures caches == if fetched.Fetched? && Cacheable(fetched.response)
                        then MergeIn(Open(old(caches), DYNAMIC_CACHE), DYNAMIC_CACHE, map[req.url := fetched.response])
                        else if fetched.Fetched? && IsOkStatus(fetched.response) then Open(old(caches), DYNAMIC_CACHE)
                        else old(caches)
    {
      var cached := Lookup(caches, req.url);
      if fetched.Fetched? && IsOkStatus(fetched.response) {
        caches := Open(caches, DYNAMIC_CACHE);
        if Cacheable(fetched.response) {
          MergeInKeepsDistinct(caches, DYNAMIC_CACHE, map[req.url := fetched.response]);
          caches := MergeIn(caches, DYNAMIC_CACHE, map[req.url := fetched.response]);
        }
      }
      if cached.Some? {
        resp := cached;
      } else if fetched.Fetched? {
        resp := Some(fetched.response);
      } else {
        resp := None;
      }
    }

    /** The fetch listener: routes the request and runs the chosen strategy. */
    method HandleFetch(req: Request, fetched: FetchOutcome) returns (h: Handled)
      requires Valid()
      modifies this
      ensures Valid() && skippedWaiting == old(skippedWaiting) && claimedClients == old(claimedClients)
      ensures h == NotIntercepted <==> RouteFor(req) == PassThrough
      ensures h == NotIntercepted ==> caches == old(caches)
      ensures RouteFor(req) == NetworkFirst && fetched.Fetched? ==>
        h == Responded(Some(fetched.response)) && caches == Stored(old(caches), DYNAMIC_CACHE, req.url, fetched)
      ensures RouteFor(req) == NetworkFirst && fetched.NetworkFailure? ==>
        h == Responded(Some(FallbackFor(old(caches), origin, req.url))) && caches == old(caches)
      ensures RouteFor(req) == CacheFirst && Lookup(old(caches), req.url).Some? ==>
        h == Responded(Lookup(old(caches), req.url)) && caches == old(caches)
      ensures RouteFor(req) == CacheFirst && Lookup(old(caches), req.url).None? ==>
        && h == Responded(Some(if fetched.Fetched? then fetched.response else OFFLINE_TEXT))
        && caches == Stored(old(caches), STATIC_CACHE, req.url, fetched)
      ensures RouteFor(req) == StaleWhileRevalidate ==>
        && h == Responded(if Lookup(old(caches), req.url).Some? then Lookup(old(caches), req.url)
                          else if fetched.Fetched? then Some(fetched.response) else None)
        && caches == Stored(old(caches), DYNAMIC_CACHE, req.url, fetched)
    {
      match RouteFor(req)
      case PassThrough =>
        h := NotIntercepted;
      case NetworkFirst =>
        var r := NetworkFirstFetch(req, fetched);
        h := Responded(Some(r));
      case CacheFirst =>
        var r, _ := CacheFirstFetch(req, fetched);
        h := Responded(Some(r));
      case StaleWhileRevalidate =>
        var r := StaleWhileRevalidateFetch(req, fetched);
        h := Responded(r);
    }
  }

  /**
   * The caches after a fetch whose ok answer is put under `url` in the
   * partition `name`. An ok answer opens the partition first, so a 206
   * partial response, which the put rejects, leaves it opened and empty of
   * that URL; a failed or non-ok fetch touches nothing.
   */
  function Stored(cs: seq<Partition>, name: string, url: string, fetched: FetchOutcome): (r: seq<Partition>)
    ensures fetched.Fetched? && Cacheable(fetched.response) ==>
      && HasName(r, name) && Lookup(r, url).Some?
      && forall i :: 0 <= i < |r| && r[i].name == name ==> url in r[i].entries && r[i].entries[url] == fetched.response
    ensures fetched.Fetched? && IsOkStatus(fetched.response) && !Cacheable(fetched.response) ==>
      r == Open(cs, name) && HasName(r, name) && Lookup(r, url) == Lookup(cs, url)
    ensures !(fetched.Fetched? && IsOkStatus(fetched.response)) ==> r == cs
    ensures forall k :: k != url ==> Lookup(r, k) == Lookup(cs, k)
  {
    if fetched.Fetched? && IsOkStatus(fetched.response) && !Cacheable(fetched.response) then
      Open(cs, name)
    else if fetched.Fetched? && Cacheable(fetched.response) then
      var ready := Open(cs, name);
      var add := map[url := fetched.response];
      MergeInFound(ready, name, add, url);
      forall k | k != url ensures Lookup(MergeIn(ready, name, add), k) == Lookup(cs, k) {
        MergeInOthers(ready, name, add, k);
      }
      MergeIn(ready, name, add)
    else cs
  }

  /** What a page request gets when the network is down. */
  function FallbackFor(cs: seq<Partition>, origin: string, url: string): (r: Response)
    ensures Lookup(cs, url).Some? ==> r == Lookup(cs, url).value
    ensures Lookup(cs, url).None? && Lookup(cs, origin + "/offline").Some? ==> r == Lookup(cs, origin + "/offline").value
    ensures Lookup(cs, url).None? && Lookup(cs, origin + "/offline").None? ==> r == OFFLINE_PAGE && r.status == 503
  {
    match Lookup(cs, url)
    case Some(cached) => cached
    case None =>
      match Lookup(cs, origin + "/offline")
      case Some(page) => page
      case None => OFFLINE_PAGE
  }

}
