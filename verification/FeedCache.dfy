/** The rendered-page cache of the feed handler. Templates are an arbitrary function
    of the page data; a snapshot is identified by reference, as the source does. */
module FeedCache {
  import opened Metrics
  import opened Catalog
  import opened Selections

  const SEPARATOR := 0x1f as char
  const MAX_CACHED := 64
  const FEED_LIMIT := 120

  /** What the feed template is given. The rest of it is fixed configuration. */
  datatype FeedData = FeedData(query: string, tag: string, size: string,
                               items: seq<Item>, total: nat, tags: seq<string>)

  type Renderer = FeedData -> string

  /** The page rendered from scratch. */
  function Fresh(render: Renderer, snap: Snapshot, tag: string, size: string, query: string): string {
    render(FeedData(query, tag, size, Page(Filtered(snap.items, tag, size), 0, FEED_LIMIT),
                    |snap.items|, snap.tags))
  }

  function Key(tag: string, size: string): string { tag + [SEPARATOR] + size }

  datatype Cache = Cache(owner: Option<Snapshot>, pages: map<string, string>)

  datatype Ask = Ask(tag: string, size: string, query: string)

  /** The cache as a request finds it: pages of another snapshot are gone. */
  function Current(c: Cache, snap: Snapshot): Cache {
    if c.owner == Some(snap) then c else Cache(Some(snap), map[])
  }

  /** One feed request: the new cache and the body. */
  function Serve(render: Renderer, c: Cache, snap: Snapshot, ask: Ask): (Cache, string) {
    var now := Current(c, snap);
    var key := Key(ask.tag, ask.size);
    if ask.query == "" && key in now.pages then (now, now.pages[key])
    else
      var html := Fresh(render, snap, ask.tag, ask.size, ask.query);
      if ask.query == "" && |now.pages| < MAX_CACHED then (Cache(now.owner, now.pages[key := html]), html)
      else (now, html)
  }

  // ------------------------------------------------------------ the code --

  class CatalogHandle {
    var ptr: Snapshot

    constructor (initial: Snapshot)
      ensures ptr == initial
    {
      ptr := initial;
    }

    method Set(next: Snapshot)
      modifies this
      ensures ptr == next
    {
      ptr := next;
    }
  }

  class HandlerContext {
    const catalog: CatalogHandle
    const render: Renderer
    var feedCacheFor: Snapshot?
    var feedCache: map<string, string>
    ghost var served: seq<Request>

    constructor (catalog: CatalogHandle, render: Renderer)
      ensures Valid() && this.catalog == catalog && this.render == render && served == []
    {
      this.catalog, this.render := catalog, render;
      this.feedCacheFor, this.feedCache, this.served := null, map[], [];
    }

    /** The cache is what the requests served so far made it. */
    ghost predicate Valid() reads this { View() == CacheAfter(render, served) }

    ghost function View(): Cache reads this {
      Cache(if feedCacheFor == null then None else Some(feedCacheFor), feedCache)
    }

    method HandleFeed(q: map<string, string>) returns (body: string)
      requires Valid()
      modifies this`feedCacheFor, this`feedCache, this`served
      ensures Valid() && served == old(served) + [Request(catalog.ptr, AskOf(q))] && body == Reply(render, served)
      ensures Shows(render, body, catalog.ptr, q, PlainTags(served))
    {
      served := served + [Request(catalog.ptr, AskOf(q))];
      assert served[..|served| - 1] == old(served);
      body := FromCacheOrFresh(q);
      ReplyShows(render, served, q);
    }

    method FromCacheOrFresh(q: map<string, string>) returns (body: string)
      modifies this`feedCacheFor, this`feedCache
      ensures (View(), body) == Serve(render, old(View()), catalog.ptr, AskOf(q))
    {
      var snap := catalog.ptr;
      var tag := if "tag" in q then q["tag"] else "";
      var size := if "size" in q then q["size"] else "";
      var query := if "q" in q then q["q"] else "";

      if feedCacheFor != snap {
        feedCache := map[];
        feedCacheFor := snap;
      }
      var cacheable := query == "";
      var key := tag + [SEPARATOR] + size;
      if cacheable && key in feedCache { return feedCache[key]; }

      var items := snap.Query(tag, size, 0, FEED_LIMIT);
      body := render(FeedData(query, tag, size, items, |snap.items|, snap.tags));
      if cacheable && |feedCache| < MAX_CACHED { feedCache := feedCache[key := body]; }
    }
  }

  function AskOf(q: map<string, string>): Ask {
    Ask(if "tag" in q then q["tag"] else "", if "size" in q then q["size"] else "",
        if "q" in q then q["q"] else "")
  }

  // ----------------------------------------------------- what a page shows --

  /** The page lists, in feed order, the first 120 items that carry the tag and the
      size, where given; and it has the number of items and the tags of the feed. */
  ghost predicate Lists(d: FeedData, snap: Snapshot, tag: string, size: string, at: seq<nat>) {
    && |at| == |d.items| <= 120
    && (forall k :: 0 <= k < |at| ==> at[k] < |snap.items| && d.items[k] == snap.items[at[k]])
    && (forall j, k :: 0 <= j < k < |at| ==> at[j] < at[k])
    && (forall k :: 0 <= k < |at| ==>
          (tag != "" ==> tag in d.items[k].tags) && (size != "" ==> size in d.items[k].sizes))
    && (forall i: nat :: i < |snap.items| && Passes(snap.items[i], tag, size) && i !in at ==>
          |at| == 120 && forall k :: 0 <= k < |at| ==> at[k] < i)
    && d.total == |snap.items| && d.tags == snap.tags
  }

  lemma FreshLists(render: Renderer, snap: Snapshot, tag: string, size: string, query: string)
    returns (d: FeedData, at: seq<nat>)
    ensures Fresh(render, snap, tag, size, query) == render(d) && Lists(d, snap, tag, size, at)
    ensures d.tag == tag && d.size == size && d.query == query
  {
    var all := Filtered(snap.items, tag, size);
    d := FeedData(query, tag, size, Page(all, 0, FEED_LIMIT), |snap.items|, snap.tags);
    var places := FilteredSelects(snap.items, tag, size);
    at := if |places| <= 120 then places else places[..120];
    assert d.items == if |all| <= 120 then all else all[..120];
    forall i: nat | i < |snap.items| && Passes(snap.items[i], tag, size) && i !in at
      ensures |at| == 120 && forall k :: 0 <= k < |at| ==> at[k] < i
    {
      var k :| 0 <= k < |places| && places[k] == i;
    }
  }

  /** The body is a page of the snapshot for the request's search text, and for its
      own filters if `own` holds. */
  ghost predicate Shows(render: Renderer, body: string, snap: Snapshot, q: map<string, string>, own: bool) {
    exists d: FeedData, at: seq<nat> ::
      && Lists(d, snap, d.tag, d.size, at) && body == render(d)
      && d.query == (if "q" in q then q["q"] else "")
      && (own ==> d.tag == (if "tag" in q then q["tag"] else "") && d.size == (if "size" in q then q["size"] else ""))
  }

  lemma ReplyShows(render: Renderer, rs: seq<Request>, q: map<string, string>)
    requires rs != [] && rs[|rs| - 1].ask == AskOf(q)
    ensures Shows(render, Reply(render, rs), rs[|rs| - 1].snap, q, PlainTags(rs))
  {
    ReplyIsRendered(render, rs);
    var d, at := FreshLists(render, rs[|rs| - 1].snap, Answered(rs).tag, Answered(rs).size, rs[|rs| - 1].ask.query);
    if PlainTags(rs) { PlainIsAnswered(rs); }
  }

  // ----------------------------------------------------------- coherence --

  /** Two filter pairs share a key exactly when they are equal or one tag swallows
      the other pair's separator. */
  lemma KeysCollideIff(t1: string, s1: string, t2: string, s2: string)
    requires |t1| <= |t2|
    ensures Key(t1, s1) == Key(t2, s2) <==>
            (t1 == t2 && s1 == s2) ||
            (|t1| < |t2| && t2[..|t1|] == t1 && t2[|t1|] == SEPARATOR &&
             s1 == t2[|t1| + 1..] + [SEPARATOR] + s2)
  {
    var k1, k2 := Key(t1, s1), Key(t2, s2);
    assert k1[..|t1|] == t1 && k1[|t1|] == SEPARATOR && k1[|t1| + 1..] == s1;
    assert k2[..|t1|] == t2[..|t1|];
    if |t1| == |t2| {
      assert k2[..|t2|] == t2 && k2[|t2| + 1..] == s2;
    } else {
      assert k2[|t1|] == t2[|t1|] && k2[|t1| + 1..] == t2[|t1| + 1..] + [SEPARATOR] + s2;
      if t2[..|t1|] == t1 && t2[|t1|] == SEPARATOR && s1 == t2[|t1| + 1..] + [SEPARATOR] + s2 {
        assert k1 == k1[..|t1|] + [k1[|t1|]] + k1[|t1| + 1..];
        assert k2 == k2[..|t1|] + [k2[|t1|]] + k2[|t1| + 1..];
      }
    }
  }

  lemma PlainKeysDiffer(t1: string, s1: string, t2: string, s2: string)
    requires SEPARATOR !in t1 && SEPARATOR !in t2 && Key(t1, s1) == Key(t2, s2)
    ensures t1 == t2 && s1 == s2
  {
    if |t1| <= |t2| { KeysCollideIff(t1, s1, t2, s2); } else { KeysCollideIff(t2, s2, t1, s1); }
  }

  // ------------------------------------------------------------ requests --

  /** A request, with the snapshot current when it is served. */
  datatype Request = Request(snap: Snapshot, ask: Ask)

  function CacheAfter(render: Renderer, rs: seq<Request>): Cache {
    if rs == [] then Cache(None, map[])
    else
      var last := rs[|rs| - 1];
      Serve(render, CacheAfter(render, rs[..|rs| - 1]), last.snap, last.ask).0
  }

  function Reply(render: Renderer, rs: seq<Request>): string
    requires rs != []
  {
    var last := rs[|rs| - 1];
    Serve(render, CacheAfter(render, rs[..|rs| - 1]), last.snap, last.ask).1
  }

  datatype Filters = Filters(tag: string, size: string)

  function FiltersOf(r: Request): Filters { Filters(r.ask.tag, r.ask.size) }

  function KeyOf(r: Request): string { Key(r.ask.tag, r.ask.size) }

  predicate Cacheable(r: Request) { r.ask.query == "" }

  /** Which filters each cached page was rendered for; no template involved. */
  datatype Origins = Origins(owner: Option<Snapshot>, filters: map<string, Filters>)

  function CurrentOrigins(o: Origins, snap: Snapshot): Origins {
    if o.owner == Some(snap) then o else Origins(Some(snap), map[])
  }

  function Note(o: Origins, r: Request): Origins {
    var now := CurrentOrigins(o, r.snap);
    var key := Key(r.ask.tag, r.ask.size);
    if r.ask.query == "" && key !in now.filters && |now.filters| < MAX_CACHED
    then now.(filters := now.filters[key := Filters(r.ask.tag, r.ask.size)])
    else now
  }

  function OriginsAfter(rs: seq<Request>): Origins {
    if rs == [] then Origins(None, map[])
    else Note(OriginsAfter(rs[..|rs| - 1]), rs[|rs| - 1])
  }

  /** Every page in the cache is a fresh render of the cache's own snapshot for the
      filters it was stored under, and the cache is bounded. */
  ghost predicate Coherent(render: Renderer, c: Cache, o: Origins) {
    && c.owner == o.owner && c.pages.Keys == o.filters.Keys
    && |c.pages| <= MAX_CACHED
    && (c.owner.None? ==> c.pages == map[])
    && forall key :: key in c.pages ==>
         && key == Key(o.filters[key].tag, o.filters[key].size)
         && c.pages[key] == Fresh(render, c.owner.value, o.filters[key].tag, o.filters[key].size, "")
  }

  lemma ServeCoherent(render: Renderer, c: Cache, o: Origins, r: Request)
    requires Coherent(render, c, o)
    ensures Coherent(render, Serve(render, c, r.snap, r.ask).0, Note(o, r))
  {
    assert |c.pages.Keys| == |c.pages| && |o.filters.Keys| == |o.filters|;
  }

  /** In every state of the cache, whatever was asked and swapped before. */
  lemma {:induction false} CacheIsCoherent(render: Renderer, rs: seq<Request>)
    ensures Coherent(render, CacheAfter(render, rs), OriginsAfter(rs))
  {
    if rs != [] {
      var n := |rs| - 1;
      CacheIsCoherent(render, rs[..n]);
      ServeCoherent(render, CacheAfter(render, rs[..n]), OriginsAfter(rs[..n]), rs[n]);
    }
  }

  /** The filters the last reply is rendered for. */
  function Answered(rs: seq<Request>): Filters
    requires rs != []
  {
    var r := rs[|rs| - 1];
    var now := CurrentOrigins(OriginsAfter(rs[..|rs| - 1]), r.snap);
    var key := Key(r.ask.tag, r.ask.size);
    if r.ask.query == "" && key in now.filters then now.filters[key] else Filters(r.ask.tag, r.ask.size)
  }

  /** Every reply is a fresh render of the snapshot current at that request. */
  lemma ReplyIsRendered(render: Renderer, rs: seq<Request>)
    requires rs != []
    ensures var r := rs[|rs| - 1];
            Reply(render, rs) == Fresh(render, r.snap, Answered(rs).tag, Answered(rs).size, r.ask.query)
  {
    CacheIsCoherent(render, rs[..|rs| - 1]);
  }

  ghost predicate ReplyIsFresh(render: Renderer, rs: seq<Request>)
    requires rs != []
  {
    var r := rs[|rs| - 1];
    Reply(render, rs) == Fresh(render, r.snap, r.ask.tag, r.ask.size, r.ask.query)
  }

  lemma FreshIffAnswered(rs: seq<Request>)
    requires rs != []
    ensures (forall render: Renderer :: ReplyIsFresh(render, rs)) <==> Answered(rs) == FiltersOf(rs[|rs| - 1])
  {
    if Answered(rs) == FiltersOf(rs[|rs| - 1]) {
      forall render: Renderer ensures ReplyIsFresh(render, rs) { ReplyIsRendered(render, rs); }
    } else {
      var byTag: Renderer := (d: FeedData) => d.tag;
      var bySize: Renderer := (d: FeedData) => d.size;
      ReplyIsRendered(byTag, rs);
      ReplyIsRendered(bySize, rs);
      assert !ReplyIsFresh(byTag, rs) || !ReplyIsFresh(bySize, rs);
    }
  }

  // --------------------------------- which requests get another's page --

  /** From request i to the last one the snapshot did not change. */
  ghost predicate SameSnapshot(rs: seq<Request>, i: nat) {
    forall k :: i <= k < |rs| ==> rs[k].snap == rs[|rs| - 1].snap
  }

  /** The keys asked for before request i under the last request's snapshot. */
  ghost function KeysBefore(rs: seq<Request>, i: nat): set<string>
    requires i <= |rs|
  {
    set k: nat | k < i && SameSnapshot(rs, k) && Cacheable(rs[k]) :: KeyOf(rs[k])
  }

  /** Request i opened its key's entry: under the snapshot still current it is the
      first with its key, and fewer than 64 keys came before. */
  ghost predicate Opens(rs: seq<Request>, i: nat)
    requires i < |rs|
  {
    && SameSnapshot(rs, i) && Cacheable(rs[i])
    && KeyOf(rs[i]) !in KeysBefore(rs, i) && |KeysBefore(rs, i)| < 64
  }

  /** What the last request finds in the cache, in terms of the requests alone:
      the keys asked for, until the cache is full ... */
  ghost predicate HoldsKeys(rs: seq<Request>, found: map<string, Filters>)
    requires rs != []
  {
    var keys := KeysBefore(rs, |rs| - 1);
    found.Keys <= keys && (|found| < MAX_CACHED ==> found.Keys == keys)
  }

  /** ... each with the filters of the request that opened it. */
  ghost predicate HoldsOpeners(rs: seq<Request>, found: map<string, Filters>)
    requires rs != []
  {
    && (forall i: nat :: i < |rs| - 1 && Opens(rs, i) ==>
          KeyOf(rs[i]) in found && found[KeyOf(rs[i])] == FiltersOf(rs[i]))
    && forall key :: key in found ==> exists i: nat :: i < |rs| - 1 && Opens(rs, i) && KeyOf(rs[i]) == key
  }

  ghost function Found(rs: seq<Request>): map<string, Filters>
    requires rs != []
  {
    CurrentOrigins(OriginsAfter(rs[..|rs| - 1]), rs[|rs| - 1].snap).filters
  }

  /** A later request under the same snapshot changes nothing about the earlier. */
  lemma OpensLater(rs: seq<Request>)
    requires |rs| >= 2 && rs[|rs| - 2].snap == rs[|rs| - 1].snap
    ensures var init := rs[..|rs| - 1];
            && (forall i: nat :: i <= |init| ==> KeysBefore(init, i) == KeysBefore(rs, i))
            && forall i: nat :: i < |init| ==> (Opens(init, i) <==> Opens(rs, i))
  {
    var init := rs[..|rs| - 1];
    forall i: nat | i < |init| ensures SameSnapshot(init, i) <==> SameSnapshot(rs, i) {
      if SameSnapshot(init, i) {
        forall k | i <= k < |rs| ensures rs[k].snap == rs[|rs| - 1].snap {
          if k < |init| { assert init[k].snap == init[|init| - 1].snap; }
        }
      }
      if SameSnapshot(rs, i) {
        forall k | i <= k < |init| ensures init[k].snap == init[|init| - 1].snap {
          assert rs[k].snap == rs[|rs| - 1].snap;
        }
      }
    }
  }

  /** The last but one request, under an unchanged snapshot, adds its own key. */
  lemma KeysGrow(rs: seq<Request>)
    requires |rs| >= 2 && rs[|rs| - 2].snap == rs[|rs| - 1].snap
    ensures var n := |rs| - 1;
            && SameSnapshot(rs, n - 1)
            && KeysBefore(rs, n) == KeysBefore(rs, n - 1) + if Cacheable(rs[n - 1]) then {KeyOf(rs[n - 1])} else {}
  {
    var n := |rs| - 1;
    forall k: nat | k < n && SameSnapshot(rs, k) && Cacheable(rs[k])
      ensures KeyOf(rs[k]) in KeysBefore(rs, n - 1) || (Cacheable(rs[n - 1]) && KeyOf(rs[k]) == KeyOf(rs[n - 1]))
    {}
  }

  /** And it opens its entry exactly when the cache takes its page. */
  lemma OpensWhenTaken(rs: seq<Request>, was: map<string, Filters>)
    requires |rs| >= 2 && rs[|rs| - 2].snap == rs[|rs| - 1].snap
    requires var keys := KeysBefore(rs, |rs| - 2); was.Keys <= keys && (|was| < MAX_CACHED ==> was.Keys == keys)
    ensures var r := rs[|rs| - 2];
            Opens(rs, |rs| - 2) <==> Cacheable(r) && KeyOf(r) !in was && |was| < MAX_CACHED
  {
    KeysGrow(rs);
    assert |was.Keys| == |was|;
    SmallerSet(was.Keys, KeysBefore(rs, |rs| - 2));
  }

  lemma FoundGrows(rs: seq<Request>)
    requires |rs| >= 2 && rs[|rs| - 2].snap == rs[|rs| - 1].snap
    ensures var r, was := rs[|rs| - 2], Found(rs[..|rs| - 1]);
            Found(rs) == if Cacheable(r) && KeyOf(r) !in was && |was| < MAX_CACHED
                         then was[KeyOf(r) := FiltersOf(r)] else was
  {
    var init := rs[..|rs| - 1];
    assert OriginsAfter(init) == Note(OriginsAfter(init[..|init| - 1]), rs[|rs| - 2]);
  }

  /** One request on, under an unchanged snapshot. */
  lemma KeysStep(rs: seq<Request>)
    requires |rs| >= 2 && rs[|rs| - 2].snap == rs[|rs| - 1].snap
    requires HoldsKeys(rs[..|rs| - 1], Found(rs[..|rs| - 1]))
    ensures HoldsKeys(rs, Found(rs))
  {
    var was, found := Found(rs[..|rs| - 1]), Found(rs);
    OpensLater(rs);
    FoundGrows(rs);
    KeysGrow(rs);
    var r := rs[|rs| - 2];
    if Cacheable(r) { TakenKeys(was, found, KeysBefore(rs, |rs| - 2), KeyOf(r), FiltersOf(r)); }
  }

  lemma TakenKeys(was: map<string, Filters>, found: map<string, Filters>, keys: set<string>, key: string, f: Filters)
    requires was.Keys <= keys && (|was| < MAX_CACHED ==> was.Keys == keys)
    requires found == if key !in was && |was| < MAX_CACHED then was[key := f] else was
    ensures found.Keys <= keys + {key} && (|found| < MAX_CACHED ==> found.Keys == keys + {key})
  {
    if key !in was && |was| < MAX_CACHED { assert |found| == |was| + 1; }
  }

  lemma OpenersStep(rs: seq<Request>)
    requires |rs| >= 2 && rs[|rs| - 2].snap == rs[|rs| - 1].snap
    requires HoldsKeys(rs[..|rs| - 1], Found(rs[..|rs| - 1]))
    requires HoldsOpeners(rs[..|rs| - 1], Found(rs[..|rs| - 1]))
    ensures HoldsOpeners(rs, Found(rs))
  {
    var n := |rs| - 1;
    forall i: nat | i < n && Opens(rs, i)
      ensures KeyOf(rs[i]) in Found(rs) && Found(rs)[KeyOf(rs[i])] == FiltersOf(rs[i])
    {
      if i < n - 1 { EarlierOpener(rs, i); } else { OpenerTaken(rs); }
    }
    forall key | key in Found(rs) ensures exists i: nat :: i < n && Opens(rs, i) && KeyOf(rs[i]) == key {
      var i := OpenerOf(rs, key);
    }
  }

  lemma OpenerOf(rs: seq<Request>, key: string) returns (i: nat)
    requires |rs| >= 2 && rs[|rs| - 2].snap == rs[|rs| - 1].snap && key in Found(rs)
    requires HoldsKeys(rs[..|rs| - 1], Found(rs[..|rs| - 1]))
    requires HoldsOpeners(rs[..|rs| - 1], Found(rs[..|rs| - 1]))
    ensures i < |rs| - 1 && Opens(rs, i) && KeyOf(rs[i]) == key
  {
    var init := rs[..|rs| - 1];
    OpenerTaken(rs);
    if key in Found(init) {
      i :| i < |init| - 1 && Opens(init, i) && KeyOf(init[i]) == key;
      OpensLater(rs);
    } else {
      i := |rs| - 2;
    }
  }

  /** The last but one request finds its page taken exactly when it opens an entry. */
  lemma OpenerTaken(rs: seq<Request>)
    requires |rs| >= 2 && rs[|rs| - 2].snap == rs[|rs| - 1].snap
    requires HoldsKeys(rs[..|rs| - 1], Found(rs[..|rs| - 1]))
    ensures var r, was := rs[|rs| - 2], Found(rs[..|rs| - 1]);
            && Found(rs) == (if Opens(rs, |rs| - 2) then was[KeyOf(r) := FiltersOf(r)] else was)
            && (Opens(rs, |rs| - 2) ==> KeyOf(r) !in was)
  {
    OpensLater(rs);
    FoundGrows(rs);
    OpensWhenTaken(rs, Found(rs[..|rs| - 1]));
  }

  /** What an earlier request opened is still there. */
  lemma EarlierOpener(rs: seq<Request>, i: nat)
    requires |rs| >= 2 && rs[|rs| - 2].snap == rs[|rs| - 1].snap && i < |rs| - 2 && Opens(rs, i)
    requires HoldsKeys(rs[..|rs| - 1], Found(rs[..|rs| - 1]))
    requires HoldsOpeners(rs[..|rs| - 1], Found(rs[..|rs| - 1]))
    ensures KeyOf(rs[i]) in Found(rs) && Found(rs)[KeyOf(rs[i])] == FiltersOf(rs[i])
  {
    OpensLater(rs);
    OpenerTaken(rs);
    var init := rs[..|rs| - 1];
    assert init[i] == rs[i] && Opens(init, i);
  }

  lemma {:induction false} FoundIsExplained(rs: seq<Request>)
    requires rs != []
    ensures HoldsKeys(rs, Found(rs)) && HoldsOpeners(rs, Found(rs))
  {
    var n := |rs| - 1;
    if n > 0 && rs[n - 1].snap == rs[n].snap {
      FoundIsExplained(rs[..n]);
      KeysStep(rs);
      OpenersStep(rs);
    } else if n > 0 {
      forall i: nat | i < n ensures !SameSnapshot(rs, i) { assert rs[n - 1].snap != rs[n].snap; }
    }
  }

  /** Some earlier request opened the last request's key for other filters. */
  ghost predicate Shadowed(rs: seq<Request>)
    requires rs != []
  {
    var r := rs[|rs| - 1];
    && Cacheable(r)
    && exists i: nat :: i < |rs| - 1 && Opens(rs, i) && KeyOf(rs[i]) == KeyOf(r) && FiltersOf(rs[i]) != FiltersOf(r)
  }

  /** A reply is the page of its own filters, under every template, if and only if
      no earlier request opened its key for other filters. */
  lemma ReplyIsFreshIff(rs: seq<Request>)
    requires rs != []
    ensures (forall render: Renderer :: ReplyIsFresh(render, rs)) <==> !Shadowed(rs)
  {
    FreshIffAnswered(rs);
    FoundIsExplained(rs);
  }

  ghost predicate DrawnFrom(rs: seq<Request>, allowed: iset<Filters>) {
    forall i :: 0 <= i < |rs| ==> FiltersOf(rs[i]) in allowed
  }

  ghost predicate KeysTellApart(allowed: iset<Filters>) {
    forall f, g :: f in allowed && g in allowed && Key(f.tag, f.size) == Key(g.tag, g.size) ==> f == g
  }

  /** Requests whose keys tell their filters apart always get their own page. */
  lemma DistinctKeysStayFresh(render: Renderer, rs: seq<Request>, allowed: iset<Filters>)
    requires rs != [] && DrawnFrom(rs, allowed) && KeysTellApart(allowed)
    ensures ReplyIsFresh(render, rs)
  {
    ReplyIsFreshIff(rs);
  }

  /** Any two filter pairs with one key: the second gets the first one's page. */
  lemma SharedKeyServesWrongPage(snap: Snapshot, f: Filters, g: Filters) returns (rs: seq<Request>)
    requires f != g && Key(f.tag, f.size) == Key(g.tag, g.size)
    ensures rs == [Request(snap, Ask(f.tag, f.size, "")), Request(snap, Ask(g.tag, g.size, ""))]
    ensures !forall render: Renderer :: ReplyIsFresh(render, rs)
  {
    rs := [Request(snap, Ask(f.tag, f.size, "")), Request(snap, Ask(g.tag, g.size, ""))];
    assert KeysBefore(rs, 0) == {};
    assert SameSnapshot(rs, 0);
    assert Opens(rs, 0) && FiltersOf(rs[0]) == f && FiltersOf(rs[1]) == g;
    ReplyIsFreshIff(rs);
  }

  /** The cache law: over a vocabulary of filters, every reply of every sequence of
      requests and snapshot swaps is a fresh render for the request's own filters,
      under every template, if and only if no two filters of it share a key. */
  lemma CacheLawIff(snap: Snapshot, allowed: iset<Filters>)
    ensures (forall render: Renderer, rs: seq<Request> :: rs != [] && DrawnFrom(rs, allowed) ==> ReplyIsFresh(render, rs))
            <==> KeysTellApart(allowed)
  {
    if KeysTellApart(allowed) {
      forall render: Renderer, rs: seq<Request> | rs != [] && DrawnFrom(rs, allowed)
        ensures ReplyIsFresh(render, rs)
      {
        DistinctKeysStayFresh(render, rs, allowed);
      }
    } else {
      var f, g :| f in allowed && g in allowed && Key(f.tag, f.size) == Key(g.tag, g.size) && f != g;
      var rs := SharedKeyServesWrongPage(snap, f, g);
      var render: Renderer :| !ReplyIsFresh(render, rs);
      assert DrawnFrom(rs, allowed);
    }
  }

  /** No tag asked for contains the unit separator. */
  ghost predicate PlainTags(rs: seq<Request>) {
    forall i :: 0 <= i < |rs| ==> '\U{1F}' !in rs[i].ask.tag
  }

  lemma PlainIsAnswered(rs: seq<Request>)
    requires rs != [] && PlainTags(rs)
    ensures Answered(rs) == FiltersOf(rs[|rs| - 1])
  {
    forall render: Renderer ensures ReplyIsFresh(render, rs) { EveryReplyIsFresh(render, rs); }
    FreshIffAnswered(rs);
  }

  /** In particular, whenever no tag contains the separator. */
  lemma EveryReplyIsFresh(render: Renderer, rs: seq<Request>)
    requires rs != [] && PlainTags(rs)
    ensures ReplyIsFresh(render, rs)
  {
    var plain := iset f: Filters | SEPARATOR !in f.tag;
    forall f, g | f in plain && g in plain && Key(f.tag, f.size) == Key(g.tag, g.size) ensures f == g {
      PlainKeysDiffer(f.tag, f.size, g.tag, g.size);
    }
    DistinctKeysStayFresh(render, rs, plain);
  }

  /** And a separator in a tag always has a partner that shares its key. */
  lemma SeparatorInTagServesWrongPage(snap: Snapshot, left: string, right: string, size: string)
    returns (rs: seq<Request>)
    ensures rs == [Request(snap, Ask(left, right + [SEPARATOR] + size, "")),
                   Request(snap, Ask(left + [SEPARATOR] + right, size, ""))]
    ensures !forall render: Renderer :: ReplyIsFresh(render, rs)
  {
    var f, g := Filters(left, right + [SEPARATOR] + size), Filters(left + [SEPARATOR] + right, size);
    assert Key(f.tag, f.size) == Key(g.tag, g.size);
    rs := SharedKeyServesWrongPage(snap, f, g);
  }
}
