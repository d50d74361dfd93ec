/** Dispatch: which handler a request reaches, and that the URLs the pages print
    come back to the handler, item and position they were printed for. */
module Routes {
  import opened Metrics
  import opened Bytes
  import opened UrlCodec
  import opened Query
  import opened Decimal

  datatype Verb = Get | Post | OtherVerb

  datatype Handler =
    | FeedPage(q: Params)
    | ItemPage(id: int, position: Option<int>)
    | RedirectOut(id: int, position: Option<int>)
    | BadId
    | StaticFile(rel: Text)
    | MediaFile(rel: Text)
    | Beacon
    | PostbackCall(q: Params)
    | Health
    | NotFound

  /** The listing position carried in the query, if it is a number. */
  function Position(q: Params): Option<int> {
    if "p" in q then
      match ParseInt(q["p"])
      case Some(p) => Some(Wrap32(p))
      case None => None
    else None
  }

  /** The deployment prefix is removed from paths that start with it. */
  function StripBase(base: Text, path: Text): Text {
    var p := if base != [] && base <= path then path[|base|..] else path;
    if p == [] then "/" else p
  }

  function Route(base: Text, verb: Verb, target: Text): Handler {
    var t := SplitTarget(target);
    RoutePath(verb, StripBase(base, t.path), Parsed(t.query, map[]))
  }

  function RoutePath(verb: Verb, p: Text, q: Params): Handler {
    if verb == Get && p == "/" then FeedPage(q)
    else if verb == Get && "/item/" <= p then
      match ParseInt(p[6..])
      case Some(id) => ItemPage(id, Position(q))
      case None => BadId
    else if verb == Get && "/r/" <= p then
      match ParseInt(p[3..])
      case Some(id) => RedirectOut(id, Position(q))
      case None => BadId
    else if verb == Get && "/static/" <= p then StaticFile(p[8..])
    else if verb == Get && "/media/" <= p then MediaFile(p[7..])
    else if verb == Post && p == "/api/ev" then Beacon
    else if verb == Get && p == "/cpa/postback" then PostbackCall(q)
    else if verb == Get && p == "/healthz" then Health
    else NotFound
  }

  /** The links printed for an item. */
  function ItemUrl(base: Text, id: int): Text { base + "/item/" + ToString(id) }

  function CardUrl(base: Text, id: int, position: int): Text {
    ItemUrl(base, id) + "?p=" + ToString(position)
  }

  function OutUrl(base: Text, id: int, position: int): Text {
    base + "/r/" + ToString(id) + "?p=" + ToString(position)
  }

  /** A query has a position exactly when its parameter p is a 64-bit integer; it is
      cut to 32 bits. */
  lemma PositionIff(q: Params, position: int)
    ensures Position(q) == Some(position) <==>
            "p" in q && exists v :: ParseInt(q["p"]) == Some(v) && position == Wrap32(v)
  {
    if "p" in q && ParseInt(q["p"]).Some? {
      var v := ParseInt(q["p"]).value;
      assert ParseInt(q["p"]) == Some(v);
    }
  }

  // ----------------------------------------------------------- round trip --

  lemma StripOwnBase(base: Text, rest: Text)
    requires rest != []
    ensures StripBase(base, base + rest) == rest
  {
    assert (base + rest)[|base|..] == rest;
    if base == [] {
      assert base + rest == rest;
    } else {
      assert (base + rest)[..|base|] == base;
    }
  }

  lemma PrintedIsPlain(v: int)
    ensures Encoded(ToString(v)) == ToString(v) && IsBytes(ToString(v)) && '?' !in ToString(v)
  {
    IntAlphabet(v);
    UnreservedIsFixed(ToString(v));
  }

  lemma ReadsNumber(key: Text, v: int)
    requires PlainKey(key)
    ensures Parsed(key + (['='] + ToString(v)), map[]) == map[key := ToString(v)]
  {
    var p := Pair(key, ToString(v));
    PrintedIsPlain(v);
    PlainPair(key, ToString(v));
    QueryTextOne(p);
    QueryRoundTrip([p]);
    LastWinsOne(map[], p);
  }

  lemma ReadsPosition(position: int)
    requires INT32_MIN <= position <= INT32_MAX
    ensures Position(Parsed("p=" + ToString(position), map[])) == Some(position)
  {
    assert "p=" + ToString(position) == "p" + (['='] + ToString(position));
    ReadsNumber("p", position);
    IntRoundTrip(position);
  }

  lemma RouteSplit(base: Text, rest: Text, query: Text)
    requires '?' !in base && '?' !in rest && rest != []
    ensures Route(base, Get, (base + rest) + (['?'] + query)) == RoutePath(Get, rest, Parsed(query, map[]))
  {
    SplitAtMark(base + rest, query);
    StripOwnBase(base, rest);
  }

  lemma RouteItem(id: int, q: Params)
    requires INT64_MIN <= id <= INT64_MAX
    ensures RoutePath(Get, "/item/" + ToString(id), q) == ItemPage(id, Position(q))
  {
    var p := "/item/" + ToString(id);
    assert |p| >= 6 && p[6..] == ToString(id) && p[..6] == "/item/";
    IntRoundTrip(id);
  }

  lemma RouteOut(id: int, q: Params)
    requires INT64_MIN <= id <= INT64_MAX
    ensures RoutePath(Get, "/r/" + ToString(id), q) == RedirectOut(id, Position(q))
  {
    var p := "/r/" + ToString(id);
    assert |p| >= 3 && p[3..] == ToString(id) && p[..3] == "/r/" && p[1] == 'r';
    IntRoundTrip(id);
  }

  lemma NoMarkInPath(prefix: Text, id: int)
    requires '?' !in prefix
    ensures '?' !in prefix + ToString(id)
  {
    PrintedIsPlain(id);
  }

  /** A card link leads back to its item page and position. */
  lemma CardLinkRoundTrip(base: Text, id: int, position: int)
    requires '?' !in base && INT64_MIN <= id <= INT64_MAX && INT32_MIN <= position <= INT32_MAX
    ensures Route(base, Get, CardUrl(base, id, position)) == ItemPage(id, Some(position))
  {
    var query := "p=" + ToString(position);
    NoMarkInPath("/item/", id);
    RouteSplit(base, "/item/" + ToString(id), query);
    Assoc(base, "/item/", ToString(id));
    MarkText(ItemUrl(base, id), position);
    RouteItem(id, Parsed(query, map[]));
    ReadsPosition(position);
  }

  /** An outbound link leads back to the redirect of its item and position. */
  lemma OutLinkRoundTrip(base: Text, id: int, position: int)
    requires '?' !in base && INT64_MIN <= id <= INT64_MAX && INT32_MIN <= position <= INT32_MAX
    ensures Route(base, Get, OutUrl(base, id, position)) == RedirectOut(id, Some(position))
  {
    var query := "p=" + ToString(position);
    NoMarkInPath("/r/", id);
    RouteSplit(base, "/r/" + ToString(id), query);
    Assoc(base, "/r/", ToString(id));
    MarkText(base + "/r/" + ToString(id), position);
    RouteOut(id, Parsed(query, map[]));
    ReadsPosition(position);
  }

  lemma MarkText(path: Text, position: int)
    ensures path + "?p=" + ToString(position) == path + (['?'] + ("p=" + ToString(position)))
  {
    assert "?p=" == ['?'] + "p=";
  }

  // -------------------------------------------------------- fixed routes --

  /** A request for a path under the prefix, with or without a query. */
  lemma RouteUnderBase(base: Text, verb: Verb, path: Text, query: Text)
    requires '?' !in base && '?' !in path && path != []
    ensures Route(base, verb, base + path) == RoutePath(verb, path, map[])
    ensures Route(base, verb, (base + path) + (['?'] + query)) == RoutePath(verb, path, Parsed(query, map[]))
  {
    SplitWithoutMark(base + path);
    SplitAtMark(base + path, query);
    StripOwnBase(base, path);
  }

  /** A path that does not start with the prefix is taken as it is, and the prefix
      alone is the feed. */
  lemma RouteElsewhere(base: Text, verb: Verb, path: Text, query: Text)
    requires '?' !in path && '?' !in base
    ensures !(base <= path) && path != [] ==>
              Route(base, verb, path + (['?'] + query)) == RoutePath(verb, path, Parsed(query, map[]))
    ensures Route(base, Get, base + (['?'] + query)) == FeedPage(Parsed(query, map[]))
  {
    SplitAtMark(path, query);
    SplitAtMark(base, query);
  }

  /** Which handler a request reaches; what reaches none of them is not found. */
  lemma RouteTable(verb: Verb, p: Text, q: Params)
    ensures RoutePath(verb, p, q) == FeedPage(q) <==> verb == Get && p == "/"
    ensures RoutePath(verb, p, q).Beacon? <==> verb == Post && p == "/api/ev"
    ensures RoutePath(verb, p, q) == PostbackCall(q) <==> verb == Get && p == "/cpa/postback"
    ensures RoutePath(verb, p, q).Health? <==> verb == Get && p == "/healthz"
    ensures RoutePath(verb, p, q).StaticFile? <==> verb == Get && "/static/" <= p
    ensures RoutePath(verb, p, q).MediaFile? <==> verb == Get && "/media/" <= p
    ensures var r := RoutePath(verb, p, q);
            r.ItemPage? || r.RedirectOut? || r.BadId? <==> verb == Get && ("/item/" <= p || "/r/" <= p)
    ensures var r := RoutePath(verb, p, q);
            (r.FeedPage? ==> r.q == q) && (r.PostbackCall? ==> r.q == q)
  {
    assert "/healthz"[1] == 'h' && "/cpa/postback"[1] == 'c' && "/api/ev"[1] == 'a';
    assert "/item/"[1] == 'i' && "/r/"[1] == 'r' && "/static/"[1] == 's' && "/media/"[1] == 'm' && |"/"| == 1;
  }

  /** Files by what follows their directory; an id that is no integer is refused. */
  lemma TailRoutes(rest: Text, q: Params)
    ensures RoutePath(Get, "/static/" + rest, q) == StaticFile(rest)
    ensures RoutePath(Get, "/media/" + rest, q) == MediaFile(rest)
    ensures RoutePath(Get, "/item/" + rest, q).BadId? <==> ParseInt(rest).None?
    ensures RoutePath(Get, "/r/" + rest, q).BadId? <==> ParseInt(rest).None?
  {
    TailAt("/static/", rest);
    TailAt("/media/", rest);
    TailAt("/item/", rest);
    TailAt("/r/", rest);
  }

  lemma TailAt(head: Text, rest: Text)
    ensures head <= head + rest && (head + rest)[|head|..] == rest
    ensures |head| > 1 ==> (head + rest)[1] == head[1]
  {}
}
