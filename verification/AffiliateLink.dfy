/** From a click to the partner and back: the rendered affiliate link carries
    exactly the click token and the product URL, and the postback that returns
    the token is queued for exactly that click. */
module AffiliateLink {
  import opened Metrics
  import opened Bytes
  import opened UrlCodec
  import opened Query
  import opened Links
  import opened ClickTokens
  import opened Pipeline

  /** The link an item's click leads to. */
  function OutboundUrl(productUrl: Text, campaign: Text, template: Text, token: Text): Text {
    Rendered(template, LinkVars(productUrl, token, campaign))
  }

  /** A template tail that passes the token under one key and the encoded URL
      under another; with the keys subid and ulp it reads
      "?subid={subid}&ulp={url_enc}". */
  function Tail(tokenKey: Text, urlKey: Text): Text {
    ['?'] + (tokenKey + (['='] + (Source(Hole("subid")) + (['&'] + (urlKey + (['='] + Source(Hole("url_enc"))))))))
  }

  lemma {:induction false} RenderText(text: Text, rest: Text, vars: LinkVars)
    requires '{' !in text
    ensures Rendered(text + rest, vars) == text + Rendered(rest, vars)
  {
    if text == [] {
      assert text + rest == rest;
    } else {
      assert text + rest == [text[0]] + (text[1..] + rest);
      RenderPlain(text[0], text[1..] + rest, vars);
      RenderText(text[1..], rest, vars);
      assert [text[0]] + text[1..] == text;
      Assoc([text[0]], text[1..], Rendered(rest, vars));
    }
  }

  lemma RenderLastHole(name: Text, vars: LinkVars)
    requires '}' !in name
    ensures Rendered(Source(Hole(name)), vars) == Meaning(Hole(name), vars)
  {
    var hole := Source(Hole(name));
    assert hole + [] == hole;
    RenderHole(name, [], vars);
    assert Meaning(Hole(name), vars) + [] == Meaning(Hole(name), vars);
  }

  lemma RenderField(mark: Byte, key: Text, rest: Text, vars: LinkVars)
    requires mark != '{' && '{' !in key
    ensures Rendered([mark] + (key + (['='] + rest)), vars) == [mark] + (key + (['='] + Rendered(rest, vars)))
  {
    RenderPlain(mark, key + (['='] + rest), vars);
    RenderText(key, ['='] + rest, vars);
    RenderPlain('=', rest, vars);
  }

  lemma KnownHoles(vars: LinkVars)
    ensures Meaning(Hole("subid"), vars) == vars.subid
    ensures Meaning(Hole("url_enc"), vars) == Encoded(vars.url)
  {}

  lemma RenderTail(tokenKey: Text, urlKey: Text, vars: LinkVars)
    requires '{' !in tokenKey && '{' !in urlKey
    ensures Rendered(Tail(tokenKey, urlKey), vars) ==
            ['?'] + (tokenKey + (['='] + (vars.subid + (['&'] + (urlKey + (['='] + Encoded(vars.url)))))))
  {
    var last := Source(Hole("url_enc"));
    var field := ['&'] + (urlKey + (['='] + last));
    KnownHoles(vars);
    RenderLastHole("url_enc", vars);
    RenderField('&', urlKey, last, vars);
    RenderHole("subid", field, vars);
    RenderField('?', tokenKey, Source(Hole("subid")) + field, vars);
    assert Tail(tokenKey, urlKey) == ['?'] + (tokenKey + (['='] + (Source(Hole("subid")) + field)));
  }

  lemma Base62IsPlain(token: Text)
    requires forall i :: 0 <= i < |token| ==> IsBase62(token[i])
    ensures Encoded(token) == token && IsBytes(token)
  {
    assert forall i :: 0 <= i < |token| ==> IsUnreserved(token[i]);
    UnreservedIsFixed(token);
  }

  /** The tail without its question mark is an encoded query of two pairs. */
  lemma TailIsQuery(tokenKey: Text, urlKey: Text, token: Text, url: Text)
    requires PlainKey(tokenKey) && PlainKey(urlKey) && Encoded(token) == token
    ensures tokenKey + (['='] + (token + (['&'] + (urlKey + (['='] + Encoded(url)))))) ==
            QueryText([Pair(tokenKey, token)] + [Pair(urlKey, url)])
  {
    var a, b := Pair(tokenKey, token), Pair(urlKey, url);
    QueryTextCons(a, [b]);
    QueryTextOne(b);
    PlainPair(tokenKey, token);
    PlainPair(urlKey, url);
    var rest := ['&'] + PairText(b);
    Assoc(tokenKey + (['='] + token), ['&'], PairText(b));
    Assoc(tokenKey, ['='] + token, rest);
    Assoc(['='], token, rest);
  }

  lemma TwoPairs(a: Pair, b: Pair)
    ensures LastWins(map[], [a] + [b]) == map[a.key := a.value][b.key := b.value]
  {
    LastWinsCons(map[], a, [b]);
    LastWinsOne(map[a.key := a.value], b);
  }

  /** For every product URL and every base62 token, the partner reads back exactly
      that token and that URL, and nothing else. */
  lemma AffiliateLinkRoundTrip(prefix: Text, tokenKey: Text, urlKey: Text,
                               url: Text, token: Text, campaign: Text)
    requires PlainKey(tokenKey) && PlainKey(urlKey)
    requires IsBytes(url) && forall i :: 0 <= i < |token| ==> IsBase62(token[i])
    requires Closed(prefix) && '?' !in Rendered(prefix, LinkVars(url, token, campaign))
    ensures var target := SplitTarget(OutboundUrl(url, campaign, prefix + Tail(tokenKey, urlKey), token));
            && target.path == Rendered(prefix, LinkVars(url, token, campaign))
            && Parsed(target.query, map[]) == map[tokenKey := token][urlKey := url]
  {
    var a, b := Pair(tokenKey, token), Pair(urlKey, url);
    LinkText(prefix, tokenKey, urlKey, url, token, campaign);
    Base62IsPlain(token);
    SplitAtMark(Rendered(prefix, LinkVars(url, token, campaign)), QueryText([a] + [b]));
    PlainIsBytes(tokenKey);
    PlainIsBytes(urlKey);
    TwoPairsRead(a, b);
  }

  lemma LinkText(prefix: Text, tokenKey: Text, urlKey: Text, url: Text, token: Text, campaign: Text)
    requires PlainKey(tokenKey) && PlainKey(urlKey) && Closed(prefix)
    requires forall i :: 0 <= i < |token| ==> IsBase62(token[i])
    ensures OutboundUrl(url, campaign, prefix + Tail(tokenKey, urlKey), token) ==
            Rendered(prefix, LinkVars(url, token, campaign)) +
            (['?'] + QueryText([Pair(tokenKey, token)] + [Pair(urlKey, url)]))
  {
    var vars := LinkVars(url, token, campaign);
    RenderConcat(prefix, Tail(tokenKey, urlKey), vars);
    RenderTail(tokenKey, urlKey, vars);
    Base62IsPlain(token);
    TailIsQuery(tokenKey, urlKey, token, url);
  }

  lemma PlainIsBytes(key: Text)
    requires PlainKey(key)
    ensures IsBytes(key)
  {}

  lemma TwoPairsRead(a: Pair, b: Pair)
    requires BytePair(a) && BytePair(b)
    ensures Parsed(QueryText([a] + [b]), map[]) == map[a.key := a.value][b.key := b.value]
  {
    QueryRoundTrip([a] + [b]);
    TwoPairs(a, b);
  }

  /** The parameters of a postback as a network sends them. */
  function PostbackPairs(token: Text, order: Text, amount: Text, status: Text, sign: Text): seq<Pair> {
    [Pair("subid", token)] + ([Pair("order", order)] + ([Pair("amount", amount)] +
      ([Pair("status", status)] + [Pair("sign", sign)])))
  }

  lemma PostbackParams(token: Text, order: Text, amount: Text, status: Text, sign: Text)
    requires IsBytes(token) && IsBytes(order) && IsBytes(amount) && IsBytes(status) && IsBytes(sign)
    ensures Parsed(QueryText(PostbackPairs(token, order, amount, status, sign)), map[]) ==
            map["subid" := token]["order" := order]["amount" := amount]["status" := status]["sign" := sign]
  {
    var ps := PostbackPairs(token, order, amount, status, sign);
    assert BytePairs(ps);
    QueryRoundTrip(ps);
    var d := [Pair("status", status)] + [Pair("sign", sign)];
    var c := [Pair("amount", amount)] + d;
    var m1: Params := map["subid" := token];
    var m2 := m1["order" := order];
    var m3 := m2["amount" := amount];
    LastWinsCons(map[], Pair("subid", token), [Pair("order", order)] + c);
    LastWinsCons(m1, Pair("order", order), c);
    LastWinsCons(m2, Pair("amount", amount), d);
    LastWinsCons(m3, Pair("status", status), [Pair("sign", sign)]);
    LastWinsOne(m3["status" := status], Pair("sign", sign));
  }

  lemma StatusIsBytes(status: Text)
    requires ValidStatus(status)
    ensures IsBytes(status)
  {}

  lemma PostbackQueued(secret: Text, token: Text, order: Text, amount: Text, kopecks: int, status: Text, now: int)
    requires secret != "" && token != "" && ValidStatus(status)
    ensures var q := map["subid" := token]["order" := order]["amount" := amount]["status" := status]["sign" := secret];
            HandlePostback(secret, q, Some(kopecks), now) ==
            Queued(Conversion(token, now, order, Some(kopecks), status, ""))
  {
    assert "subid"[0] == 's' && "order"[0] == 'o' && "amount"[0] == 'a' && "sign"[1] == 'i' && "status"[1] == 't';
  }

  /** The token a partner reads off the link, sent back in a signed postback, is
      queued as the token of the click, with order, amount and status as sent. */
  lemma FunnelCloses(prefix: Text, tokenKey: Text, urlKey: Text, url: Text, token: Text, campaign: Text,
                     secret: Text, order: Text, amount: Text, kopecks: int, status: Text, now: int)
    requires PlainKey(tokenKey) && PlainKey(urlKey) && tokenKey != urlKey
    requires IsBytes(url) && IsClickToken(token)
    requires Closed(prefix) && '?' !in Rendered(prefix, LinkVars(url, token, campaign))
    requires secret != "" && IsBytes(secret) && IsBytes(order) && IsBytes(amount) && ValidStatus(status)
    ensures var link := OutboundUrl(url, campaign, prefix + Tail(tokenKey, urlKey), token);
            var seen := Parsed(SplitTarget(link).query, map[]);
            && tokenKey in seen
            && var sent := Parsed(QueryText(PostbackPairs(seen[tokenKey], order, amount, status, secret)), map[]);
               HandlePostback(secret, sent, Some(kopecks), now) ==
               Queued(Conversion(token, now, order, Some(kopecks), status, ""))
  {
    AffiliateLinkRoundTrip(prefix, tokenKey, urlKey, url, token, campaign);
    Base62IsPlain(token);
    StatusIsBytes(status);
    PostbackParams(token, order, amount, status, secret);
    PostbackQueued(secret, token, order, amount, kopecks, status, now);
  }
}
