/** The outbound redirect: the click that is logged and the link that is given out
    carry the same token. */
module Redirects {
  import opened Metrics
  import opened Bytes
  import opened Query
  import opened Links
  import opened ClickTokens
  import opened Pipeline
  import opened Catalog
  import opened AffiliateLink
  import Routes

  datatype Reply = NoSuchItem | Found(location: Text, visit: Visit)

  /** `token` is freshly made and `source` is the visit's classified origin. A
      missing or disabled partner falls back to the raw product URL. */
  function HandleRedirect(items: seq<Item>, partners: seq<Partner>, id: int, q: Params,
                          token: Text, source: string): Reply
  {
    match FindItem(items, id)
    case None => NoSuchItem
    case Some(item) =>
      var partner := FindPartner(partners, item.partnerId);
      var visit := Redirect(id, Routes.Position(q), if "s" in q then q["s"] else "feed", token, source);
      var location := if partner.Some? && partner.value.enabled
                      then OutboundUrl(item.productUrl, item.campaign, partner.value.linkTemplate, token)
                      else item.productUrl;
      Found(location, visit)
  }

  /** Through an enabled partner the token that is logged is the token in the
      link, and the link leads to the item's own product page. */
  lemma LinkCarriesLoggedToken(items: seq<Item>, partners: seq<Partner>, id: int, q: Params, token: Text,
                               source: string, item: Item, partner: Partner,
                               prefix: Text, tokenKey: Text, urlKey: Text)
    requires FindItem(items, id) == Some(item)
    requires FindPartner(partners, item.partnerId) == Some(partner) && partner.enabled
    requires partner.linkTemplate == prefix + Tail(tokenKey, urlKey) && Closed(prefix)
    requires PlainKey(tokenKey) && PlainKey(urlKey) && tokenKey != urlKey
    requires IsClickToken(token) && IsBytes(item.productUrl)
    requires '?' !in Rendered(prefix, LinkVars(item.productUrl, token, item.campaign))
    ensures var reply := HandleRedirect(items, partners, id, q, token, source);
            && reply.Found? && reply.visit.item == id
            && var read := Parsed(SplitTarget(reply.location).query, map[]);
               read == map[tokenKey := reply.visit.token, urlKey := item.productUrl]
  {
    AffiliateLinkRoundTrip(prefix, tokenKey, urlKey, item.productUrl, token, item.campaign);
  }

  /** The first of the items, or partners, with an id. */
  ghost predicate FirstItem(items: seq<Item>, id: int, i: nat) {
    i < |items| && items[i].id == id && forall k :: 0 <= k < i ==> items[k].id != id
  }

  ghost predicate FirstPartner(partners: seq<Partner>, id: int, i: nat) {
    i < |partners| && partners[i].id == id && forall k :: 0 <= k < i ==> partners[k].id != id
  }

  /** An id that no item has is refused. */
  lemma UnknownItemIsRefused(items: seq<Item>, partners: seq<Partner>, id: int, q: Params, token: Text, source: string)
    requires forall i :: 0 <= i < |items| ==> items[i].id != id
    ensures HandleRedirect(items, partners, id, q, token, source).NoSuchItem?
  {
    FindItemAt(items, id, |items|);
  }

  /** Any other is logged with the id asked for, the new token, the position and
      surface of the query and the visit's source. */
  lemma RedirectIsLogged(items: seq<Item>, partners: seq<Partner>, id: int, q: Params, token: Text, source: string,
                         i: nat)
    requires FirstItem(items, id, i)
    ensures var reply := HandleRedirect(items, partners, id, q, token, source);
            && reply.Found? && reply.visit.Redirect? && reply.visit.item == id
            && reply.visit.token == token && reply.visit.source == source
            && reply.visit.position == Routes.Position(q)
            && reply.visit.surface == if "s" in q then q["s"] else "feed"
  {
    FindItemAt(items, id, i);
  }

  /** Without an enabled partner it leads to the item's own product page. */
  lemma RawFallback(items: seq<Item>, partners: seq<Partner>, id: int, q: Params, token: Text, source: string,
                    i: nat, p: nat)
    requires FirstItem(items, id, i)
    requires || (forall k :: 0 <= k < |partners| ==> partners[k].id != items[i].partnerId)
             || (FirstPartner(partners, items[i].partnerId, p) && !partners[p].enabled)
    ensures HandleRedirect(items, partners, id, q, token, source).Found?
    ensures HandleRedirect(items, partners, id, q, token, source).location == items[i].productUrl
  {
    FindItemAt(items, id, i);
    if FirstPartner(partners, items[i].partnerId, p) {
      FindPartnerAt(partners, items[i].partnerId, p);
    } else {
      FindPartnerAt(partners, items[i].partnerId, |partners|);
    }
  }

  /** Through an enabled one it follows the partner's template, filled with the
      product URL, the token and the campaign; so the template "{url}" leads to the
      product page as well. */
  lemma PartnerTemplate(items: seq<Item>, partners: seq<Partner>, id: int, q: Params, token: Text, source: string,
                        i: nat, p: nat)
    requires FirstItem(items, id, i) && FirstPartner(partners, items[i].partnerId, p) && partners[p].enabled
    ensures var reply := HandleRedirect(items, partners, id, q, token, source);
            && reply.Found?
            && reply.location == Rendered(partners[p].linkTemplate, LinkVars(items[i].productUrl, token, items[i].campaign))
            && (partners[p].linkTemplate == "{url}" ==> reply.location == items[i].productUrl)
  {
    FindItemAt(items, id, i);
    FindPartnerAt(partners, items[i].partnerId, p);
    var template := partners[p].linkTemplate;
    if template == "{url}" { RenderOnlyUrl(template, LinkVars(items[i].productUrl, token, items[i].campaign)); }
  }
}
