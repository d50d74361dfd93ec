/** The immutable catalog snapshot: feed order, indexes, tag list and paging, each
    proved against its naive form. Scores are real numbers. */
module Catalog {
  import opened Metrics
  import opened Selections

  datatype Image = Image(id: int, path: string, thumbPath: string, width: int, height: int, sortOrder: int)
  datatype Color = Color(name: string, hex: string)

  datatype Item = Item(
    id: int,
    title: string,
    description: string,
    brand: string,
    priceKopek: int,
    oldPriceKopek: Option<int>,
    currency: string,
    partnerId: int,
    productUrl: string,
    campaign: string,
    score: real,
    images: seq<Image>,
    tags: seq<string>,
    sizes: seq<string>,
    colors: seq<Color>,
    publishedAt: Option<int>)

  datatype Partner = Partner(id: int, code: string, title: string, linkTemplate: string, enabled: bool)

  // ---------------------------------------------------------- feed order --

  /** What the comparator looks at. */
  datatype Rank = Rank(score: real, published: int)

  function RankOf(it: Item): Rank {
    Rank(it.score, if it.publishedAt.Some? then it.publishedAt.value else 0)
  }

  /** The comparator: higher score first, then later publication. */
  predicate Precedes(a: Rank, b: Rank) {
    if a.score != b.score then a.score > b.score else a.published > b.published
  }

  ghost predicate InFeedOrder(s: seq<Item>) {
    forall i, j :: 0 <= i < j < |s| ==> !Precedes(RankOf(s[j]), RankOf(s[i]))
  }

  /** Scores fall along the feed, and within a score times of publication, where an
      unpublished item counts as published at the epoch. */
  lemma FeedOrderIff(s: seq<Item>)
    ensures InFeedOrder(s) <==>
            forall i, j :: 0 <= i < j < |s| ==>
              || s[i].score > s[j].score
              || (s[i].score == s[j].score && PublishedAt(s[i]) >= PublishedAt(s[j]))
  {
    assert forall i, j :: 0 <= i < j < |s| ==>
      (!Precedes(RankOf(s[j]), RankOf(s[i])) <==>
       s[i].score > s[j].score || (s[i].score == s[j].score && PublishedAt(s[i]) >= PublishedAt(s[j])));
  }

  function PublishedAt(it: Item): int { if it.publishedAt.Some? then it.publishedAt.value else 0 }

  /** The items of one rank, in their order. */
  function WithRank(s: seq<Item>, r: Rank): seq<Item> {
    if s == [] then []
    else (if RankOf(s[0]) == r then [s[0]] else []) + WithRank(s[1..], r)
  }

  /** Ordered, and items of equal rank keep their relative order. */
  ghost predicate StableSortOf(input: seq<Item>, out: seq<Item>) {
    InFeedOrder(out) && forall r :: WithRank(out, r) == WithRank(input, r)
  }

  lemma {:induction false} WithRankConcat(a: seq<Item>, b: seq<Item>, r: Rank)
    ensures WithRank(a + b, r) == WithRank(a, r) + WithRank(b, r)
  {
    if a == [] {
      assert a + b == b;
    } else {
      assert (a + b)[1..] == a[1..] + b;
      WithRankConcat(a[1..], b, r);
    }
  }

  lemma {:induction false} NoneOfRank(s: seq<Item>, r: Rank)
    requires forall i :: 0 <= i < |s| ==> RankOf(s[i]) != r
    ensures WithRank(s, r) == []
  {
    if s != [] { NoneOfRank(s[1..], r); }
  }

  lemma WithRankOne(x: Item, r: Rank)
    ensures WithRank([x], r) == if RankOf(x) == r then [x] else []
  {
    assert WithRank([x][1..], r) == [];
  }

  lemma {:induction false} HasRank(s: seq<Item>, i: nat)
    requires i < |s|
    ensures WithRank(s, RankOf(s[i])) != []
  {
    if i > 0 { HasRank(s[1..], i - 1); }
  }

  lemma {:induction false} RankIsThere(s: seq<Item>, r: Rank)
    requires WithRank(s, r) != []
    ensures exists i :: 0 <= i < |s| && RankOf(s[i]) == r
  {
    if RankOf(s[0]) != r {
      RankIsThere(s[1..], r);
      var i :| 0 <= i < |s[1..]| && RankOf(s[1..][i]) == r;
      assert RankOf(s[i + 1]) == r;
    }
  }

  /** There is only one stable sort of an input. */
  lemma {:induction false} StableSortUnique(a: seq<Item>, b: seq<Item>)
    requires InFeedOrder(a) && InFeedOrder(b)
    requires forall r :: WithRank(a, r) == WithRank(b, r)
    ensures a == b
    decreases |a|
  {
    if a == [] {
      if b != [] { HasRank(b, 0); }
    } else {
      HasRank(a, 0);
      RankIsThere(b, RankOf(a[0]));
      FirstRank(a, b);
      FirstRank(b, a);
      assert a[0] == WithRank(a, RankOf(a[0]))[0] == WithRank(b, RankOf(b[0]))[0] == b[0];
      forall r ensures WithRank(a[1..], r) == WithRank(b[1..], r) {
        TailRanks(a, b, r);
      }
      StableSortUnique(a[1..], b[1..]);
      assert a == [a[0]] + a[1..] && b == [b[0]] + b[1..];
    }
  }

  lemma TailRanks(a: seq<Item>, b: seq<Item>, r: Rank)
    requires a != [] && b != [] && a[0] == b[0] && WithRank(a, r) == WithRank(b, r)
    ensures WithRank(a[1..], r) == WithRank(b[1..], r)
  {
    if RankOf(a[0]) == r {
      assert WithRank(a[1..], r) == WithRank(a, r)[1..];
      assert WithRank(b[1..], r) == WithRank(b, r)[1..];
    } else {
      assert WithRank(a[1..], r) == WithRank(a, r);
      assert WithRank(b[1..], r) == WithRank(b, r);
    }
  }

  lemma FirstRank(a: seq<Item>, b: seq<Item>)
    requires a != [] && InFeedOrder(b) && forall r :: WithRank(a, r) == WithRank(b, r)
    ensures b != [] && !Precedes(RankOf(a[0]), RankOf(b[0]))
  {
    HasRank(a, 0);
    RankIsThere(b, RankOf(a[0]));
    var i :| 0 <= i < |b| && RankOf(b[i]) == RankOf(a[0]);
  }

  /** Inserts an item behind everything that does not come after it. */
  method InsertStable(s: seq<Item>, x: Item) returns (out: seq<Item>)
    requires InFeedOrder(s)
    ensures InFeedOrder(out)
    ensures forall r :: WithRank(out, r) == WithRank(s + [x], r)
    ensures multiset(out) == multiset(s) + multiset{x}
  {
    var j := 0;
    while j < |s| && !Precedes(RankOf(x), RankOf(s[j]))
      invariant 0 <= j <= |s|
      invariant forall k :: 0 <= k < j ==> !Precedes(RankOf(x), RankOf(s[k]))
    {
      j := j + 1;
    }
    out := s[..j] + [x] + s[j..];
    InsertedInOrder(s, x, j);
    forall r ensures WithRank(out, r) == WithRank(s + [x], r) { InsertedStably(s, x, j, r); }
    assert s == s[..j] + s[j..];
  }

  lemma InsertedInOrder(s: seq<Item>, x: Item, j: nat)
    requires InFeedOrder(s) && j <= |s|
    requires forall k :: 0 <= k < j ==> !Precedes(RankOf(x), RankOf(s[k]))
    requires j < |s| ==> Precedes(RankOf(x), RankOf(s[j]))
    ensures InFeedOrder(s[..j] + [x] + s[j..])
  {}

  /** Nothing behind the insertion point ties with the new item. */
  lemma NoneBehind(s: seq<Item>, x: Item, j: nat)
    requires InFeedOrder(s) && j <= |s|
    requires j < |s| ==> Precedes(RankOf(x), RankOf(s[j]))
    ensures WithRank(s[j..], RankOf(x)) == []
  {
    forall k | 0 <= k < |s[j..]| ensures RankOf(s[j..][k]) != RankOf(x) {
      assert s[j..][k] == s[j + k];
    }
    NoneOfRank(s[j..], RankOf(x));
  }

  lemma InsertedStably(s: seq<Item>, x: Item, j: nat, r: Rank)
    requires InFeedOrder(s) && j <= |s|
    requires j < |s| ==> Precedes(RankOf(x), RankOf(s[j]))
    ensures WithRank(s[..j] + [x] + s[j..], r) == WithRank(s + [x], r)
  {
    if r == RankOf(x) { NoneBehind(s, x, j); }
    SlipPast(s[..j], x, s[j..], r);
    assert s == s[..j] + s[j..];
  }

  /** An item may slip past items of other ranks. */
  lemma SlipPast(a: seq<Item>, x: Item, b: seq<Item>, r: Rank)
    requires r == RankOf(x) ==> WithRank(b, r) == []
    ensures WithRank(a + [x] + b, r) == WithRank(a + b + [x], r)
  {
    WithRankConcat(a + [x], b, r);
    WithRankConcat(a, [x], r);
    WithRankConcat(a + b, [x], r);
    WithRankConcat(a, b, r);
    WithRankOne(x, r);
  }

  method StableSort(items: seq<Item>) returns (out: seq<Item>)
    ensures StableSortOf(items, out) && multiset(out) == multiset(items)
  {
    out := [];
    var i := 0;
    while i < |items|
      invariant 0 <= i <= |items|
      invariant StableSortOf(items[..i], out) && multiset(out) == multiset(items[..i])
    {
      ghost var before := out;
      out := InsertStable(out, items[i]);
      assert items[..i + 1] == items[..i] + [items[i]];
      forall r ensures WithRank(out, r) == WithRank(items[..i + 1], r) {
        WithRankConcat(before, [items[i]], r);
        WithRankConcat(items[..i], [items[i]], r);
      }
      i := i + 1;
    }
    assert items[..i] == items;
  }

  /** The order of the SELECT: score descending, then publication descending with
      NULL last. */
  predicate SelectOrder(a: Item, b: Item) {
    if a.score != b.score then a.score > b.score
    else match (a.publishedAt, b.publishedAt)
         case (Some(p), Some(q)) => p >= q
         case (None, Some(_)) => false
         case (_, None) => true
  }

  ghost predicate InSelectOrder(s: seq<Item>) {
    forall i, j :: 0 <= i < j < |s| ==> SelectOrder(s[i], s[j])
  }

  /** The SELECT puts NULL behind a time before the epoch, the comparator reads
      NULL as the epoch. */
  ghost predicate NegativeBeforeNull(s: seq<Item>) {
    exists i, j :: 0 <= i < j < |s| && s[i].score == s[j].score &&
      s[i].publishedAt.Some? && s[i].publishedAt.value < 0 && s[j].publishedAt.None?
  }

  /** On rows in SELECT order the sort changes nothing, if and only if no row
      published before the epoch stands before an unpublished one of its score. */
  lemma SortKeepsSelectOrder(rows: seq<Item>, out: seq<Item>)
    requires InSelectOrder(rows) && StableSortOf(rows, out)
    ensures out == rows <==> !NegativeBeforeNull(rows)
  {
    if !NegativeBeforeNull(rows) {
      forall i, j | 0 <= i < j < |rows| ensures !Precedes(RankOf(rows[j]), RankOf(rows[i])) {
        assert SelectOrder(rows[i], rows[j]);
      }
      StableSortUnique(out, rows);
    } else {
      var i, j :| 0 <= i < j < |rows| && rows[i].score == rows[j].score &&
        rows[i].publishedAt.Some? && rows[i].publishedAt.value < 0 && rows[j].publishedAt.None?;
      assert Precedes(RankOf(rows[j]), RankOf(rows[i]));
    }
  }

  // ------------------------------------------------------------- indexes --

  function FindItem(items: seq<Item>, id: int): Option<Item> {
    if items == [] then None
    else if items[0].id == id then Some(items[0])
    else FindItem(items[1..], id)
  }

  function FindPartner(partners: seq<Partner>, id: int): Option<Partner> {
    if partners == [] then None
    else if partners[0].id == id then Some(partners[0])
    else FindPartner(partners[1..], id)
  }

  /** The index maps each id to its first position. */
  ghost predicate FirstPositions(ids: seq<int>, index: map<int, nat>) {
    && (forall i :: 0 <= i < |ids| ==> ids[i] in index)
    && forall id :: id in index ==>
         index[id] < |ids| && ids[index[id]] == id && forall k :: 0 <= k < index[id] ==> ids[k] != id
  }

  method BuildIndex(ids: seq<int>) returns (index: map<int, nat>)
    ensures FirstPositions(ids, index)
  {
    index := map[];
    var i := 0;
    while i < |ids|
      invariant 0 <= i <= |ids| && FirstPositions(ids[..i], index)
    {
      if ids[i] !in index { index := index[ids[i] := i]; }
      i := i + 1;
    }
    assert ids[..i] == ids;
  }

  function ItemIds(items: seq<Item>): seq<int> { seq(|items|, i requires 0 <= i < |items| => items[i].id) }

  function PartnerIds(partners: seq<Partner>): seq<int> {
    seq(|partners|, i requires 0 <= i < |partners| => partners[i].id)
  }

  lemma {:induction false} FindItemAt(items: seq<Item>, id: int, n: nat)
    requires n <= |items| && (n < |items| ==> items[n].id == id)
    requires forall k :: 0 <= k < n ==> items[k].id != id
    ensures FindItem(items, id) == if n < |items| then Some(items[n]) else None
  {
    if n > 0 { FindItemAt(items[1..], id, n - 1); }
  }

  lemma {:induction false} FindPartnerAt(partners: seq<Partner>, id: int, n: nat)
    requires n <= |partners| && (n < |partners| ==> partners[n].id == id)
    requires forall k :: 0 <= k < n ==> partners[k].id != id
    ensures FindPartner(partners, id) == if n < |partners| then Some(partners[n]) else None
  {
    if n > 0 { FindPartnerAt(partners[1..], id, n - 1); }
  }

  // ------------------------------------------------------------- tag list --

  /** Byte-wise lexicographic order of strings. */
  predicate Less(a: string, b: string) {
    if b == [] then false
    else if a == [] then true
    else if a[0] != b[0] then a[0] < b[0]
    else Less(a[1..], b[1..])
  }

  lemma {:induction false} LessIsTotal(a: string, b: string)
    ensures Less(a, b) || a == b || Less(b, a)
    ensures Less(a, b) ==> !Less(b, a) && a != b
  {
    if a != [] && b != [] && a[0] == b[0] {
      LessIsTotal(a[1..], b[1..]);
      assert a == [a[0]] + a[1..] && b == [b[0]] + b[1..];
    }
  }

  lemma {:induction false} LessTransitive(a: string, b: string, c: string)
    requires Less(a, b) && Less(b, c)
    ensures Less(a, c)
  {
    if a != [] && b[0] == a[0] && c[0] == b[0] { LessTransitive(a[1..], b[1..], c[1..]); }
  }

  /** The order is decided at the first difference; a proper prefix comes first. */
  lemma {:induction false} LessIff(a: string, b: string)
    ensures Less(a, b) <==> exists n: nat :: n <= |a| && n < |b| && a[..n] == b[..n] && (n == |a| || a[n] < b[n])
  {
    if Less(a, b) {
      var n := FirstDifference(a, b);
      assert n <= |a| && n < |b| && a[..n] == b[..n] && (n == |a| || a[n] < b[n]);
    }
    if n: nat :| n <= |a| && n < |b| && a[..n] == b[..n] && (n == |a| || a[n] < b[n]) { LessAt(a, b, n); }
  }

  lemma {:induction false} FirstDifference(a: string, b: string) returns (n: nat)
    requires Less(a, b)
    ensures n <= |a| && n < |b| && a[..n] == b[..n] && (n == |a| || a[n] < b[n])
  {
    if a == [] || a[0] != b[0] {
      n := 0;
    } else {
      var m := FirstDifference(a[1..], b[1..]);
      n := m + 1;
      assert a[..n] == [a[0]] + a[1..][..m] && b[..n] == [b[0]] + b[1..][..m];
    }
  }

  lemma {:induction false} LessAt(a: string, b: string, n: nat)
    requires n <= |a| && n < |b| && a[..n] == b[..n] && (n == |a| || a[n] < b[n])
    ensures Less(a, b)
  {
    if n > 0 {
      assert a[0] == a[..n][0] == b[..n][0] == b[0];
      assert a[1..][..n - 1] == a[..n][1..] && b[1..][..n - 1] == b[..n][1..];
      LessAt(a[1..], b[1..], n - 1);
    }
  }

  ghost predicate StrictlySorted(s: seq<string>) {
    forall i, j :: 0 <= i < j < |s| ==> Less(s[i], s[j])
  }

  /** Insertion into an ordered set. */
  method InsertTag(s: seq<string>, t: string) returns (out: seq<string>)
    requires StrictlySorted(s)
    ensures StrictlySorted(out)
    ensures forall x :: x in out <==> x in s || x == t
  {
    var j := 0;
    while j < |s| && Less(s[j], t)
      invariant 0 <= j <= |s|
      invariant forall k :: 0 <= k < j ==> Less(s[k], t)
    {
      j := j + 1;
    }
    if j < |s| && s[j] == t { return s; }
    out := s[..j] + [t] + s[j..];
    if j < |s| { LessIsTotal(s[j], t); }
    forall k | j <= k < |s| ensures Less(t, s[k]) {
      if j < k { LessTransitive(t, s[j], s[k]); }
    }
    assert s == s[..j] + s[j..];
  }

  method CollectTags(items: seq<Item>) returns (tags: seq<string>)
    ensures StrictlySorted(tags)
    ensures forall t :: t in tags <==> exists i :: 0 <= i < |items| && t in items[i].tags
  {
    tags := [];
    for i := 0 to |items|
      invariant StrictlySorted(tags)
      invariant forall t :: t in tags <==> exists k :: 0 <= k < i && t in items[k].tags
    {
      tags := AddTags(tags, items[i].tags);
    }
  }

  method AddTags(tags: seq<string>, more: seq<string>) returns (out: seq<string>)
    requires StrictlySorted(tags)
    ensures StrictlySorted(out)
    ensures forall t :: t in out <==> t in tags || t in more
  {
    out := tags;
    for j := 0 to |more|
      invariant StrictlySorted(out)
      invariant forall t :: t in out <==> t in tags || t in more[..j]
    {
      out := InsertTag(out, more[j]);
      assert more[..j + 1] == more[..j] + [more[j]];
    }
    assert more[..|more|] == more;
  }

  // ---------------------------------------------------- filter and paging --

  /** Does an item pass the filters? An empty filter passes everything. */
  predicate Passes(it: Item, tag: string, size: string) {
    (tag == "" || tag in it.tags) && (size == "" || size in it.sizes)
  }

  function Filtered(items: seq<Item>, tag: string, size: string): seq<Item> {
    if items == [] then []
    else
      var last := items[|items| - 1];
      Filtered(items[..|items| - 1], tag, size) + if Passes(last, tag, size) then [last] else []
  }

  function Drop(s: seq<Item>, n: nat): seq<Item> { if n <= |s| then s[n..] else [] }

  function Take(s: seq<Item>, n: nat): seq<Item> { if n <= |s| then s[..n] else s }

  /** The loop tests the limit after adding, so a limit of zero acts as one. */
  function Page(s: seq<Item>, offset: nat, limit: nat): seq<Item> {
    Take(Drop(s, offset), if limit == 0 then 1 else limit)
  }

  method QueryItems(items: seq<Item>, tag: string, size: string, offset: nat, limit: nat)
    returns (out: seq<Item>)
    ensures out == Page(Filtered(items, tag, size), offset, limit)
  {
    out := [];
    var skipped := 0;
    var i := 0;
    while i < |items|
      invariant 0 <= i <= |items|
      invariant skipped == |Filtered(items[..i], tag, size)|
      invariant out == Drop(Filtered(items[..i], tag, size), offset)
      invariant out == [] || |out| < limit
    {
      var item := items[i];
      ghost var seen := Filtered(items[..i], tag, size);
      i := i + 1;
      assert items[..i][..i - 1] == items[..i - 1];
      if tag != "" && tag !in item.tags { continue; }
      if size != "" && size !in item.sizes { continue; }
      assert Filtered(items[..i], tag, size) == seen + [item];
      skipped := skipped + 1;
      if skipped - 1 < offset { continue; }
      out := out + [item];
      if |out| >= limit {
        FilteredPrefix(items, i, tag, size);
        return;
      }
    }
    assert items[..i] == items;
  }

  lemma {:induction false} FilteredPrefix(items: seq<Item>, n: nat, tag: string, size: string)
    requires n <= |items|
    ensures Filtered(items[..n], tag, size) <= Filtered(items, tag, size)
    decreases |items|
  {
    if n == |items| {
      assert items[..n] == items;
    } else {
      FilteredPrefix(items[..|items| - 1], n, tag, size);
      assert items[..|items| - 1][..n] == items[..n];
    }
  }

  /** The filtered feed is the passing items at ascending places, none left out. */
  lemma {:induction false} FilteredSelects(items: seq<Item>, tag: string, size: string) returns (at: seq<nat>)
    ensures Selects(items, it => if Passes(it, tag, size) then Some(it) else None, Filtered(items, tag, size), at)
  {
    if items == [] {
      at := [];
    } else {
      var n := |items| - 1;
      at := FilteredSelects(items[..n], tag, size);
      assert items == items[..n] + [items[n]];
      at := SelectsMore(items[..n], items[n], it => if Passes(it, tag, size) then Some(it) else None,
                        Filtered(items[..n], tag, size), at);
    }
  }

  /** The pages at offsets 0, n, 2n, ... */
  function Pages(s: seq<Item>, n: nat, count: nat): seq<Item> {
    if count == 0 then [] else Pages(s, n, count - 1) + Page(s, (count - 1) * n, n)
  }

  /** Consecutive pages concatenate to the feed, without gap or repeat. */
  lemma {:induction false} PagesTile(s: seq<Item>, n: nat, count: nat)
    requires n >= 1
    ensures Pages(s, n, count) == Take(s, count * n)
  {
    if count > 0 {
      PagesTile(s, n, count - 1);
      var k := (count - 1) * n;
      assert count * n == k + n;
      NextPage(s, k, n);
    }
  }

  lemma NextPage(s: seq<Item>, k: nat, n: nat)
    requires n >= 1
    ensures Take(s, k) + Page(s, k, n) == Take(s, k + n)
  {}

  lemma AllPages(s: seq<Item>, n: nat, count: nat)
    requires n >= 1 && count * n >= |s|
    ensures Pages(s, n, count) == s
  {
    PagesTile(s, n, count);
  }

  // ------------------------------------------------------------- snapshot --

  /** An immutable snapshot: all fields are fixed by the constructor. */
  class Snapshot {
    const items: seq<Item>
    const partners: seq<Partner>
    const tags: seq<string>
    const byId: map<int, nat>
    const partnerById: map<int, nat>

    ghost predicate Valid() {
      && FirstPositions(ItemIds(items), byId)
      && FirstPositions(PartnerIds(partners), partnerById)
      && StrictlySorted(tags)
      && forall t :: t in tags <==> exists i :: 0 <= i < |items| && t in items[i].tags
    }

    constructor (items: seq<Item>, partners: seq<Partner>)
      ensures Valid()
      ensures StableSortOf(items, this.items) && multiset(this.items) == multiset(items)
      ensures this.partners == partners
    {
      var sorted := StableSort(items);
      var itemIndex := BuildIndex(ItemIds(sorted));
      var partnerIndex := BuildIndex(PartnerIds(partners));
      var allTags := CollectTags(sorted);
      this.items, this.partners, this.tags := sorted, partners, allTags;
      this.byId, this.partnerById := itemIndex, partnerIndex;
    }

    /** The index agrees with a linear scan, even with repeated ids. */
    method Find(id: int) returns (r: Option<Item>)
      requires Valid()
      ensures r == FindItem(items, id)
    {
      assert forall k :: 0 <= k < |items| ==> ItemIds(items)[k] == items[k].id;
      FindItemAt(items, id, if id in byId then byId[id] else |items|);
      if id !in byId { return None; }
      return Some(items[byId[id]]);
    }

    method PartnerOf(id: int) returns (r: Option<Partner>)
      requires Valid()
      ensures r == FindPartner(partners, id)
    {
      assert forall k :: 0 <= k < |partners| ==> PartnerIds(partners)[k] == partners[k].id;
      FindPartnerAt(partners, id, if id in partnerById then partnerById[id] else |partners|);
      if id !in partnerById { return None; }
      return Some(partners[partnerById[id]]);
    }

    method Query(tag: string, size: string, offset: nat, limit: nat) returns (out: seq<Item>)
      ensures out == Page(Filtered(items, tag, size), offset, limit)
    {
      out := QueryItems(items, tag, size, offset, limit);
    }
  }
}
