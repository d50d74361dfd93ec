/** Loading the published items: one pass over each child table, joined in memory
    through an index, agrees with the relational join. A load reads one fixed
    state of the tables. */
module Loading {
  import opened Metrics
  import opened Selections
  import opened Catalog

  /** A child row: the parent's id and what hangs off it. */
  datatype Child<T> = Child(parent: int, value: T)

  /** The values of one parent, in row order. */
  function ChildrenOf<T>(rows: seq<Child<T>>, parent: int): seq<T> {
    if rows == [] then []
    else
      var last := rows[|rows| - 1];
      ChildrenOf(rows[..|rows| - 1], parent) + if last.parent == parent then [last.value] else []
  }

  /** Hands each row to the first item with its parent id; rows of other parents
      (drafts, archived items) are skipped. */
  method Attach<T>(ids: seq<int>, index: map<int, nat>, rows: seq<Child<T>>) returns (lists: seq<seq<T>>)
    requires FirstPositions(ids, index)
    ensures |lists| == |ids|
    ensures forall i :: 0 <= i < |ids| ==>
              lists[i] == if index[ids[i]] == i then ChildrenOf(rows, ids[i]) else []
  {
    lists := seq(|ids|, _ => []);
    var n := 0;
    while n < |rows|
      invariant 0 <= n <= |rows| && |lists| == |ids|
      invariant forall i :: 0 <= i < |ids| ==>
                  lists[i] == if index[ids[i]] == i then ChildrenOf(rows[..n], ids[i]) else []
    {
      var row := rows[n];
      assert rows[..n + 1][..n] == rows[..n];
      if row.parent in index {
        var j := index[row.parent];
        lists := lists[j := lists[j] + [row.value]];
      }
      n := n + 1;
    }
    assert rows[..n] == rows;
  }

  /** What a row yields for one parent. */
  function ForParent<T>(parent: int): Child<T> -> Option<T> {
    (row: Child<T>) => if row.parent == parent then Some(row.value) else None
  }

  /** The values of a parent stand in the order of its rows, none left out. */
  lemma {:induction false} ChildrenSelect<T>(rows: seq<Child<T>>, parent: int) returns (at: seq<nat>)
    ensures Selects(rows, ForParent(parent), ChildrenOf(rows, parent), at)
  {
    if rows == [] {
      at := [];
    } else {
      var n := |rows| - 1;
      at := ChildrenSelect(rows[..n], parent);
      assert rows == rows[..n] + [rows[n]];
      at := SelectsMore(rows[..n], rows[n], ForParent(parent), ChildrenOf(rows[..n], parent), at);
    }
  }

  lemma {:induction false} ChildrenAre<T>(rows: seq<Child<T>>, parent: int, v: T)
    ensures v in ChildrenOf(rows, parent) <==> exists i :: 0 <= i < |rows| && rows[i] == Child(parent, v)
  {
    if rows != [] {
      var n := |rows| - 1;
      ChildrenAre(rows[..n], parent, v);
      if v in ChildrenOf(rows[..n], parent) {
        var i :| 0 <= i < n && rows[..n][i] == Child(parent, v);
        assert rows[i] == Child(parent, v);
      }
      if exists i :: 0 <= i < |rows| && rows[i] == Child(parent, v) {
        var i :| 0 <= i < |rows| && rows[i] == Child(parent, v);
        if i < n { assert rows[..n][i] == Child(parent, v); }
      }
    }
  }

  // ------------------------------------------------------------ the load --

  /** The answers of the five SELECTs, in row order. */
  datatype Answers = Answers(
    published: seq<Item>,
    images: seq<Child<Image>>,
    tags: seq<Child<string>>,
    sizes: seq<Child<string>>,
    colors: seq<Child<Color>>)

  /** Item ids are the primary key. */
  ghost predicate DistinctIds(items: seq<Item>) {
    forall i, j :: 0 <= i < j < |items| ==> items[i].id != items[j].id
  }

  /** An item with exactly its own child rows. */
  function WithChildren(it: Item, a: Answers): Item {
    it.(images := ChildrenOf(a.images, it.id),
        tags := ChildrenOf(a.tags, it.id),
        sizes := ChildrenOf(a.sizes, it.id),
        colors := ChildrenOf(a.colors, it.id))
  }

  ghost predicate RowsOf<T>(rows: seq<Child<T>>, parent: int, values: seq<T>) {
    exists at :: Selects(rows, ForParent(parent), values, at)
  }

  /** A loaded item is its row, with the values of its own child rows in row order. */
  ghost predicate LoadedFrom(it: Item, row: Item, a: Answers) {
    && it.(images := row.images, tags := row.tags, sizes := row.sizes, colors := row.colors) == row
    && RowsOf(a.images, row.id, it.images) && RowsOf(a.tags, row.id, it.tags)
    && RowsOf(a.sizes, row.id, it.sizes) && RowsOf(a.colors, row.id, it.colors)
  }

  lemma ChildrenAreRows(it: Item, a: Answers)
    ensures LoadedFrom(WithChildren(it, a), it, a)
  {
    var images := ChildrenSelect(a.images, it.id);
    var tags := ChildrenSelect(a.tags, it.id);
    var sizes := ChildrenSelect(a.sizes, it.id);
    var colors := ChildrenSelect(a.colors, it.id);
  }

  method LoadPublishedItems(a: Answers) returns (items: seq<Item>)
    requires DistinctIds(a.published)
    ensures |items| == |a.published|
    ensures forall i :: 0 <= i < |items| ==> items[i] == WithChildren(a.published[i], a)
    ensures forall i :: 0 <= i < |items| ==> LoadedFrom(items[i], a.published[i], a)
  {
    var ids := ItemIds(a.published);
    var index := BuildIndex(ids);
    forall i | 0 <= i < |ids| ensures index[ids[i]] == i {}
    var images := Attach(ids, index, a.images);
    var tags := Attach(ids, index, a.tags);
    var sizes := Attach(ids, index, a.sizes);
    var colors := Attach(ids, index, a.colors);
    items := seq(|ids|, i requires 0 <= i < |ids| =>
      a.published[i].(images := images[i], tags := tags[i], sizes := sizes[i], colors := colors[i]));
    forall i | 0 <= i < |items| ensures LoadedFrom(items[i], a.published[i], a) {
      ChildrenAreRows(a.published[i], a);
    }
  }

  // --------------------------------------------- against the tables --

  datatype Status = Draft | Published | Archived
  datatype ItemRow = ItemRow(item: Item, status: Status)
  datatype TagRow = TagRow(id: int, slug: string)
  datatype ItemTagRow = ItemTagRow(itemId: int, tagId: int)

  datatype SizeRow = SizeRow(itemId: int, size: string)

  datatype Tables = Tables(items: seq<ItemRow>, tags: seq<TagRow>, itemTags: seq<ItemTagRow>, sizes: seq<SizeRow>)

  /** The tag relation of the schema. */
  ghost predicate Tagged(t: Tables, itemId: int, slug: string) {
    exists tagId :: ItemTagRow(itemId, tagId) in t.itemTags && TagRow(tagId, slug) in t.tags
  }

  /** The SELECTs return exactly the published rows, the rows of the tag join and
      the size rows, in whatever order. */
  ghost predicate SelectedFrom(a: Answers, t: Tables) {
    && DistinctIds(a.published)
    && (forall it :: it in a.published <==> ItemRow(it, Published) in t.items)
    && (forall id, slug :: Child(id, slug) in a.tags <==> Tagged(t, id, slug))
    && forall id, size :: Child(id, size) in a.sizes <==> SizeRow(id, size) in t.sizes
  }

  ghost predicate HasId(items: seq<Item>, id: int) {
    exists it :: it in items && it.id == id
  }

  /** The relational reading of a filtered query. */
  ghost predicate Matches(t: Tables, id: int, tag: string, size: string) {
    && (exists it :: ItemRow(it, Published) in t.items && it.id == id)
    && (tag == "" || Tagged(t, id, tag))
    && (size == "" || SizeRow(id, size) in t.sizes)
  }

  lemma {:induction false} FilteredAre(items: seq<Item>, tag: string, size: string, it: Item)
    ensures it in Filtered(items, tag, size) <==> it in items && Passes(it, tag, size)
  {
    if items != [] {
      var n := |items| - 1;
      FilteredAre(items[..n], tag, size, it);
      assert items == items[..n] + [items[n]];
    }
  }

  lemma PassesIff(a: Answers, t: Tables, it: Item, tag: string, size: string)
    requires SelectedFrom(a, t)
    ensures Passes(WithChildren(it, a), tag, size) <==>
            (tag == "" || Tagged(t, it.id, tag)) && (size == "" || SizeRow(it.id, size) in t.sizes)
  {
    ChildrenAre(a.tags, it.id, tag);
    ChildrenAre(a.sizes, it.id, size);
  }

  /** Filtering the snapshot gives exactly the published items that the tables join
      to the tag and the size. */
  lemma FilterIsJoin(t: Tables, a: Answers, loaded: seq<Item>, feed: seq<Item>, tag: string, size: string, id: int)
    requires SelectedFrom(a, t) && |loaded| == |a.published|
    requires forall i :: 0 <= i < |loaded| ==> loaded[i] == WithChildren(a.published[i], a)
    requires multiset(feed) == multiset(loaded)
    ensures HasId(Filtered(feed, tag, size), id) <==> Matches(t, id, tag, size)
  {
    if HasId(Filtered(feed, tag, size), id) {
      var it :| it in Filtered(feed, tag, size) && it.id == id;
      FilteredAre(feed, tag, size, it);
      assert it in multiset(feed);
      var i :| 0 <= i < |loaded| && loaded[i] == it;
      PassesIff(a, t, a.published[i], tag, size);
      assert ItemRow(a.published[i], Published) in t.items;
    }
    if Matches(t, id, tag, size) {
      var it :| ItemRow(it, Published) in t.items && it.id == id;
      assert it in a.published;
      var i :| 0 <= i < |a.published| && a.published[i] == it;
      PassesIff(a, t, it, tag, size);
      assert loaded[i] in multiset(loaded);
      FilteredAre(feed, tag, size, loaded[i]);
    }
  }

  lemma {:induction false} FilteredDistinct(items: seq<Item>, tag: string, size: string)
    requires DistinctIds(items)
    ensures DistinctIds(Filtered(items, tag, size))
  {
    if items != [] {
      var n := |items| - 1;
      FilteredDistinct(items[..n], tag, size);
      forall it | it in Filtered(items[..n], tag, size) ensures it.id != items[n].id {
        FilteredAre(items[..n], tag, size, it);
      }
    }
  }

  lemma {:induction false} FilteredInOrder(items: seq<Item>, tag: string, size: string)
    requires InFeedOrder(items)
    ensures InFeedOrder(Filtered(items, tag, size))
  {
    if items != [] {
      var n := |items| - 1;
      FilteredInOrder(items[..n], tag, size);
      forall it | it in Filtered(items[..n], tag, size) ensures !Precedes(RankOf(items[n]), RankOf(it)) {
        FilteredAre(items[..n], tag, size, it);
      }
    }
  }

  /** Distinct ids survive any reordering. */
  lemma {:induction false} ReorderedDistinct(a: seq<Item>, b: seq<Item>)
    requires DistinctIds(a) && multiset(a) == multiset(b)
    ensures DistinctIds(b)
  {
    forall i, j | 0 <= i < j < |b| ensures b[i].id != b[j].id {
      assert b[i] in multiset(a) && b[j] in multiset(a);
      if b[i] == b[j] {
        TwiceCounts(b, i, j);
        AtMostOnce(a, b[i]);
      }
    }
  }

  lemma TwiceCounts(b: seq<Item>, i: nat, j: nat)
    requires i < j < |b| && b[i] == b[j]
    ensures multiset(b)[b[i]] >= 2
  {
    assert b == b[..j] + b[j..];
    assert b[i] in b[..j] && b[j] in b[j..];
  }

  lemma {:induction false} AtMostOnce(a: seq<Item>, x: Item)
    requires DistinctIds(a)
    ensures multiset(a)[x] <= 1
  {
    if a != [] {
      var n := |a| - 1;
      AtMostOnce(a[..n], x);
      assert a == a[..n] + [a[n]];
      if a[n] == x { assert x !in a[..n]; }
    }
  }

  /** Load, build, query: with no limit pressure the answer names exactly the
      published items joined to the tag and the size, each once and in feed order. */
  method RefreshAndQuery(t: Tables, a: Answers, partners: seq<Partner>, tag: string, size: string, limit: nat)
    returns (out: seq<Item>)
    requires SelectedFrom(a, t) && limit >= |a.published| && limit >= 1
    ensures (forall id :: HasId(out, id) <==> Matches(t, id, tag, size)) && DistinctIds(out) && InFeedOrder(out)
  {
    var loaded := LoadPublishedItems(a);
    var snapshot := new Snapshot(loaded, partners);
    out := snapshot.Query(tag, size, 0, limit);
    SameLength(snapshot.items, loaded);
    FilteredShorter(snapshot.items, tag, size);
    assert out == Filtered(snapshot.items, tag, size);
    assert DistinctIds(loaded);
    ReorderedDistinct(loaded, snapshot.items);
    FilteredDistinct(snapshot.items, tag, size);
    FilteredInOrder(snapshot.items, tag, size);
    forall id ensures HasId(out, id) <==> Matches(t, id, tag, size) {
      FilterIsJoin(t, a, loaded, snapshot.items, tag, size, id);
    }
  }

  lemma SameLength(a: seq<Item>, b: seq<Item>)
    requires multiset(a) == multiset(b)
    ensures |a| == |b|
  {
    assert |multiset(a)| == |a| && |multiset(b)| == |b|;
  }

  lemma FilteredShorter(items: seq<Item>, tag: string, size: string)
    ensures |Filtered(items, tag, size)| <= |items|
  {}
}
