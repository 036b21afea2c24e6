/**
 Listing the Discover feed page by page: the merge of the loaded sources, the
 cursor a page ends with, and the proof that following the cursors yields the
 ranked feed with nothing skipped or repeated.
 */
module DiscoverPaging {
  import opened Wrappers
  import opened Ordering
  import opened DiscoverRanking

  const SOURCES := 6
  const MAX_INTERESTS := 10
  const MAX_ENGAGEMENT := 1_000_000_000
  const MAX_TIME_MS := 8_640_000_000_000_000
  const CURSOR_VERSION := 2

  datatype Error = InvalidCursor | OtherInterests

  datatype Page = Page(items: seq<Ranked>, nextCursor: Option<Cursor>)

  predicate ValidTime(t: int) { -MAX_TIME_MS <= t <= MAX_TIME_MS }

  predicate ValidId(id: ItemId, source: Source) { source < SOURCES && id.prefix == Some(source) }

  /** What normalisation guarantees of an item. */
  predicate Normal(item: Item) {
    && ValidId(item.id, item.source)
    && (item.engagement.Some? ==> 0 <= item.engagement.value <= MAX_ENGAGEMENT)
    && (item.publishedAt.Some? ==> ValidTime(item.publishedAt.value)) && ValidTime(item.fetchedAt)
  }

  // ---- Merging the sources ----

  predicate Selected(item: Item, category: Option<nat>, source: Option<Source>) {
    && (category.Some? ==> item.category == category.value)
    && (source.Some? ==> item.source == source.value)
  }

  /** An item is listed if it is selected and the first selected one with its id. */
  predicate FirstSelected(loaded: seq<Item>, k: nat, category: Option<nat>, source: Option<Source>)
    requires k < |loaded|
  {
    && Selected(loaded[k], category, source)
    && forall j | 0 <= j < k :: Selected(loaded[j], category, source) ==> loaded[j].id != loaded[k].id
  }

  ghost predicate OnceEach(items: seq<Item>) { forall i, j | 0 <= i < j < |items| :: items[i].id != items[j].id }

  ghost predicate IsFirst(loaded: seq<Item>, x: Item, category: Option<nat>, source: Option<Source>) {
    exists k :: 0 <= k < |loaded| && loaded[k] == x && FirstSelected(loaded, k, category, source)
  }

  /** The merged items: the selected ones, each id once, in the order of their first occurrences. */
  function Merge(loaded: seq<Item>, category: Option<nat>, source: Option<Source>): (unique: seq<Item>)
  {
    if loaded == [] then [] else
      var unique, item := Merge(loaded[..|loaded| - 1], category, source), loaded[|loaded| - 1];
      if Selected(item, category, source) && forall u | u in unique :: u.id != item.id then unique + [item] else unique
  }

  /** The merge keeps exactly the first selected item of each id, and no id twice. */
  lemma {:induction false} MergeMeaning(loaded: seq<Item>, category: Option<nat>, source: Option<Source>)
    ensures
      var unique := Merge(loaded, category, source);
      OnceEach(unique) && (forall x :: x in unique <==> IsFirst(loaded, x, category, source))
  {
    if loaded != [] {
      var init, last := loaded[..|loaded| - 1], loaded[|loaded| - 1];
      MergeMeaning(init, category, source);
      LastIsFirst(loaded, init, category, source);
      hide FirstSelected;
      forall x ensures x in Merge(loaded, category, source) <==> IsFirst(loaded, x, category, source) {
        FirstsGrow(loaded, x, category, source);
      }
    }
  }

  lemma FirstsGrow(loaded: seq<Item>, x: Item, category: Option<nat>, source: Option<Source>)
    requires loaded != []
    ensures IsFirst(loaded, x, category, source) <==>
      IsFirst(loaded[..|loaded| - 1], x, category, source)
      || (x == loaded[|loaded| - 1] && FirstSelected(loaded, |loaded| - 1, category, source))
  {
    var n := |loaded| - 1;
    var init := loaded[..n];
    forall k | 0 <= k < n
      ensures FirstSelected(init, k, category, source) == FirstSelected(loaded, k, category, source)
    {
      assert forall j | 0 <= j < k :: init[j] == loaded[j];
    }
    if IsFirst(init, x, category, source) {
      var k :| 0 <= k < n && init[k] == x && FirstSelected(init, k, category, source);
      assert loaded[k] == x && FirstSelected(loaded, k, category, source);
    }
    if IsFirst(loaded, x, category, source) {
      var k :| 0 <= k < |loaded| && loaded[k] == x && FirstSelected(loaded, k, category, source);
      if k < n { assert init[k] == x && FirstSelected(init, k, category, source); }
    }
  }

  /** An id is new to the merge exactly if no earlier selected item has it. */
  lemma LastIsFirst(loaded: seq<Item>, init: seq<Item>, category: Option<nat>, source: Option<Source>)
    requires loaded != [] && init == loaded[..|loaded| - 1]
    requires forall x :: x in Merge(init, category, source) <==> IsFirst(init, x, category, source)
    ensures
      var last := loaded[|loaded| - 1];
      FirstSelected(loaded, |loaded| - 1, category, source) <==>
        Selected(last, category, source) && forall u | u in Merge(init, category, source) :: u.id != last.id
  {
    var n := |loaded| - 1;
    var last := loaded[n];
    hide Merge;
    if FirstSelected(loaded, n, category, source) {
      forall u | u in Merge(init, category, source) ensures u.id != last.id {
        var k :| 0 <= k < |init| && init[k] == u && FirstSelected(init, k, category, source);
        assert loaded[k] == u;
      }
    } else if Selected(last, category, source) {
      var j :| 0 <= j < n && Selected(loaded[j], category, source) && loaded[j].id == last.id;
      assert init[j] == loaded[j];
      FirstWith(init, j, category, source);
      var k :| 0 <= k < |init| && init[k].id == init[j].id && FirstSelected(init, k, category, source);
      assert IsFirst(init, init[k], category, source);
    }
  }

  /** Some selected item is the first with the id of a selected one. */
  lemma {:induction false} FirstWith(loaded: seq<Item>, j: nat, category: Option<nat>, source: Option<Source>)
    requires j < |loaded| && Selected(loaded[j], category, source)
    ensures exists k :: 0 <= k < |loaded| && loaded[k].id == loaded[j].id && FirstSelected(loaded, k, category, source)
  {
    if !FirstSelected(loaded, j, category, source) {
      var i :| 0 <= i < j && Selected(loaded[i], category, source) && loaded[i].id == loaded[j].id;
      FirstWith(loaded, i, category, source);
    }
  }

  /** The loop over all loaded items; a map of the server keeps the order in which its keys were added. */
  method UniqueItems(loaded: seq<Item>, category: Option<nat>, source: Option<Source>) returns (unique: seq<Item>)
    ensures unique == Merge(loaded, category, source)
    ensures OnceEach(unique) && forall x :: x in unique <==> IsFirst(loaded, x, category, source)
  {
    unique := [];
    var seen: set<ItemId> := {};
    for n := 0 to |loaded|
      invariant unique == Merge(loaded[..n], category, source)
      invariant forall id :: id in seen <==> exists u :: u in unique && u.id == id
    {
      assert loaded[..n + 1][..n] == loaded[..n];
      var item := loaded[n];
      if Selected(item, category, source) && item.id !in seen {
        unique := unique + [item];
        seen := seen + {item.id};
      }
    }
    assert loaded[..|loaded|] == loaded;
    MergeMeaning(loaded, category, source);
  }

  /** Different ids have different places in the collation order. */
  ghost predicate PlacesAreIds(loaded: seq<Item>) {
    forall a, b | a in loaded && b in loaded && a.id.position == b.id.position :: a.id == b.id
  }

  /** What the sources loaded: normalised items, and a user's stored list of interests. */
  ghost predicate Loadable(loaded: seq<Item>, interests: seq<Tag>) {
    (forall i | i in loaded :: Normal(i)) && PlacesAreIds(loaded) && |interests| <= MAX_INTERESTS
  }

  // ---- Cursors ----

  function EncodeCursor(r: Ranked, interests: seq<Tag>): Cursor {
    Cursor(CURSOR_VERSION, interests, interests != [], |r.matchedInterests|, r.recencyBand, r.engagementValue,
           r.clearValue, r.sortAt, r.item.source, r.item.id)
  }

  function DecodeCursor(c: Cursor): Result<Cursor, Error> {
    if && c.version == CURSOR_VERSION
       && 0 <= c.interestMatches <= MAX_INTERESTS
       && 0 <= c.recencyBand <= 3
       && 0 <= c.engagementValue <= MAX_ENGAGEMENT
       && ValidTime(c.sortAt)
       && ValidId(c.id, c.source)
    then Ok(c) else Err(InvalidCursor)
  }

  /** A cursor compares like the item it was made from. */
  lemma CursorComparesAsItem(left: Ranked, r: Ranked, interests: seq<Tag>, personalized: bool)
    ensures CompareRankedItems(left, OfCursor(EncodeCursor(r, interests)), personalized)
         == CompareRankedItems(left, OfItem(r), personalized)
  {}

  // ---- GET /discover ----

  function AfterCursor(sorted: seq<Ranked>, c: Cursor, personalized: bool): (rest: seq<Ranked>)
    ensures |rest| <= |sorted|
  {
    if sorted == [] then [] else
      (if CompareRankedItems(sorted[0], OfCursor(c), personalized) > 0 then [sorted[0]] else [])
      + AfterCursor(sorted[1..], c, personalized)
  }

  function FirstPage(after: seq<Ranked>, interests: seq<Tag>, limit: Limit): Page {
    var page := after[..Min(limit, |after|)];
    Page(page, if |after| > limit && page != [] then Some(EncodeCursor(page[|page| - 1], interests)) else None)
  }

  /** The page of a feed of unique items. */
  function ListItems(items: seq<Item>, interests: seq<Tag>, cursor: Option<Cursor>, limit: Limit): Result<Page, Error> {
    var personalized := interests != [];
    if cursor.Some? && DecodeCursor(cursor.value).Err? then Err(InvalidCursor)
    else if cursor.Some? && (cursor.value.interestHash != interests || cursor.value.personalized != personalized)
    then Err(OtherInterests)
    else
      var sorted := RankDiscoverItems(items, interests);
      var after := if cursor.Some? then AfterCursor(sorted, cursor.value, personalized) else sorted;
      Ok(FirstPage(after, interests, limit))
  }

  /** The size of a page. */
  type Limit = n: int | 0 < n witness 1

  datatype Query = Query(category: Option<nat>, source: Option<Source>, limit: Limit)

  /** One request: the loaded items are merged and ranked, and one page of them is sent. */
  function ListDiscover(
    loaded: seq<Item>, interests: seq<Tag>, query: Query, cursor: Option<Cursor>): Result<Page, Error> {
    ListItems(Merge(loaded, query.category, query.source), interests, cursor, query.limit)
  }

  lemma {:induction false} AfterLater(sorted: seq<Ranked>, r: Ranked, interests: seq<Tag>, personalized: bool)
    requires forall s | s in sorted :: Before(r, s, personalized)
    ensures AfterCursor(sorted, EncodeCursor(r, interests), personalized) == sorted
  {
    if sorted != [] {
      CursorComparesAsItem(sorted[0], r, interests, personalized);
      CompareAntisymmetric(sorted[0], r, personalized);
      AfterLater(sorted[1..], r, interests, personalized);
    }
  }

  /** The items after the cursor of the k-th item are exactly the items behind it in the feed. */
  lemma {:induction false} AfterIsRest(sorted: seq<Ranked>, k: nat, interests: seq<Tag>, personalized: bool)
    requires StrictlySorted(sorted, RankOrder(personalized)) && k < |sorted|
    ensures AfterCursor(sorted, EncodeCursor(sorted[k], interests), personalized) == sorted[k + 1..]
  {
    CursorComparesAsItem(sorted[0], sorted[k], interests, personalized);
    CompareAntisymmetric(sorted[0], sorted[k], personalized);
    if k == 0 {
      forall s | s in sorted[1..] ensures Before(sorted[0], s, personalized) {
        assert RankOrder(personalized)(sorted[0], s);
      }
      AfterLater(sorted[1..], sorted[0], interests, personalized);
      CompareAntisymmetric(sorted[0], sorted[0], personalized);
    } else {
      assert RankOrder(personalized)(sorted[0], sorted[k]);
      assert !Before(sorted[k], sorted[0], personalized);
      AfterIsRest(sorted[1..], k - 1, interests, personalized);
      assert sorted[1..][k - 1] == sorted[k] && sorted[1..][k..] == sorted[k + 1..];
    }
  }

  // ---- What the feed is made of ----

  /** Normalised items with distinct ids and a stored list of interests. */
  ghost predicate Listable(items: seq<Item>, interests: seq<Tag>) {
    && DistinctIds(items) && (forall i | i in items :: Normal(i)) && |interests| <= MAX_INTERESTS
  }

  /** The merge of what was loaded can be listed. */
  lemma MergedIsListable(loaded: seq<Item>, interests: seq<Tag>, query: Query)
    requires Loadable(loaded, interests)
    ensures Listable(Merge(loaded, query.category, query.source), interests)
  {
    var unique := Merge(loaded, query.category, query.source);
    MergeMeaning(loaded, query.category, query.source);
    forall x | x in unique ensures x in loaded { assert IsFirst(loaded, x, query.category, query.source); }
    forall i, j | 0 <= i < j < |unique| ensures unique[i].id.position != unique[j].id.position {
      assert unique[i] in loaded && unique[j] in loaded;
    }
    hide Merge, FirstSelected, IsFirst, Normal;
  }

  /** Every cursor the service issues is accepted while the interests stay the same. */
  lemma IssuedCursorIsAccepted(r: Ranked, items: seq<Item>, interests: seq<Tag>)
    requires Listable(items, interests) && r.item in items
    requires r == CreateRankedItem(r.item, interests, LatestTimestamp(items))
    ensures DecodeCursor(EncodeCursor(r, interests)) == Ok(EncodeCursor(r, interests))
  {
    assert Normal(r.item);
  }

  /** The bounds that a cursor of the current version keeps, each of them checked on decoding. */
  predicate WithinBounds(c: Cursor) {
    && c.version == 2 && 0 <= c.interestMatches <= 10 && 0 <= c.recencyBand <= 3
    && 0 <= c.engagementValue <= 1_000_000_000 && -8_640_000_000_000_000 <= c.sortAt <= 8_640_000_000_000_000
    && c.source < 6 && c.id.prefix == Some(c.source)
  }

  /** A request is refused exactly for a cursor out of bounds or one issued for other interests; and a
      cursor issued for other interests never passes. */
  lemma OtherInterestsAreRefused(
    r: Ranked, loaded: seq<Item>, before: seq<Tag>, interests: seq<Tag>, query: Query, cursor: Option<Cursor>)
    ensures
      var answer := ListDiscover(loaded, interests, query, cursor);
      && (answer == Err(InvalidCursor) <==> cursor.Some? && !WithinBounds(cursor.value))
      && (cursor.Some? && WithinBounds(cursor.value) ==>
            (answer == Err(OtherInterests)
             <==> cursor.value.interestHash != interests || cursor.value.personalized != (interests != [])))
      && (cursor.None? ==> answer.Ok?)
    ensures before != interests ==> ListDiscover(loaded, interests, query, Some(EncodeCursor(r, before))).Err?
  {
    hide Merge, RankDiscoverItems, AfterCursor, FirstPage;
  }

  // ---- Reading to the end ----

  /** The pages of a client that follows the cursors for at most the given number of requests;
      None if a request fails or the requests run out. */
  ghost function Read(
    loaded: seq<Item>, interests: seq<Tag>, query: Query, cursor: Option<Cursor>, requests: nat): Option<seq<Ranked>>
    decreases requests
  {
    var r := ListDiscover(loaded, interests, query, cursor);
    if r.Err? || requests == 0 then None
    else if r.value.nextCursor.None? then Some(r.value.items)
    else
      var rest := Read(loaded, interests, query, r.value.nextCursor, requests - 1);
      if rest.None? then None else Some(r.value.items + rest.value)
  }

  /** The cursor that leads to what follows the first k items. */
  ghost function CursorAt(sorted: seq<Ranked>, k: nat, interests: seq<Tag>): Option<Cursor>
    requires k <= |sorted|
  {
    if k == 0 then None else Some(EncodeCursor(sorted[k - 1], interests))
  }

  /** One page from any position: the next items in order, and a cursor to the position behind them
      unless nothing is left. */
  lemma PageFrom(items: seq<Item>, interests: seq<Tag>, k: nat, limit: Limit)
    requires Listable(items, interests) && k <= |items|
    ensures |RankDiscoverItems(items, interests)| == |items|
    ensures
      var sorted := RankDiscoverItems(items, interests);
      var next := Min(k + limit, |items|);
      ListItems(items, interests, CursorAt(sorted, k, interests), limit)
        == Ok(Page(sorted[k..next], if next < |items| then CursorAt(sorted, next, interests) else None))
  {
    hide FirstPage, CreateRankedItem, EncodeCursor, DecodeCursor, AfterCursor, RankDiscoverItems, StrictlySorted,
         Normal;
    SortedIsCreated(items, interests);
    var sorted := RankDiscoverItems(items, interests);
    FirstPageFrom(sorted, interests, k, limit);
    if k > 0 {
      AfterIsRest(sorted, k - 1, interests, interests != []);
      assert sorted[k - 1] in sorted;
      IssuedCursorIsAccepted(sorted[k - 1], items, interests);
      CursorCarriesInterests(sorted[k - 1], interests);
    } else {
      assert sorted[0..] == sorted;
    }
  }

  lemma CursorCarriesInterests(r: Ranked, interests: seq<Tag>)
    ensures EncodeCursor(r, interests).interestHash == interests
    ensures EncodeCursor(r, interests).personalized <==> interests != []
  {}

  lemma FirstPageFrom(sorted: seq<Ranked>, interests: seq<Tag>, k: nat, limit: Limit)
    requires k <= |sorted|
    ensures
      var next := Min(k + limit, |sorted|);
      FirstPage(sorted[k..], interests, limit)
        == Page(sorted[k..next], if next < |sorted| then CursorAt(sorted, next, interests) else None)
  {
    var next := Min(k + limit, |sorted|);
    assert sorted[k..][..next - k] == sorted[k..next];
  }

  /** The pages that n items fill; without items there is still one, empty page. */
  function PagesNeeded(n: nat, limit: Limit): (pages: nat)
    ensures pages > 0
  {
    if n <= limit then 1 else 1 + PagesNeeded(n - limit, limit)
  }

  /** No more pages than needed: all but the last are full. */
  lemma {:induction false} PagesAreFull(n: nat, limit: Limit)
    ensures n <= PagesNeeded(n, limit) * limit && (n > 0 ==> (PagesNeeded(n, limit) - 1) * limit < n)
  {
    if n > limit {
      var rest := PagesNeeded(n - limit, limit);
      PagesAreFull(n - limit, limit);
      assert (rest + 1) * limit == rest * limit + limit && rest * limit == (rest - 1) * limit + limit;
    }
  }

  /** The whole feed of a query. */
  function Feed(loaded: seq<Item>, interests: seq<Tag>, query: Query): seq<Ranked> {
    RankDiscoverItems(Merge(loaded, query.category, query.source), interests)
  }

  /** The page a request for the rows behind the first k is sent. */
  lemma ListFrom(loaded: seq<Item>, interests: seq<Tag>, query: Query, k: nat)
    requires Loadable(loaded, interests) && k <= |Feed(loaded, interests, query)|
    ensures
      var sorted := Feed(loaded, interests, query);
      var next := Min(k + query.limit, |sorted|);
      ListDiscover(loaded, interests, query, CursorAt(sorted, k, interests))
        == Ok(Page(sorted[k..next], if next < |sorted| then CursorAt(sorted, next, interests) else None))
  {
    var items := Merge(loaded, query.category, query.source);
    hide RankDiscoverItems, Merge, ListItems, Loadable, CursorAt, DistinctIds, Normal, CreateRankedItem;
    MergedIsListable(loaded, interests, query);
    SortedIsCreated(items, interests);
    PageFrom(items, interests, k, query.limit);
  }

  /** Reading from position k takes one request per started page and yields the rest of the feed. */
  lemma {:induction false} ReadFrom(loaded: seq<Item>, interests: seq<Tag>, query: Query, k: nat, requests: nat)
    requires Loadable(loaded, interests)
    requires k <= |Feed(loaded, interests, query)|
    requires requests >= PagesNeeded(|Feed(loaded, interests, query)| - k, query.limit)
    ensures
      var sorted := Feed(loaded, interests, query);
      Read(loaded, interests, query, CursorAt(sorted, k, interests), requests) == Some(sorted[k..])
    decreases requests
  {
    hide Loadable, Feed, ListDiscover;
    var sorted := Feed(loaded, interests, query);
    var next := Min(k + query.limit, |sorted|);
    ListFrom(loaded, interests, query, k);
    if next < |sorted| {
      ReadFrom(loaded, interests, query, next, requests - 1);
      assert sorted[k..] == sorted[k..next] + sorted[next..];
    } else {
      assert sorted[k..next] == sorted[k..];
    }
  }

  /** The feed is in the order of the items' own keys, seen from the newest of them, and each entry is
      shown with its matches and reasons. */
  ghost predicate FeedAt(feed: seq<Ranked>, interests: seq<Tag>, latest: int) {
    && 0 <= latest && (forall r | r in feed :: KeyOf(r.item, [], latest).date <= latest)
    && (latest == 0 || exists r :: r in feed && KeyOf(r.item, [], latest).date == latest)
    && (forall i, j | 0 <= i < j < |feed| :: ComesFirst(feed[i].item, feed[j].item, interests, latest))
    && (forall r | r in feed :: ShownWith(r, interests, latest))
  }

  lemma RankedFeedAt(items: seq<Item>, interests: seq<Tag>)
    requires DistinctIds(items)
    ensures exists latest :: FeedAt(RankDiscoverItems(items, interests), interests, latest)
    ensures forall x :: IsRanked(RankDiscoverItems(items, interests), x) <==> x in items
  {
    hide RankDiscoverItems, LatestTimestamp, KeyOf, ComesFirst, ShownWith, DistinctIds;
    var latest, feed := LatestTimestamp(items), RankDiscoverItems(items, interests);
    LatestMeaning(items, latest);
    FeedMeaning(items, interests, latest);
    forall x ensures IsRanked(feed, x) <==> x in items {
      if x in items {
        var i :| 0 <= i < |feed| && feed[i].item == x;
        assert feed[i] in feed;
      }
    }
    if latest != 0 {
      var x :| x in items && KeyOf(x, [], latest).date == latest;
      var i :| 0 <= i < |feed| && feed[i].item == x;
      assert feed[i] in feed && KeyOf(feed[i].item, [], latest).date == latest;
    }
    assert FeedAt(feed, interests, latest);
  }

  /** Paging from no cursor until there is none ends and yields the whole ranked feed of the loaded
      items, in order, with nothing skipped or repeated: one entry for each id selected. */
  lemma PagingReadsTheFeed(loaded: seq<Item>, interests: seq<Tag>, query: Query)
    requires Loadable(loaded, interests)
    ensures
      var sorted := Feed(loaded, interests, query);
      && Read(loaded, interests, query, None, PagesNeeded(|sorted|, query.limit)) == Some(sorted)
      && (exists latest :: FeedAt(sorted, interests, latest))
      && (forall x :: IsRanked(sorted, x) <==> IsFirst(loaded, x, query.category, query.source))
  {
    hide FirstSelected, Merge, RankDiscoverItems, StrictlySorted, Read, Loadable, Listable, IsFirst, IsRanked, Feed,
         FeedAt;
    var sorted := Feed(loaded, interests, query);
    NoCursorAtFirst(sorted, interests);
    ReadFrom(loaded, interests, query, 0, PagesNeeded(|sorted|, query.limit));
    assert sorted[0..] == sorted;
    FeedIsMerged(loaded, interests, query);
  }

  lemma NoCursorAtFirst(sorted: seq<Ranked>, interests: seq<Tag>)
    ensures CursorAt(sorted, 0, interests) == None
  {}

  ghost predicate IsRanked(sorted: seq<Ranked>, x: Item) { exists r :: r in sorted && r.item == x }

  /** The feed is in order and ranks exactly the first selected item of each id. */
  lemma FeedIsMerged(loaded: seq<Item>, interests: seq<Tag>, query: Query)
    requires Loadable(loaded, interests)
    ensures exists latest :: FeedAt(Feed(loaded, interests, query), interests, latest)
    ensures forall x :: IsRanked(Feed(loaded, interests, query), x) <==>
      IsFirst(loaded, x, query.category, query.source)
  {
    MergedIsListable(loaded, interests, query);
    MergeMeaning(loaded, query.category, query.source);
    hide FirstSelected, Merge, RankDiscoverItems, IsFirst, IsRanked, Normal, FeedAt;
    RankedFeedAt(Merge(loaded, query.category, query.source), interests);
    var latest :| FeedAt(RankDiscoverItems(Merge(loaded, query.category, query.source), interests), interests, latest);
    assert FeedAt(Feed(loaded, interests, query), interests, latest);
  }
}
