/**
 The part of item normalisation that page cursors rely on: identities, dates and
 engagement values are bounded, or the whole list of items is refused.
 */
module DiscoverNormalization {
  import opened Wrappers
  import opened Ordering
  import opened DiscoverRanking
  import opened DiscoverPaging

  const MAX_SAFE_INTEGER := 9_007_199_254_740_991

  /** A number as a source sends it; a date as text that may or may not be one. */
  datatype Number = Whole(value: int) | Fraction
  datatype DateText = Moment(ms: int) | NotADate
  datatype Engagement = Engagement(known: bool, value: Number)

  datatype RawItem = RawItem(
    id: ItemId, source: Source, category: nat, tags: set<Tag>, engagement: Option<Engagement>,
    rewarded: bool, compensated: bool, publishedAt: Option<DateText>, fetchedAt: DateText)

  predicate IsSafeInteger(n: Number) { n.Whole? && -MAX_SAFE_INTEGER <= n.value <= MAX_SAFE_INTEGER }

  /** A date is finite within the range dates have. */
  function NormalizeDate(d: DateText): Option<int> { if d.Moment? && ValidTime(d.ms) then Some(d.ms) else None }

  predicate AcceptsEngagement(e: Engagement) {
    e.known && IsSafeInteger(e.value) && !(e.value.value < 0) && !(e.value.value > 1_000_000_000)
  }

  /** The normalised item, or none if the item is refused. */
  function NormalizeItem(raw: RawItem, expected: Source): Option<Item> {
    if raw.source != expected || !ValidId(raw.id, raw.source) then None
    else
      var fetched := NormalizeDate(raw.fetchedAt);
      var published := if raw.publishedAt.Some? then NormalizeDate(raw.publishedAt.value) else None;
      if fetched.None? || (raw.publishedAt.Some? && published.None?) then None
      else if raw.engagement.Some? && !AcceptsEngagement(raw.engagement.value) then None
      else
        var engagement := if raw.engagement.Some? then Some(raw.engagement.value.value.value) else None;
        Some(Item(raw.id, raw.source, raw.category, raw.tags, engagement, raw.rewarded, raw.compensated, published,
          fetched.value))
  }

  function Raw(item: Item): RawItem {
    RawItem(item.id, item.source, item.category, item.tags,
            if item.engagement.Some? then Some(Engagement(true, Whole(item.engagement.value))) else None,
            item.rewarded, item.compensated,
            if item.publishedAt.Some? then Some(Moment(item.publishedAt.value)) else None, Moment(item.fetchedAt))
  }

  /** The items a source fetched or the cache holds: one that is refused spoils them all. */
  function NormalizeAll(raws: seq<RawItem>, expected: Source): Option<seq<Item>> {
    if raws == [] then Some([]) else
      var rest, last := NormalizeAll(raws[..|raws| - 1], expected), NormalizeItem(raws[|raws| - 1], expected);
      if rest.None? || last.None? then None else Some(rest.value + [last.value])
  }

  /** A text that is a date within the range dates have. */
  predicate IsDate(d: DateText) { d.Moment? && -8_640_000_000_000_000 <= d.ms <= 8_640_000_000_000_000 }

  /** What an item must have to be listed: one of the six sources, the one it was fetched from, and an id
      that names it; real dates; and an engagement, if any, of a known kind and a whole number up to a billion. */
  predicate Acceptable(raw: RawItem, expected: Source) {
    && raw.source == expected && raw.source < 6 && raw.id.prefix == Some(raw.source)
    && IsDate(raw.fetchedAt) && (raw.publishedAt.Some? ==> IsDate(raw.publishedAt.value))
    && (raw.engagement.Some? ==>
          && raw.engagement.value.known && raw.engagement.value.value.Whole?
          && 0 <= raw.engagement.value.value.value <= 1_000_000_000)
  }

  lemma NormalizeMeaning(raw: RawItem, expected: Source)
    ensures
      var r := NormalizeItem(raw, expected);
      && (r.Some? <==> Acceptable(raw, expected))
      && (r.Some? ==>
            && r.value == Item(raw.id, raw.source, raw.category, raw.tags, r.value.engagement, raw.rewarded,
                               raw.compensated, r.value.publishedAt, raw.fetchedAt.ms)
            && r.value.engagement == (if raw.engagement.None? then None else Some(raw.engagement.value.value.value))
            && r.value.publishedAt == (if raw.publishedAt.None? then None else Some(raw.publishedAt.value.ms)))
  {}

  /** Exactly the items within the bounds of cursors are results of normalisation, and each of them is
      its own. */
  lemma NormalIsNormalized(item: Item)
    ensures Normal(item) <==> exists raw: RawItem, expected: Source :: NormalizeItem(raw, expected) == Some(item)
    ensures Normal(item) ==> NormalizeItem(Raw(item), item.source) == Some(item)
  {
    if Normal(item) { assert NormalizeItem(Raw(item), item.source) == Some(item); }
  }

  /** A list is accepted exactly if each of its items is, and then each becomes what it becomes alone. */
  lemma {:induction false} ListMeaning(raws: seq<RawItem>, expected: Source)
    ensures
      var items := NormalizeAll(raws, expected);
      && (items.Some? <==> forall raw | raw in raws :: Acceptable(raw, expected))
      && (items.Some? ==>
            && |items.value| == |raws|
            && forall i | 0 <= i < |raws| :: NormalizeItem(raws[i], expected) == Some(items.value[i]))
  {
    hide Acceptable, NormalizeItem;
    if raws != [] {
      var init, last := raws[..|raws| - 1], raws[|raws| - 1];
      ListMeaning(init, expected);
      NormalizeMeaning(last, expected);
      assert forall raw :: raw in raws <==> raw in init || raw == last;
    }
  }

  /** Whatever a source sends, the items that reach the feed are normal and of that source; and the cache
      reads back what was stored. */
  lemma {:induction false} LoadedIsNormal(raws: seq<RawItem>, expected: Source)
    ensures
      var items := NormalizeAll(raws, expected);
      items.Some? ==>
        && (forall i | i in items.value :: Normal(i) && i.source == expected)
        && NormalizeAll(Raws(items.value), expected) == items
  {
    if raws != [] {
      var init, last := raws[..|raws| - 1], raws[|raws| - 1];
      LoadedIsNormal(init, expected);
      var items := NormalizeAll(raws, expected);
      if items.Some? {
        var before, item := NormalizeAll(init, expected).value, NormalizeItem(last, expected).value;
        NormalIsNormalized(item);
        assert Raws(items.value) == Raws(before) + [Raw(item)];
        assert (Raws(before) + [Raw(item)])[..|before|] == Raws(before);
      }
    }
  }

  function Raws(items: seq<Item>): (raws: seq<RawItem>)
    ensures |raws| == |items| && forall i | 0 <= i < |items| :: raws[i] == Raw(items[i])
  {
    if items == [] then [] else Raws(items[..|items| - 1]) + [Raw(items[|items| - 1])]
  }

  // ---- From what the sources send to the feed ----

  /** What one source sent, or what the cache held of it. */
  datatype Sent = Sent(source: Source, raws: seq<RawItem>)

  /** The list one source adds to the feed: all its items, or none if one of them is refused. */
  function Accepted(s: Sent): seq<Item> {
    var items := NormalizeAll(s.raws, s.source);
    if items.Some? then items.value else []
  }

  /** The accepted lists, one source after the other. */
  function Load(sent: seq<Sent>): seq<Item> {
    if sent == [] then [] else Load(sent[..|sent| - 1]) + Accepted(sent[|sent| - 1])
  }

  ghost predicate AcceptedFrom(sent: seq<Sent>, x: Item) { exists s :: s in sent && x in Accepted(s) }

  lemma {:induction false} LoadIsAccepted(sent: seq<Sent>, x: Item)
    ensures x in Load(sent) <==> AcceptedFrom(sent, x)
  {
    hide Accepted;
    if sent != [] {
      LoadIsAccepted(sent[..|sent| - 1], x);
      assert forall s :: s in sent <==> s in sent[..|sent| - 1] || s == sent[|sent| - 1];
    }
  }

  /** Some entry of the feed has the item's id. */
  ghost predicate Shown(feed: seq<Ranked>, x: Item) { exists r :: r in feed && r.item.id == x.id }

  /** The query asks for the item: of any or its category, of any or its source. */
  predicate AskedFor(x: Item, query: Query) {
    query.category in {None, Some(x.category)} && query.source in {None, Some(x.source)}
  }

  /** Whatever the sources send, reading page after page ends and yields one feed in order: every entry is
      an accepted item, and every accepted item that the query asks for is shown under its id. */
  lemma PagingReadsWhatIsSent(sent: seq<Sent>, interests: seq<Tag>, query: Query)
    requires PlacesAreIds(Load(sent)) && |interests| <= MAX_INTERESTS
    ensures
      var loaded := Load(sent);
      var feed := Feed(loaded, interests, query);
      && Read(loaded, interests, query, None, PagesNeeded(|feed|, query.limit)) == Some(feed)
      && (exists latest :: FeedAt(feed, interests, latest))
      && (forall x | IsRanked(feed, x) :: AcceptedFrom(sent, x) && AskedFor(x, query))
      && (forall x | AcceptedFrom(sent, x) && AskedFor(x, query) :: Shown(feed, x))
  {
    hide Feed, Read, FeedAt, Normal, NormalizeAll, NormalizeItem, Acceptable, Selected, AskedFor, IsRanked, Load;
    forall x ensures AskedFor(x, query) <==> Selected(x, query.category, query.source) { AskedIsSelected(x, query); }
    var loaded := Load(sent);
    forall x
      ensures (x in loaded <==> AcceptedFrom(sent, x)) && (x in loaded ==> Normal(x))
    {
      LoadIsAccepted(sent, x);
      if x in loaded {
        var s :| s in sent && x in Accepted(s);
        LoadedIsNormal(s.raws, s.source);
      }
    }
    PagingReadsTheFeed(loaded, interests, query);
    var feed := Feed(loaded, interests, query);
    forall x | IsRanked(feed, x) ensures x in loaded && Selected(x, query.category, query.source) {
      var k :| 0 <= k < |loaded| && loaded[k] == x && FirstSelected(loaded, k, query.category, query.source);
    }
    forall x | x in loaded && Selected(x, query.category, query.source) ensures Shown(feed, x) {
      SelectedIsShown(loaded, feed, x, query.category, query.source);
    }
  }

  lemma AskedIsSelected(x: Item, query: Query)
    ensures AskedFor(x, query) <==> Selected(x, query.category, query.source)
  {}

  lemma SelectedIsShown(loaded: seq<Item>, feed: seq<Ranked>, x: Item, category: Option<nat>, source: Option<Source>)
    requires x in loaded && Selected(x, category, source)
    requires forall y :: IsRanked(feed, y) <==> IsFirst(loaded, y, category, source)
    ensures Shown(feed, x)
  {
    var j :| 0 <= j < |loaded| && loaded[j] == x;
    FirstWith(loaded, j, category, source);
    var k :| 0 <= k < |loaded| && loaded[k].id == loaded[j].id && FirstSelected(loaded, k, category, source);
    assert IsFirst(loaded, loaded[k], category, source);
    assert IsRanked(feed, loaded[k]);
  }
}
