/**
 Ranking of the Discover feed: the comparator that sorts items and compares an
 item with a page cursor, and why its order does not depend on how the items
 arrived.
 */
module DiscoverRanking {
  import opened Wrappers
  import opened Ordering

  const DAY_MS := 86_400_000

  type Tag = nat
  type Source = nat

  /** An item id: its place in the collation order of strings, and the source named by its prefix if it
      has the form of an id. */
  datatype ItemId = ItemId(position: int, prefix: Option<Source>)

  datatype Item = Item(
    id: ItemId, source: Source, category: nat, tags: set<Tag>, engagement: Option<int>,
    rewarded: bool, compensated: bool, publishedAt: Option<int>, fetchedAt: int)

  datatype Reason = InterestMatch | Recent | ExternalEngagement | ClearValue

  datatype Ranked = Ranked(
    item: Item, matchedInterests: seq<Tag>, recencyBand: nat, engagementValue: int, clearValue: bool, sortAt: int,
    reasons: seq<Reason>)

  /** What a page cursor carries; hashes of interest lists are as good as the lists. */
  datatype Cursor = Cursor(
    version: int, interestHash: seq<Tag>, personalized: bool, interestMatches: int, recencyBand: int,
    engagementValue: int, clearValue: bool, sortAt: int, source: Source, id: ItemId)

  /** The right-hand side of a comparison. */
  datatype Comparand = OfItem(ranked: Ranked) | OfCursor(cursor: Cursor)

  function SortAt(item: Item): int { if item.publishedAt.Some? then item.publishedAt.value else item.fetchedAt }

  /** The newest item, but not before 1970. */
  function LatestTimestamp(items: seq<Item>): (latest: int) {
    if items == [] then 0 else Max(LatestTimestamp(items[..|items| - 1]), SortAt(items[|items| - 1]))
  }

  function RecencyBand(age: int): nat {
    if age <= DAY_MS then 0 else if age <= 7 * DAY_MS then 1 else if age <= 30 * DAY_MS then 2 else 3
  }

  function Matching(interests: seq<Tag>, tags: set<Tag>): (matched: seq<Tag>)
    ensures |matched| <= |interests|
    ensures forall t :: t in matched <==> t in interests && t in tags
  {
    if interests == [] then [] else
      (if interests[0] in tags then [interests[0]] else []) + Matching(interests[1..], tags)
  }

  function CreateRankedItem(item: Item, interests: seq<Tag>, latest: int): Ranked {
    var matched := Matching(interests, item.tags);
    var band := RecencyBand(Max(0, latest - SortAt(item)));
    var engagement := if item.engagement.Some? then item.engagement.value else 0;
    var clear := item.rewarded || item.compensated;
    Ranked(item, matched, band, engagement, clear, SortAt(item),
           (if matched != [] then [InterestMatch] else []) + (if band == 0 then [Recent] else [])
           + (if engagement > 0 then [ExternalEngagement] else []) + (if clear then [ClearValue] else []))
  }

  // ---- The comparator ----

  function LocaleCompare(a: int, b: int): int { if a < b then -1 else if a == b then 0 else 1 }

  function Flag(b: bool): int { if b then 1 else 0 }

  function SourceOf(c: Comparand): Source { if c.OfItem? then c.ranked.item.source else c.cursor.source }
  function IdOf(c: Comparand): ItemId { if c.OfItem? then c.ranked.item.id else c.cursor.id }
  function TimeOf(c: Comparand): int { if c.OfItem? then c.ranked.sortAt else c.cursor.sortAt }
  function MatchesOf(c: Comparand): int { if c.OfItem? then |c.ranked.matchedInterests| else c.cursor.interestMatches }
  function BandOf(c: Comparand): int { if c.OfItem? then c.ranked.recencyBand else c.cursor.recencyBand }
  function EngagementOf(c: Comparand): int { if c.OfItem? then c.ranked.engagementValue else c.cursor.engagementValue }
  function ClearOf(c: Comparand): bool { if c.OfItem? then c.ranked.clearValue else c.cursor.clearValue }

  function CompareChronologicalKeys(left: Ranked, right: Comparand): int {
    var byDate := TimeOf(right) - left.sortAt;
    if byDate != 0 then byDate else
      var bySource := LocaleCompare(left.item.source, SourceOf(right));
      if bySource != 0 then bySource else LocaleCompare(left.item.id.position, IdOf(right).position)
  }

  function CompareRankedItems(left: Ranked, right: Comparand, personalized: bool): int {
    if personalized && MatchesOf(right) - |left.matchedInterests| != 0 then MatchesOf(right) - |left.matchedInterests|
    else if personalized && left.recencyBand - BandOf(right) != 0 then left.recencyBand - BandOf(right)
    else if personalized && EngagementOf(right) - left.engagementValue != 0
      then EngagementOf(right) - left.engagementValue
    else if personalized && Flag(ClearOf(right)) - Flag(left.clearValue) != 0
      then Flag(ClearOf(right)) - Flag(left.clearValue)
    else CompareChronologicalKeys(left, right)
  }

  predicate Before(a: Ranked, b: Ranked, personalized: bool) { CompareRankedItems(a, OfItem(b), personalized) < 0 }

  ghost function RankOrder(personalized: bool): (Ranked, Ranked) -> bool { (a, b) => Before(a, b, personalized) }

  /** The feed's promise in words: more matched interests first, then the fresher band, more engagement,
      a clear value, and finally the newer item, ties broken by source and id. */
  lemma BeforeMeaning(a: Ranked, b: Ranked)
    ensures Before(a, b, true) <==>
      |a.matchedInterests| > |b.matchedInterests| || (|a.matchedInterests| == |b.matchedInterests| &&
      (a.recencyBand < b.recencyBand || (a.recencyBand == b.recencyBand &&
      (a.engagementValue > b.engagementValue || (a.engagementValue == b.engagementValue &&
      ((a.clearValue && !b.clearValue) || (a.clearValue == b.clearValue && Before(a, b, false))))))))
    ensures Before(a, b, false) <==>
      a.sortAt > b.sortAt || (a.sortAt == b.sortAt &&
      (a.item.source < b.item.source || (a.item.source == b.item.source && a.item.id.position < b.item.id.position)))
  {}

  /** Comparing the other way round gives the opposite sign. */
  lemma CompareAntisymmetric(a: Ranked, b: Ranked, personalized: bool)
    ensures CompareRankedItems(a, OfItem(b), personalized) > 0 <==> Before(b, a, personalized)
    ensures CompareRankedItems(a, OfItem(b), personalized) == 0 <==> CompareRankedItems(b, OfItem(a), personalized) == 0
    ensures CompareRankedItems(a, OfItem(b), personalized) == 0 ==> a.item.id.position == b.item.id.position
  {}

  lemma BeforeTransitive(a: Ranked, b: Ranked, c: Ranked, personalized: bool)
    requires Before(a, b, personalized) && Before(b, c, personalized)
    ensures Before(a, c, personalized)
  {
    BeforeMeaning(a, b);
    BeforeMeaning(b, c);
    BeforeMeaning(a, c);
    hide Before;
  }

  /** Items of different ids, each ranked once. */
  ghost predicate OnePerId(ranked: set<Ranked>) {
    forall a, b | a in ranked && b in ranked && a.item.id.position == b.item.id.position :: a == b
  }

  /** In both modes the comparator is a strict total order on items with distinct ids. */
  lemma CompareIsStrictTotal(ranked: set<Ranked>, personalized: bool)
    requires OnePerId(ranked)
    ensures StrictTotalOn(RankOrder(personalized), ranked)
  {
    var less := RankOrder(personalized);
    forall a, b | a in ranked && b in ranked ensures a == b || less(a, b) || less(b, a) {
      CompareAntisymmetric(a, b, personalized);
    }
    forall a, b, c | a in ranked && b in ranked && c in ranked && less(a, b) && less(b, c) ensures less(a, c) {
      BeforeTransitive(a, b, c, personalized);
    }
  }

  /** A newer item never falls into a later band. */
  lemma BandFollowsRecency(a: Item, b: Item, interests: seq<Tag>, latest: int)
    requires SortAt(a) >= SortAt(b)
    ensures CreateRankedItem(a, interests, latest).recencyBand <= CreateRankedItem(b, interests, latest).recencyBand
  {}

  // ---- Sorting ----

  function Insert(r: Ranked, sorted: seq<Ranked>, personalized: bool): seq<Ranked> {
    if sorted == [] || Before(r, sorted[0], personalized) then [r] + sorted
    else [sorted[0]] + Insert(r, sorted[1..], personalized)
  }

  /** Array.prototype.sort; SortIsDetermined shows that it does not matter which algorithm this is. */
  function Sort(ranked: seq<Ranked>, personalized: bool): seq<Ranked> {
    if ranked == [] then [] else Insert(ranked[0], Sort(ranked[1..], personalized), personalized)
  }

  lemma {:induction false} InsertKeeps(r: Ranked, sorted: seq<Ranked>, personalized: bool)
    ensures multiset(Insert(r, sorted, personalized)) == multiset(sorted) + multiset{r}
  {
    if sorted != [] && !Before(r, sorted[0], personalized) {
      InsertKeeps(r, sorted[1..], personalized);
      assert sorted == [sorted[0]] + sorted[1..];
    }
  }

  lemma {:induction false} SortKeeps(ranked: seq<Ranked>, personalized: bool)
    ensures multiset(Sort(ranked, personalized)) == multiset(ranked)
  {
    if ranked != [] {
      SortKeeps(ranked[1..], personalized);
      InsertKeeps(ranked[0], Sort(ranked[1..], personalized), personalized);
      assert ranked == [ranked[0]] + ranked[1..];
    }
  }

  lemma SameElements<T>(a: seq<T>, b: seq<T>)
    requires multiset(a) == multiset(b)
    ensures Elements(a) == Elements(b) && |a| == |b|
  {
    forall x ensures x in Elements(a) <==> x in Elements(b) {
      assert x in a <==> x in multiset(a);
      assert x in b <==> x in multiset(b);
    }
    assert |multiset(a)| == |a|;
  }

  ghost predicate DistinctRanked(ranked: seq<Ranked>) {
    forall i, j | 0 <= i < j < |ranked| :: ranked[i].item.id.position != ranked[j].item.id.position
  }

  lemma {:induction false} InsertSorts(r: Ranked, sorted: seq<Ranked>, personalized: bool)
    requires StrictlySorted(sorted, RankOrder(personalized))
    requires forall s | s in sorted :: s.item.id.position != r.item.id.position
    ensures StrictlySorted(Insert(r, sorted, personalized), RankOrder(personalized))
  {
    var less, result := RankOrder(personalized), Insert(r, sorted, personalized);
    if sorted == [] {
    } else if Before(r, sorted[0], personalized) {
      forall j | 0 < j < |sorted|
        ensures less(r, sorted[j])
      {
        BeforeTransitive(r, sorted[0], sorted[j], personalized);
      }
    } else {
      CompareAntisymmetric(r, sorted[0], personalized);
      InsertSorts(r, sorted[1..], personalized);
      InsertKeeps(r, sorted[1..], personalized);
      var rest := Insert(r, sorted[1..], personalized);
      forall j | 0 <= j < |rest| ensures less(sorted[0], rest[j]) {
        assert rest[j] in multiset(rest);
        assert rest[j] == r || rest[j] in sorted[1..];
      }
      assert result == [sorted[0]] + rest;
    }
  }

  lemma {:induction false} SortSorts(ranked: seq<Ranked>, personalized: bool)
    requires DistinctRanked(ranked)
    ensures StrictlySorted(Sort(ranked, personalized), RankOrder(personalized))
  {
    if ranked != [] {
      var rest := Sort(ranked[1..], personalized);
      SortSorts(ranked[1..], personalized);
      SortKeeps(ranked[1..], personalized);
      forall s | s in rest ensures s.item.id.position != ranked[0].item.id.position {
        assert s in multiset(rest) && s in ranked[1..];
      }
      InsertSorts(ranked[0], rest, personalized);
    }
  }

  /** Any sorted arrangement of the same items is the same list: the result is the comparator's alone. */
  lemma SortIsDetermined(ranked: seq<Ranked>, sorted: seq<Ranked>, personalized: bool)
    requires DistinctRanked(ranked)
    requires multiset(sorted) == multiset(ranked) && StrictlySorted(sorted, RankOrder(personalized))
    ensures sorted == Sort(ranked, personalized)
  {
    SortKeeps(ranked, personalized);
    SortSorts(ranked, personalized);
    SameElements(sorted, ranked);
    SameElements(Sort(ranked, personalized), ranked);
    assert OnePerId(Elements(ranked));
    CompareIsStrictTotal(Elements(ranked), personalized);
    SortedUnique(sorted, Sort(ranked, personalized), RankOrder(personalized));
  }

  // ---- rankDiscoverItems ----

  function CreateAll(items: seq<Item>, interests: seq<Tag>, latest: int): (ranked: seq<Ranked>)
    ensures |ranked| == |items| && forall i | 0 <= i < |items| ::
      ranked[i] == CreateRankedItem(items[i], interests, latest)
  {
    if items == [] then [] else
      CreateAll(items[..|items| - 1], interests, latest) + [CreateRankedItem(items[|items| - 1], interests, latest)]
  }

  function RankDiscoverItems(items: seq<Item>, interests: seq<Tag>): seq<Ranked> {
    Sort(CreateAll(items, interests, LatestTimestamp(items)), interests != [])
  }

  ghost predicate DistinctIds(items: seq<Item>) {
    forall i, j | 0 <= i < j < |items| :: items[i].id.position != items[j].id.position
  }

  /** The newest timestamp is an upper bound that is attained, or 1970. */
  lemma {:induction false} LatestIsMaximum(items: seq<Item>)
    ensures forall i | i in items :: SortAt(i) <= LatestTimestamp(items)
    ensures LatestTimestamp(items) >= 0
    ensures LatestTimestamp(items) > 0 ==> exists i :: i in items && SortAt(i) == LatestTimestamp(items)
  {
    if items != [] {
      var init, last := items[..|items| - 1], items[|items| - 1];
      LatestIsMaximum(init);
      assert forall i | i in items :: i in init || i == last;
      if LatestTimestamp(items) > 0 && SortAt(last) < LatestTimestamp(items) {
        var i :| i in init && SortAt(i) == LatestTimestamp(init);
        assert i in items;
      }
    }
  }

  // ---- The feed, in terms of its items ----

  /** What an item is ranked by, read off the item: how many of the interests it is tagged with, how far it
      lies behind the newest item, its engagement, whether it promises a reward or pay, and its date. */
  datatype Key = Key(matches: nat, band: nat, engagement: int, valued: bool, date: int)

  function KeyOf(item: Item, interests: seq<Tag>, latest: int): Key {
    var date := if item.publishedAt.Some? then item.publishedAt.value else item.fetchedAt;
    Key(|set i: nat | i < |interests| && interests[i] in item.tags|,
        if latest - date <= 86_400_000 then 0 else if latest - date <= 7 * 86_400_000 then 1
        else if latest - date <= 30 * 86_400_000 then 2 else 3,
        if item.engagement.Some? then item.engagement.value else 0, item.rewarded || item.compensated, date)
  }

  /** The newest date of the items, or 1970 if they are older. */
  ghost predicate IsLatest(items: seq<Item>, latest: int) {
    && 0 <= latest && (forall x | x in items :: KeyOf(x, [], latest).date <= latest)
    && (latest == 0 || exists x :: x in items && KeyOf(x, [], latest).date == latest)
  }

  predicate ComesFirst(a: Item, b: Item, interests: seq<Tag>, latest: int) {
    var k, l := KeyOf(a, interests, latest), KeyOf(b, interests, latest);
    if interests != [] && k.matches != l.matches then k.matches > l.matches
    else if interests != [] && k.band != l.band then k.band < l.band
    else if interests != [] && k.engagement != l.engagement then k.engagement > l.engagement
    else if interests != [] && k.valued != l.valued then k.valued
    else if k.date != l.date then k.date > l.date
    else if a.source != b.source then a.source < b.source
    else a.id.position < b.id.position
  }

  /** The interests an item is tagged with, in their order: for one more interest, one more if it is a tag. */
  function Kept(interests: seq<Tag>, tags: set<Tag>): (kept: seq<Tag>) {
    if interests == [] then [] else
      var last := interests[|interests| - 1];
      Kept(interests[..|interests| - 1], tags) + if last in tags then [last] else []
  }

  lemma {:induction false} KeptFirst(interests: seq<Tag>, tags: set<Tag>)
    ensures interests != [] ==>
      Kept(interests, tags) == (if interests[0] in tags then [interests[0]] else []) + Kept(interests[1..], tags)
  {
    if |interests| > 1 {
      var n := |interests| - 1;
      KeptFirst(interests[..n], tags);
      assert interests[..n][1..] == interests[1..][..n - 1] && interests[1..][n - 1] == interests[n];
    }
  }

  /** These are the interests the comparator counts, and their number is that of their positions. */
  lemma {:induction false} MatchingIsKept(interests: seq<Tag>, tags: set<Tag>)
    ensures Matching(interests, tags) == Kept(interests, tags)
  {
    if interests != [] {
      KeptFirst(interests, tags);
      MatchingIsKept(interests[1..], tags);
    }
  }

  lemma {:induction false} KeptCounts(interests: seq<Tag>, tags: set<Tag>)
    ensures |Kept(interests, tags)| == |set i: nat | i < |interests| && interests[i] in tags|
  {
    var places := set i: nat | i < |interests| && interests[i] in tags;
    if interests == [] {
      assert places == {};
    } else {
      var n := |interests| - 1;
      KeptCounts(interests[..n], tags);
      assert places == (set i: nat | i < n && interests[..n][i] in tags) + if interests[n] in tags then {n} else {};
    }
  }

  /** Comparing two ranked items is comparing what the items themselves are ranked by. */
  lemma CreatedComesFirst(a: Item, b: Item, interests: seq<Tag>, latest: int)
    requires KeyOf(a, interests, latest).date <= latest && KeyOf(b, interests, latest).date <= latest
    ensures Before(CreateRankedItem(a, interests, latest), CreateRankedItem(b, interests, latest), interests != [])
      <==> ComesFirst(a, b, interests, latest)
  {
    hide Matching, Kept;
    MatchingIsKept(interests, a.tags);
    KeptCounts(interests, a.tags);
    MatchingIsKept(interests, b.tags);
    KeptCounts(interests, b.tags);
  }

  /** What is shown of one item. */
  ghost predicate ShownWith(r: Ranked, interests: seq<Tag>, latest: int) {
    && r.matchedInterests == Kept(interests, r.item.tags) && var key := KeyOf(r.item, interests, latest);
    && |r.matchedInterests| == key.matches
    && r.reasons == (if key.matches > 0 then [InterestMatch] else []) + (if key.band == 0 then [Recent] else [])
                    + (if key.engagement > 0 then [ExternalEngagement] else [])
                    + (if key.valued then [ClearValue] else [])
  }

  lemma CreatedIsShown(item: Item, interests: seq<Tag>, latest: int)
    requires KeyOf(item, interests, latest).date <= latest
    ensures ShownWith(CreateRankedItem(item, interests, latest), interests, latest)
  {
    hide Matching, Kept;
    MatchingIsKept(interests, item.tags);
    KeptCounts(interests, item.tags);
  }

  lemma LatestMeaning(items: seq<Item>, latest: int)
    ensures IsLatest(items, latest) <==> latest == LatestTimestamp(items)
  {
    LatestIsMaximum(items);
    assert forall x :: SortAt(x) == KeyOf(x, [], latest).date;
  }

  lemma SortedIsCreated(items: seq<Item>, interests: seq<Tag>)
    requires DistinctIds(items)
    ensures
      var feed, latest := RankDiscoverItems(items, interests), LatestTimestamp(items);
      && |feed| == |items| && StrictlySorted(feed, RankOrder(interests != []))
      && (forall x | x in items :: CreateRankedItem(x, interests, latest) in feed)
      && forall r | r in feed :: r.item in items && r == CreateRankedItem(r.item, interests, latest)
  {
    var latest := LatestTimestamp(items);
    var created, feed := CreateAll(items, interests, latest), RankDiscoverItems(items, interests);
    SortKeeps(created, interests != []);
    SameElements(feed, created);
    SortSorts(created, interests != []);
    forall r | r in feed ensures r.item in items && r == CreateRankedItem(r.item, interests, latest) {
      assert r in Elements(created);
    }
    forall x | x in items ensures CreateRankedItem(x, interests, latest) in feed {
      assert CreateRankedItem(x, interests, latest) in Elements(created);
    }
  }

  /** The feed shows each item once, in this order, and says of each why it is recommended. */
  lemma FeedMeaning(items: seq<Item>, interests: seq<Tag>, latest: int)
    requires DistinctIds(items) && IsLatest(items, latest)
    ensures
      var feed := RankDiscoverItems(items, interests);
      && |feed| == |items| && (forall x | x in items :: exists i :: 0 <= i < |feed| && feed[i].item == x)
      && (forall i | 0 <= i < |feed| :: feed[i].item in items && ShownWith(feed[i], interests, latest))
      && (forall i, j | 0 <= i < j < |feed| :: ComesFirst(feed[i].item, feed[j].item, interests, latest))
  {
    hide RankDiscoverItems, LatestTimestamp, CreateRankedItem, Before, KeyOf, ShownWith, DistinctIds;
    LatestMeaning(items, latest);
    SortedIsCreated(items, interests);
    var feed := RankDiscoverItems(items, interests);
    forall x | x in items ensures KeyOf(x, interests, latest).date <= latest { SameDate(x, interests, latest); }
    forall i | 0 <= i < |feed| ensures ShownWith(feed[i], interests, latest) {
      CreatedIsShown(feed[i].item, interests, latest);
    }
    forall i, j | 0 <= i < j < |feed| ensures ComesFirst(feed[i].item, feed[j].item, interests, latest) {
      assert RankOrder(interests != [])(feed[i], feed[j]);
      CreatedComesFirst(feed[i].item, feed[j].item, interests, latest);
    }
    forall x | x in items ensures exists i :: 0 <= i < |feed| && feed[i].item == x {
      CreatedItem(x, interests, latest);
      var i :| 0 <= i < |feed| && feed[i] == CreateRankedItem(x, interests, latest);
      assert feed[i].item == x;
    }
  }

  lemma SameDate(x: Item, interests: seq<Tag>, latest: int)
    ensures KeyOf(x, interests, latest).date == KeyOf(x, [], latest).date
  {}

  lemma LatestOfElements(a: seq<Item>, b: seq<Item>)
    requires Elements(a) == Elements(b)
    ensures LatestTimestamp(a) == LatestTimestamp(b)
  {
    LatestIsMaximum(a);
    LatestIsMaximum(b);
    assert forall i :: i in a <==> i in b by {
      assert forall i :: (i in a <==> i in Elements(a)) && (i in b <==> i in Elements(b));
    }
  }

  lemma {:induction false} CreatedMultiset(items: seq<Item>, interests: seq<Tag>, latest: int, r: Ranked)
    ensures multiset(CreateAll(items, interests, latest))[r]
         == if r == CreateRankedItem(r.item, interests, latest) then multiset(items)[r.item] else 0
  {
    CreatedItem(r.item, interests, latest);
    hide CreateRankedItem;
    if items != [] {
      var init, last := items[..|items| - 1], items[|items| - 1];
      CreatedItem(last, interests, latest);
      CreatedMultiset(init, interests, latest, r);
      assert items == init + [last];
    }
  }

  lemma CreatedItem(item: Item, interests: seq<Tag>, latest: int)
    ensures CreateRankedItem(item, interests, latest).item == item
  {}

  /** The ranked feed is the same for every order in which the items were loaded. */
  lemma RankIgnoresArrivalOrder(a: seq<Item>, b: seq<Item>, interests: seq<Tag>)
    requires multiset(a) == multiset(b) && DistinctIds(a)
    ensures RankDiscoverItems(a, interests) == RankDiscoverItems(b, interests)
  {
    SameElements(a, b);
    LatestOfElements(a, b);
    var latest, personalized := LatestTimestamp(a), interests != [];
    var left, right := CreateAll(a, interests, latest), CreateAll(b, interests, latest);
    forall r ensures multiset(left)[r] == multiset(right)[r] {
      CreatedMultiset(a, interests, latest, r);
      CreatedMultiset(b, interests, latest, r);
    }
    assert multiset(left) == multiset(right);
    SortKeeps(left, personalized);
    SortSorts(left, personalized);
    DistinctTransfers(left, right);
    SortIsDetermined(right, Sort(left, personalized), personalized);
  }

  /** A rearrangement of items with distinct ids has distinct ids. */
  lemma DistinctTransfers(a: seq<Ranked>, b: seq<Ranked>)
    requires multiset(a) == multiset(b) && DistinctRanked(a)
    ensures DistinctRanked(b)
  {
    forall i, j | 0 <= i < j < |b| ensures b[i].item.id.position != b[j].item.id.position {
      if b[i].item.id.position == b[j].item.id.position {
        assert b[i] in multiset(b) && b[j] in multiset(b);
        assert b[i] in a && b[j] in a;
        assert b[i] == b[j];
        OccursTwice(b, i, j);
        OccursOnce(a, b[i]);
      }
    }
  }

  lemma OccursTwice(s: seq<Ranked>, i: nat, j: nat)
    requires i < j < |s| && s[i] == s[j]
    ensures multiset(s)[s[i]] >= 2
  {
    assert s == s[..j] + s[j..];
    assert s[..j][i] == s[i] && s[j..][0] == s[j];
    assert s[i] in multiset(s[..j]) && s[i] in multiset(s[j..]);
  }

  lemma {:induction false} OccursOnce(s: seq<Ranked>, r: Ranked)
    requires DistinctRanked(s)
    ensures multiset(s)[r] <= 1
  {
    if s != [] {
      OccursOnce(s[1..], r);
      assert s == [s[0]] + s[1..];
      if s[0] == r {
        assert r !in s[1..];
        assert multiset(s[1..])[r] == 0;
      }
    }
  }
}
