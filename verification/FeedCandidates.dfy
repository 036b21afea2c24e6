/** Which Hacker News items are fetched: the feeds are merged, later feeds win. */
module FeedCandidates {
  import opened Wrappers

  type Feed = nat

  datatype Candidate = Candidate(id: int, feed: Feed)

  predicate Lists(feeds: seq<seq<int>>, f: nat, limit: nat, id: int)
    requires f < |feeds|
  {
    id in feeds[f][..Min(limit, |feeds[f]|)]
  }

  /** The last of the first n feeds that lists an item within the limit. */
  function LastFeed(feeds: seq<seq<int>>, n: nat, limit: nat, id: int): Option<Feed>
    requires n <= |feeds|
  {
    if n == 0 then None else if Lists(feeds, n - 1, limit, id) then Some(n - 1) else LastFeed(feeds, n - 1, limit, id)
  }

  /** Everything the first n feeds list within the limit, one feed after the other. */
  function Listed(feeds: seq<seq<int>>, n: nat, limit: nat): seq<int>
    requires n <= |feeds|
  {
    if n == 0 then [] else Listed(feeds, n - 1, limit) + feeds[n - 1][..Min(limit, |feeds[n - 1]|)]
  }

  /** A list without its repetitions. */
  function Firsts(ids: seq<int>): seq<int> {
    if ids == [] then [] else
      var init, last := Firsts(ids[..|ids| - 1]), ids[|ids| - 1];
      if last in init then init else init + [last]
  }

  /** The first occurrence of the one element is before that of the other. */
  ghost predicate OccursFirst(ids: seq<int>, a: int, b: int) {
    a != b && exists p :: 0 <= p < |ids| && ids[p] == a && b !in ids[..p + 1]
  }

  /** It has the same elements, each once, in the order in which they occur first. */
  lemma {:induction false} FirstsMeaning(ids: seq<int>)
    ensures forall id :: id in Firsts(ids) <==> id in ids
    ensures forall i, j | 0 <= i < j < |Firsts(ids)| :: OccursFirst(ids, Firsts(ids)[i], Firsts(ids)[j])
  {
    if ids != [] {
      var n := |ids| - 1;
      var init, last := ids[..n], ids[n];
      FirstsMeaning(init);
      assert forall id :: id in ids <==> id in init || id == last;
      var r := Firsts(ids);
      forall i, j | 0 <= i < j < |r| ensures OccursFirst(ids, r[i], r[j]) {
        if j < |Firsts(init)| {
          assert OccursFirst(init, r[i], r[j]);
          var p :| 0 <= p < n && init[p] == r[i] && r[j] !in init[..p + 1];
          assert ids[..p + 1] == init[..p + 1] && ids[p] == r[i];
        } else {
          assert r[i] in Firsts(init);
          var p :| 0 <= p < n && init[p] == r[i];
          assert ids[..p + 1] == init[..p + 1] && ids[p] == r[i];
          assert r[j] !in init;
        }
      }
    }
  }

  lemma FirstsNext(ids: seq<int>, id: int)
    ensures Firsts(ids + [id]) == if id in Firsts(ids) then Firsts(ids) else Firsts(ids) + [id]
  {
    assert (ids + [id])[..|ids|] == ids;
  }

  /** One feed: setting a key of a map of the server again keeps its place; a new key goes to the end. */
  method AddFeed(before: seq<int>, feeds: map<int, Feed>, ids: seq<int>, f: Feed, ghost listed: seq<int>)
    returns (order: seq<int>, feedOf: map<int, Feed>)
    requires forall id :: id in before <==> id in feeds
    requires before == Firsts(listed)
    ensures forall id :: id in order <==> id in feedOf
    ensures feedOf.Keys == feeds.Keys + set id | id in ids
    ensures forall id | id in feedOf :: feedOf[id] == if id in ids then f else feeds[id]
    ensures order == Firsts(listed + ids)
  {
    hide Firsts;
    order, feedOf := before, feeds;
    assert listed + ids[..0] == listed;
    for k := 0 to |ids|
      invariant forall id :: id in order <==> id in feedOf
      invariant feedOf.Keys == feeds.Keys + set id | id in ids[..k]
      invariant forall id | id in feedOf :: feedOf[id] == if id in ids[..k] then f else feeds[id]
      invariant order == Firsts(listed + ids[..k])
    {
      assert ids[..k + 1] == ids[..k] + [ids[k]];
      assert listed + ids[..k + 1] == (listed + ids[..k]) + [ids[k]];
      FirstsNext(listed + ids[..k], ids[k]);
      if ids[k] !in feedOf { order := order + [ids[k]]; }
      feedOf := feedOf[ids[k] := f];
    }
    assert ids[..|ids|] == ids;
  }

  /** Each listed id once, in the order in which the feeds first list them, with the last feed that does. */
  method CollectCandidates(feeds: seq<seq<int>>, limit: nat) returns (candidates: seq<Candidate>)
    ensures
      var ids := Firsts(Listed(feeds, |feeds|, limit));
      |candidates| == |ids| && forall i | 0 <= i < |ids| ::
        candidates[i].id == ids[i] && LastFeed(feeds, |feeds|, limit, ids[i]) == Some(candidates[i].feed)
    ensures forall id :: id in Firsts(Listed(feeds, |feeds|, limit)) <==> LastFeed(feeds, |feeds|, limit, id).Some?
    ensures forall i, j | 0 <= i < j < |candidates| :: candidates[i].id != candidates[j].id
  {
    FirstsMeaning(Listed(feeds, |feeds|, limit));
    var order: seq<int> := [];
    var feedOf: map<int, Feed> := map[];
    for f := 0 to |feeds|
      invariant forall id :: id in order <==> id in feedOf
      invariant forall id :: LastFeed(feeds, f, limit, id) == if id in feedOf then Some(feedOf[id]) else None
      invariant order == Firsts(Listed(feeds, f, limit))
    {
      order, feedOf := AddFeed(order, feedOf, feeds[f][..Min(limit, |feeds[f]|)], f, Listed(feeds, f, limit));
    }
    candidates := [];
    for i := 0 to |order|
      invariant |candidates| == i
      invariant forall j | 0 <= j < i :: order[j] in feedOf && candidates[j] == Candidate(order[j], feedOf[order[j]])
    {
      var id := order[i];
      assert id in order;
      candidates := candidates + [Candidate(id, feedOf[id])];
    }
  }
}
