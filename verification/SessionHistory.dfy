/**
 Reading the whole session history: the server pages through a user's sessions
 by the position of the last row, and the client follows the cursors.
 */
module SessionHistory {
  import opened Wrappers
  import opened Ordering
  import opened SessionRows
  import S = SessionSteps
  import SI = SessionInvariants
  import R = SessionRuns

  const PAGE_SIZE := 100

  /** When each session of the user started, in microseconds as the database stores it. */
  type Starts = map<Uuid, int>

  /** What a page ends with: the start in milliseconds, as a client's clock writes it, and the id. */
  datatype Cursor = Cursor(startedAtMs: int, id: Uuid)

  datatype Error = InvalidApiResponse

  function StartOf(starts: Starts, id: Uuid): int { if id in starts then starts[id] else 0 }

  /** ORDER BY started_at DESC, id DESC. */
  predicate Newer(starts: Starts, a: Uuid, b: Uuid) {
    StartOf(starts, a) > StartOf(starts, b) || (StartOf(starts, a) == StartOf(starts, b) && a > b)
  }

  ghost function NewestFirst(starts: Starts): (Uuid, Uuid) -> bool { (a: Uuid, b: Uuid) => Newer(starts, a, b) }

  lemma NewestFirstIsTotal(starts: Starts, ids: set<Uuid>)
    ensures StrictTotalOn(NewestFirst(starts), ids)
  {}

  function CursorOf(starts: Starts, id: Uuid): Cursor { Cursor(StartOf(starts, id) / 1_000, id) }

  /** (started_at, id) < (cursor.startedAt, cursor.id). */
  function Behind(starts: Starts, cursor: Option<Cursor>): set<Uuid> {
    set id | id in starts && (cursor.None? ||
      starts[id] < cursor.value.startedAtMs * 1_000
        || (starts[id] == cursor.value.startedAtMs * 1_000 && id < cursor.value.id))
  }

  ghost function History(starts: Starts, ids: set<Uuid>): seq<Uuid> {
    NewestFirstIsTotal(starts, ids);
    Ordered(ids, NewestFirst(starts))
  }

  datatype Page = Page(items: seq<Uuid>, nextCursor: Option<Cursor>)

  /** The page cut from the rows found; a row beyond the page tells that another one follows. */
  function FirstPage(starts: Starts, rows: seq<Uuid>, limit: nat): Page {
    var items := rows[..Min(limit, |rows|)];
    Page(items, if |rows| > limit && items != [] then Some(CursorOf(starts, items[|items| - 1])) else None)
  }

  /** The page a client is sent for a cursor. */
  ghost function PageAt(starts: Starts, cursor: Option<Cursor>, limit: nat): Page {
    FirstPage(starts, History(starts, Behind(starts, cursor)), limit)
  }

  // ---- The server ----

  /** The newest of some rows. */
  method Newest(starts: Starts, rows: set<Uuid>) returns (first: Uuid)
    requires rows != {}
    ensures first in rows && forall id | id in rows && id != first :: Newer(starts, first, id)
  {
    first :| first in rows;
    var seen, rest := {first}, rows - {first};
    while rest != {}
      invariant rows == seen + rest && first in seen
      invariant forall id | id in seen && id != first :: Newer(starts, first, id)
      decreases |rest|
    {
      var id :| id in rest;
      rest, seen := rest - {id}, seen + {id};
      if Newer(starts, id, first) { first := id; }
    }
  }

  /** ORDER BY ... LIMIT. */
  method SelectNewest(starts: Starts, ids: set<Uuid>, count: nat) returns (rows: seq<Uuid>)
    ensures rows == History(starts, ids)[..Min(count, |History(starts, ids)|)]
  {
    hide History, Newer;
    ghost var all := History(starts, ids);
    AllRows(starts, ids);
    var rest := ids;
    rows := [];
    assert all[0..] == all;
    while rest != {} && |rows| < count
      invariant |rows| <= |all| && rows == all[..|rows|]
      invariant Elements(all[|rows|..]) == rest && |rows| <= count
      decreases |rest|
    {
      EmptyElements(all[|rows|..]);
      NextRow(starts, ids, |rows|);
      var first := Newest(starts, rest);
      OnlyOneNewest(starts, all[|rows|..], all[|rows|], first);
      rows := rows + [first];
      rest := rest - {first};
    }
    EmptyElements(all[|rows|..]);
  }

  lemma AllRows(starts: Starts, ids: set<Uuid>)
    ensures Elements(History(starts, ids)) == ids && StrictlySorted(History(starts, ids), NewestFirst(starts))
  {}

  lemma OnlyOneNewest(starts: Starts, rows: seq<Uuid>, a: Uuid, b: Uuid)
    requires a in rows && b in rows
    requires forall id | id in rows && id != a :: Newer(starts, a, id)
    requires forall id | id in rows && id != b :: Newer(starts, b, id)
    ensures a == b
  {
    assert a == b || Newer(starts, a, b);
    assert a == b || Newer(starts, b, a);
  }

  /** The rows a status filter leaves. */
  function OfStatus(starts: Starts, statuses: map<Uuid, Status>, status: Option<Status>): Starts {
    if status.None? then starts
      else map id | id in starts && id in statuses && statuses[id] == status.value :: starts[id]
  }

  /** A session of the status asked for, if one is, that lies behind the cursor, if there is one. */
  predicate Matches(
    starts: Starts, statuses: map<Uuid, Status>, status: Option<Status>, cursor: Option<Cursor>, id: Uuid) {
    && id in starts && (status.Some? ==> id in statuses && statuses[id] == status.value)
    && (cursor.Some? ==>
          || starts[id] < cursor.value.startedAtMs * 1_000
          || (starts[id] == cursor.value.startedAtMs * 1_000 && id < cursor.value.id))
  }

  predicate StartsLater(starts: Starts, a: Uuid, b: Uuid) {
    a in starts && b in starts && (starts[a] > starts[b] || (starts[a] == starts[b] && a > b))
  }

  /** A page: the first of the rows that match, newest first, and a cursor made of the last one exactly
      if more rows follow. */
  ghost predicate IsPage(
    page: Page, starts: Starts, statuses: map<Uuid, Status>, status: Option<Status>, cursor: Option<Cursor>,
    limit: nat) {
    && |page.items| <= limit
    && (forall id | id in page.items :: Matches(starts, statuses, status, cursor, id))
    && (forall i, j | 0 <= i < j < |page.items| :: StartsLater(starts, page.items[i], page.items[j]))
    && (page.nextCursor == None ==>
          limit == 0 || forall id | Matches(starts, statuses, status, cursor, id) :: id in page.items)
    && (page.nextCursor != None ==>
          && |page.items| == limit > 0 && var last := page.items[limit - 1];
          && last in starts && page.nextCursor == Some(Cursor(starts[last] / 1_000, last))
          && (exists id :: Matches(starts, statuses, status, cursor, id) && id !in page.items)
          && forall id | Matches(starts, statuses, status, cursor, id) && id !in page.items ::
               StartsLater(starts, last, id))
  }

  lemma RowsMeaning(starts: Starts, statuses: map<Uuid, Status>, status: Option<Status>, cursor: Option<Cursor>)
    ensures
      var matching := OfStatus(starts, statuses, status);
      var all := History(matching, Behind(matching, cursor));
      && (forall id :: id in all <==> Matches(starts, statuses, status, cursor, id))
      && (forall i, j | 0 <= i < j < |all| :: StartsLater(starts, all[i], all[j]))
      && (forall id | id in all :: StartOf(matching, id) == StartOf(starts, id))
  {
    hide History;
    var matching := OfStatus(starts, statuses, status);
    var all := History(matching, Behind(matching, cursor));
    AllRows(matching, Behind(matching, cursor));
    forall id ensures id in all <==> Matches(starts, statuses, status, cursor, id) {
      assert id in all <==> id in Elements(all);
    }
    forall i, j | 0 <= i < j < |all| ensures StartsLater(starts, all[i], all[j]) {
      assert all[i] in Elements(all) && all[j] in Elements(all);
      assert NewestFirst(matching)(all[i], all[j]);
    }
  }

  lemma PageMeaning(
    starts: Starts, statuses: map<Uuid, Status>, status: Option<Status>, cursor: Option<Cursor>, limit: nat)
    ensures IsPage(PageAt(OfStatus(starts, statuses, status), cursor, limit), starts, statuses, status, cursor, limit)
  {
    hide History, Behind, OfStatus, StartsLater;
    RowsMeaning(starts, statuses, status, cursor);
    var all := History(OfStatus(starts, statuses, status), Behind(OfStatus(starts, statuses, status), cursor));
    if |all| > limit > 0 {
      assert all[limit - 1] in all && all[limit] in all;
      forall i | 0 <= i < limit ensures all[i] != all[limit] { Irreflexive(starts, all[i]); }
    }
  }

  lemma Irreflexive(starts: Starts, id: Uuid)
    ensures !StartsLater(starts, id, id)
  {}

  /** GET /sessions: one row more than the page holds is read. */
  method GetSessionHistory(
    starts: Starts, statuses: map<Uuid, Status>, status: Option<Status>, cursor: Option<Cursor>, limit: nat)
    returns (page: Page)
    ensures page == PageAt(OfStatus(starts, statuses, status), cursor, limit)
    ensures IsPage(page, starts, statuses, status, cursor, limit)
  {
    PageMeaning(starts, statuses, status, cursor, limit);
    var matching := OfStatus(starts, statuses, status);
    ghost var all := History(matching, Behind(matching, cursor));
    var rows := SelectNewest(matching, Behind(matching, cursor), limit + 1);
    hide History, Behind, CursorOf;
    var hasNextPage := |rows| > limit;
    var pageRows := rows[..Min(limit, |rows|)];
    assert pageRows == all[..Min(limit, |all|)];
    page := Page(pageRows, if hasNextPage && pageRows != []
      then Some(CursorOf(matching, pageRows[|pageRows| - 1])) else None);
  }

  /** The next row of a query is the newest of what is left. */
  lemma NextRow(starts: Starts, ids: set<Uuid>, k: nat)
    requires k < |History(starts, ids)|
    ensures
      var all := History(starts, ids);
      && all[k] in all[k..]
      && (forall id | id in all[k..] && id != all[k] :: Newer(starts, all[k], id))
      && Elements(all[k + 1..]) == Elements(all[k..]) - {all[k]}
  {
    var all := History(starts, ids);
    assert StrictlySorted(all, NewestFirst(starts));
    forall id | id in all[k..] && id != all[k] ensures Newer(starts, all[k], id) {
      var i :| k <= i < |all| && all[i] == id;
      assert NewestFirst(starts)(all[k], all[i]);
    }
    var tail := all[k..];
    assert StrictlySorted(tail, NewestFirst(starts));
    assert tail[1..] == all[k + 1..];
    TailElements(tail, NewestFirst(starts));
  }

  // ---- The client ----

  /** The starts of sessions are written from a clock in milliseconds, so cursors lose nothing. */
  predicate WholeMilliseconds(starts: Starts) { forall id | id in starts :: starts[id] % 1_000 == 0 }

  /** The rows behind the cursor of the k-th row are the rows that follow it. */
  lemma BehindIsRest(starts: Starts, k: nat)
    requires WholeMilliseconds(starts) && 0 < k <= |History(starts, starts.Keys)|
    ensures
      var all := History(starts, starts.Keys);
      Behind(starts, Some(CursorOf(starts, all[k - 1]))) == Elements(all[k..])
  {
    hide History, StrictlySorted, StrictTotalOn, Behind, CursorOf, Newer;
    var all := History(starts, starts.Keys);
    var last := all[k - 1];
    AllRows(starts, starts.Keys);
    NewestFirstIsTotal(starts, starts.Keys);
    assert forall id :: id in all <==> id in starts by { assert forall id :: id in all <==> id in Elements(all); }
    assert last in all;
    BehindIsOlder(starts, last);
    forall id | id in starts ensures id in all[k..] <==> Newer(starts, last, id) {
      SortedRest(all, NewestFirst(starts), k, id);
    }
  }

  /** A cursor in milliseconds says no less than the row it was made from. */
  lemma BehindIsOlder(starts: Starts, last: Uuid)
    requires WholeMilliseconds(starts) && last in starts
    ensures forall id :: id in Behind(starts, Some(CursorOf(starts, last))) <==> id in starts && Newer(starts, last, id)
  {
    assert CursorOf(starts, last).startedAtMs * 1_000 == starts[last];
  }

  lemma RestIsOrdered(starts: Starts, k: nat)
    requires k <= |History(starts, starts.Keys)|
    ensures History(starts, Elements(History(starts, starts.Keys)[k..])) == History(starts, starts.Keys)[k..]
  {
    var all := History(starts, starts.Keys);
    var rest := Elements(all[k..]);
    NewestFirstIsTotal(starts, rest);
    SortedUnique(History(starts, rest), all[k..], NewestFirst(starts));
  }

  /** The cursor to ask for the rows behind the first k. */
  ghost function CursorAt(starts: Starts, k: nat): Option<Cursor>
    requires k <= |History(starts, starts.Keys)|
  {
    if k == 0 then None else Some(CursorOf(starts, History(starts, starts.Keys)[k - 1]))
  }

  lemma PageFrom(starts: Starts, k: nat, limit: nat)
    requires WholeMilliseconds(starts) && limit > 0 && k <= |History(starts, starts.Keys)|
    ensures
      var all := History(starts, starts.Keys);
      var next := Min(k + limit, |all|);
      PageAt(starts, CursorAt(starts, k), limit)
        == Page(all[k..next], if next < |all| then CursorAt(starts, next) else None)
  {
    var all := History(starts, starts.Keys);
    if k == 0 {
      assert Behind(starts, None) == starts.Keys;
      assert all[0..] == all;
    } else {
      BehindIsRest(starts, k);
      RestIsOrdered(starts, k);
    }
    hide History, Behind, CursorOf, WholeMilliseconds;
    FirstPageFrom(starts, all, k, limit);
  }

  lemma FirstPageFrom(starts: Starts, all: seq<Uuid>, k: nat, limit: nat)
    requires limit > 0 && k <= |all|
    ensures
      var next := Min(k + limit, |all|);
      FirstPage(starts, all[k..], limit)
        == Page(all[k..next], if next < |all| then Some(CursorOf(starts, all[next - 1])) else None)
  {
    var next := Min(k + limit, |all|);
    assert all[k..][..next - k] == all[k..next];
  }

  /** A later cursor has not been seen before. */
  lemma CursorIsNew(starts: Starts, k: nat, next: nat, c: Cursor)
    requires k < next <= |History(starts, starts.Keys)| && CursorAt(starts, next) == Some(c)
    ensures !Visited(starts, k, c) && Visited(starts, next, c)
    ensures forall other | Visited(starts, k, other) :: Visited(starts, next, other)
  {
    var all, less := History(starts, starts.Keys), NewestFirst(starts);
    assert StrictlySorted(all, less);
    forall j | 0 < j <= k ensures CursorAt(starts, j) != Some(c) {
      assert less(all[j - 1], all[next - 1]);
    }
  }

  /** Following the cursors ends, never meets a cursor twice, and yields exactly the user's sessions,
      newest first. */
  method GetAllSessionHistory(starts: Starts, statuses: map<Uuid, Status>) returns (r: Result<seq<Uuid>, Error>)
    requires WholeMilliseconds(starts)
    ensures r == Ok(History(starts, starts.Keys))
  {
    hide History, PageAt, CursorAt, WholeMilliseconds;
    ghost var all := History(starts, starts.Keys);
    var sessions: seq<Uuid> := [];
    var visitedCursors: set<Cursor> := {};
    var cursor: Option<Cursor> := None;
    FirstCursor(starts);
    while true
      invariant |sessions| <= |all| && sessions == all[..|sessions|]
      invariant cursor == CursorAt(starts, |sessions|) && (cursor.Some? ==> |sessions| < |all|)
      invariant forall c | c in visitedCursors :: Visited(starts, |sessions|, c)
      decreases |all| - |sessions|
    {
      ghost var k := |sessions|;
      PageFrom(starts, k, PAGE_SIZE);
      var page := GetSessionHistory(starts, statuses, None, cursor, PAGE_SIZE);
      sessions := sessions + page.items;
      assert sessions == all[..Min(k + PAGE_SIZE, |all|)];
      cursor := page.nextCursor;
      if cursor.Some? { CursorIsNew(starts, k, |sessions|, cursor.value); } else { LastPage(starts, |sessions|); }
      if cursor.Some? && cursor.value in visitedCursors {
        return Err(InvalidApiResponse);
      }
      if cursor.Some? { visitedCursors := visitedCursors + {cursor.value}; }
      if cursor.None? { break; }
    }
    assert all[..|all|] == all;
    return Ok(sessions);
  }

  /** The cursor led to one of the pages read so far. */
  ghost predicate Visited(starts: Starts, k: nat, c: Cursor)
    requires k <= |History(starts, starts.Keys)|
  {
    exists j :: 0 < j <= k && CursorAt(starts, j) == Some(c)
  }

  lemma FirstCursor(starts: Starts)
    ensures CursorAt(starts, 0) == None
  {}

  lemma LastPage(starts: Starts, k: nat)
    ensures 0 < k <= |History(starts, starts.Keys)| ==> CursorAt(starts, k).Some?
  {}

  // ---- The history of the session table ----

  /** The starts of a user's sessions: the service takes them from a clock in milliseconds. */
  function StartsOf(sessions: S.Sessions, user: Uuid): Starts {
    map id | id in sessions && sessions[id].user == user :: sessions[id].startedAt * 1_000
  }

  function StatusesOf(sessions: S.Sessions): map<Uuid, Status> { map id | id in sessions :: sessions[id].status }

  lemma ServiceWritesWholeMilliseconds(sessions: S.Sessions, user: Uuid)
    ensures WholeMilliseconds(StartsOf(sessions, user))
  {}

  predicate Owned(sessions: S.Sessions, user: Uuid, id: Uuid) { id in sessions && sessions[id].user == user }

  predicate StartedLater(sessions: S.Sessions, a: Uuid, b: Uuid) {
    && a in sessions && b in sessions
    && (sessions[a].startedAt > sessions[b].startedAt || (sessions[a].startedAt == sessions[b].startedAt && a > b))
  }

  /** The user's sessions, each once, newest first. */
  ghost predicate ListsSessions(ids: seq<Uuid>, sessions: S.Sessions, user: Uuid) {
    && (forall id :: id in ids <==> Owned(sessions, user, id))
    && forall i, j | 0 <= i < j < |ids| :: StartedLater(sessions, ids[i], ids[j])
  }

  lemma NewestFirstLists(all: seq<Uuid>, sessions: S.Sessions, user: Uuid)
    requires Elements(all) == StartsOf(sessions, user).Keys
    requires StrictlySorted(all, NewestFirst(StartsOf(sessions, user)))
    ensures ListsSessions(all, sessions, user)
  {
    forall id ensures id in all <==> Owned(sessions, user, id) { assert id in all <==> id in Elements(all); }
    forall i, j | 0 <= i < j < |all| ensures StartedLater(sessions, all[i], all[j]) {
      assert NewestFirst(StartsOf(sessions, user))(all[i], all[j]);
      assert Owned(sessions, user, all[i]) && Owned(sessions, user, all[j]);
    }
    hide Owned, StartedLater, StrictlySorted;
  }

  lemma HistoryListsSessions(sessions: S.Sessions, user: Uuid)
    ensures ListsSessions(History(StartsOf(sessions, user), StartsOf(sessions, user).Keys), sessions, user)
  {
    var starts := StartsOf(sessions, user);
    AllRows(starts, starts.Keys);
    NewestFirstLists(History(starts, starts.Keys), sessions, user);
  }

  /** From the tables that any run of the session service leaves, the client reads every session of the
      user once, newest first. */
  method ReadSessions(db: S.Db, user: Uuid) returns (r: Result<seq<Uuid>, Error>)
    requires R.Reachable(db)
    ensures r.Ok? && ListsSessions(r.value, db.sessions, user)
  {
    hide History, WholeMilliseconds;
    ServiceWritesWholeMilliseconds(db.sessions, user);
    HistoryListsSessions(db.sessions, user);
    r := GetAllSessionHistory(StartsOf(db.sessions, user), StatusesOf(db.sessions));
  }

  predicate Precedes(ids: seq<Uuid>, a: Uuid, b: Uuid) {
    exists i, j :: 0 <= i < j < |ids| && ids[i] == a && ids[j] == b
  }

  lemma StartedLaterPrecedes(ids: seq<Uuid>, sessions: S.Sessions, user: Uuid, a: Uuid, b: Uuid)
    requires ListsSessions(ids, sessions, user) && a in ids && b in ids
    ensures Precedes(ids, a, b) <==> StartedLater(sessions, a, b)
  {
    var i :| 0 <= i < |ids| && ids[i] == a;
    var j :| 0 <= j < |ids| && ids[j] == b;
    if i < j {
      assert Precedes(ids, a, b);
    } else if j < i {
      assert StartedLater(sessions, b, a);
    }
    if Precedes(ids, a, b) {
      var k, l :| 0 <= k < l < |ids| && ids[k] == a && ids[l] == b;
      assert StartedLater(sessions, ids[k], ids[l]);
    }
  }

  /** What the service does later only adds to the list: whatever was read before is still there, in the
      same order. */
  lemma HistoryOnlyGrows(
    db: S.Db, more: seq<R.Action>, user: Uuid, before: seq<Uuid>, after: seq<Uuid>, a: Uuid, b: Uuid)
    requires SI.Inv(db) && R.Runnable(db, more)
    requires ListsSessions(before, db.sessions, user) && ListsSessions(after, R.Run(db, more).sessions, user)
    requires a in before && b in before
    ensures a in after && b in after && (Precedes(after, a, b) <==> Precedes(before, a, b))
  {
    hide SI.Inv, R.Run, R.Runnable, Precedes;
    R.RunKeeps(db, more);
    var later := R.Run(db, more).sessions;
    assert Evolves(db.sessions[a], later[a]) && Evolves(db.sessions[b], later[b]);
    assert Owned(later, user, a) && Owned(later, user, b);
    StartedLaterPrecedes(before, db.sessions, user, a, b);
    StartedLaterPrecedes(after, later, user, a, b);
  }

  /** With finer starts a session could be skipped: the second of two sessions half a millisecond apart
      is not behind the cursor of the first. */
  lemma PrecisionMatters()
    ensures
      var starts: Starts := map[2 := 1_700, 1 := 1_200];
      Newer(starts, 2, 1) && 1 !in Behind(starts, Some(CursorOf(starts, 2)))
  {}
}
