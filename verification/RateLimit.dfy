/**
 The fixed-window rate limiter: counters in a table shared by all processes, and
 a cleanup each process runs now and then. Database times are microseconds, the
 process clock milliseconds.
 */
module RateLimit {
  import opened Wrappers

  const SECOND_US := 1_000_000
  const DAY_US := 86_400_000_000
  const CLEANUP_INTERVAL_MS := 60_000

  /** Names and hashed identities; only their equality matters. */
  type Scope = nat
  type Identity = nat

  /** The length of a window. */
  type Seconds = n: int | 0 < n witness 1

  datatype Call = Call(scope: Scope, identity: Identity, limit: int, windowSeconds: Seconds, now: int)

  datatype Key = Key(scope: Scope, identity: Identity, startedAt: int)

  datatype Bucket = Bucket(count: nat, expiresAt: int)

  function WindowUs(windowSeconds: Seconds): int { windowSeconds * SECOND_US }

  /** The start of the aligned window a time falls in. */
  function StartOf(now: int, windowSeconds: Seconds): int {
    now / WindowUs(windowSeconds) * WindowUs(windowSeconds)
  }

  function KeyOf(c: Call): Key {
    Key(c.scope, c.identity, StartOf(c.now, c.windowSeconds))
  }

  // ---- What a decision is about: the history of calls ----

  function CountOf(calls: seq<Call>, k: Key): (n: nat) {
    if calls == [] then 0 else
      var last := calls[|calls| - 1];
      CountOf(calls[..|calls| - 1], k) + if KeyOf(last) == k then 1 else 0
  }

  /** A call is allowed if with it the calls of its window are within the limit. */
  predicate Allows(before: seq<Call>, c: Call) {
    CountOf(before, KeyOf(c)) + 1 <= c.limit
  }

  /** Every call of a scope uses the scope's policy. */
  predicate OnePolicy(calls: seq<Call>, scope: Scope, limit: int, windowSeconds: Seconds) {
    forall c | c in calls && c.scope == scope :: c.limit == limit && c.windowSeconds == windowSeconds
  }

  // ---- The shared table ----

  /** What reaches the table, from any process: calls and cleanups, in an order of their own. */
  datatype Statement = Called(call: Call) | Cleaned(at: int)

  function Calls(log: seq<Statement>): (calls: seq<Call>) {
    if log == [] then [] else
      var init, last := Calls(log[..|log| - 1]), log[|log| - 1];
      if last.Called? then init + [last.call] else init
  }

  /** INSERT ... ON CONFLICT DO UPDATE: the counter of the call's window, begun or raised by one. */
  function Upsert(rows: map<Key, Bucket>, c: Call): map<Key, Bucket> {
    var key := KeyOf(c);
    rows[key := if key in rows then rows[key].(count := rows[key].count + 1)
                else Bucket(1, key.startedAt + WindowUs(c.windowSeconds))]
  }

  /** DELETE ... WHERE expires_at < now() - interval '1 day'. */
  function Delete(rows: map<Key, Bucket>, at: int): map<Key, Bucket> {
    map k | k in rows && !(rows[k].expiresAt < at - DAY_US) :: rows[k]
  }

  function After(rows: map<Key, Bucket>, s: Statement): map<Key, Bucket> {
    match s
    case Called(c) => Upsert(rows, c)
    case Cleaned(at) => Delete(rows, at)
  }

  function RowsAfter(log: seq<Statement>): map<Key, Bucket> {
    if log == [] then map[] else
      After(RowsAfter(log[..|log| - 1]), log[|log| - 1])
  }

  function Counter(log: seq<Statement>, k: Key): nat {
    if k in RowsAfter(log) then RowsAfter(log)[k].count else 0
  }

  lemma OneMore(log: seq<Statement>, s: Statement)
    ensures RowsAfter(log + [s]) == After(RowsAfter(log), s)
    ensures Calls(log + [s]) == if s.Called? then Calls(log) + [s.call] else Calls(log)
  {
    assert (log + [s])[..|log|] == log;
  }

  /** Some cleanup has deleted the counter. */
  ghost predicate Dropped(log: seq<Statement>, k: Key)
    decreases |log|
  {
    log != [] &&
    (var init, last := log[..|log| - 1], log[|log| - 1];
     Dropped(init, k) || (last.Cleaned? && k in RowsAfter(init) && k !in Delete(RowsAfter(init), last.at)))
  }

  /** A counter counts the calls of its window unless a cleanup has deleted it, and then it falls short. */
  lemma {:induction false} CounterIsCount(log: seq<Statement>, k: Key)
    ensures Counter(log, k) == CountOf(Calls(log), k) <==> !Dropped(log, k)
    ensures Counter(log, k) <= CountOf(Calls(log), k) && (k in RowsAfter(log) ==> Counter(log, k) > 0)
    decreases |log|
  {
    if log != [] {
      var init, last := log[..|log| - 1], log[|log| - 1];
      CounterIsCount(init, k);
      hide KeyOf, WindowUs;
      if last.Called? { CountsAfter(Calls(init), last.call); }
    }
  }

  /** No call of the scope had a shorter window, and no cleanup was more than a day ahead of the call. */
  predicate Undisturbed(log: seq<Statement>, c: Call) { forall s | s in log :: Harmless(s, c) }

  predicate Harmless(s: Statement, c: Call) {
    match s
    case Called(b) => b.scope == c.scope ==> b.windowSeconds >= c.windowSeconds
    case Cleaned(at) => at <= c.now + DAY_US
  }

  /** Then the call's counter was never deleted: while a window can still be called, no cleanup touches it. */
  lemma {:induction false} CleanupsSpareCounter(log: seq<Statement>, c: Call)
    requires Undisturbed(log, c)
    ensures !Dropped(log, KeyOf(c))
    ensures KeyOf(c) in RowsAfter(log) ==> RowsAfter(log)[KeyOf(c)].expiresAt > c.now
    decreases |log|
  {
    if log != [] {
      assert Undisturbed(log[..|log| - 1], c) && Harmless(log[|log| - 1], c) by { assert log[|log| - 1] in log; }
      CleanupsSpareCounter(log[..|log| - 1], c);
      WindowContains(c.now, c.windowSeconds);
      hide StartOf, Undisturbed;
    }
  }

  class Buckets {
    var rows: map<Key, Bucket>
    /** All statements of all processes in the order they reached the table. */
    ghost var log: seq<Statement>

    ghost predicate Valid()
      reads this
    {
      rows == RowsAfter(log)
    }

    constructor ()
      ensures Valid() && log == []
    {
      rows, log := map[], [];
    }

    /** A cleanup deletes exactly the counters that had been expired for more than a day. */
    method DeleteExpired(at: int)
      requires Valid()
      modifies this
      ensures Valid() && log == old(log) + [Cleaned(at)]
      ensures forall k | k in old(rows) :: k in rows <==> at <= old(rows)[k].expiresAt + DAY_US
    {
      OneMore(log, Cleaned(at));
      rows := map k | k in rows && !(rows[k].expiresAt < at - DAY_US) :: rows[k];
      log := log + [Cleaned(at)];
    }

    /** The count is that of the window's calls unless a cleanup has deleted the counter, which needs a
        cleanup more than a day ahead of the call or calls of the scope with a shorter window. */
    method Increment(c: Call) returns (count: nat)
      requires Valid()
      modifies this
      ensures Valid() && log == old(log) + [Called(c)]
      ensures count <= CountOf(Calls(old(log)), KeyOf(c)) + 1
      ensures count == CountOf(Calls(old(log)), KeyOf(c)) + 1 <==> !Dropped(old(log), KeyOf(c))
      ensures Undisturbed(old(log), c) ==> count == CountOf(Calls(old(log)), KeyOf(c)) + 1
    {
      hide CountOf, KeyOf, WindowUs, Undisturbed, RowsAfter, Dropped;
      OneMore(log, Called(c));
      CounterIsCount(log, KeyOf(c));
      if Undisturbed(log, c) { CleanupsSpareCounter(log, c); }
      var key := KeyOf(c);
      if key in rows {
        rows := rows[key := rows[key].(count := rows[key].count + 1)];
      } else {
        rows := rows[key := Bucket(1, key.startedAt + WindowUs(c.windowSeconds))];
      }
      count := rows[key].count;
      log := log + [Called(c)];
    }
  }

  lemma CountsAfter(calls: seq<Call>, c: Call)
    ensures forall k :: CountOf(calls + [c], k) == CountOf(calls, k) + if KeyOf(c) == k then 1 else 0
  {
    assert (calls + [c])[..|calls|] == calls;
  }

  lemma WindowContains(now: int, windowSeconds: Seconds)
    ensures StartOf(now, windowSeconds) <= now < StartOf(now, windowSeconds) + WindowUs(windowSeconds)
  {}

  /** The day is needed: a call that reaches the table more than a day after its window, behind a
      cleanup, finds its counter gone and starts over. */
  lemma DelayedCallStartsOver()
    ensures
      var c := Call(1, 1, 1, 1, 0);
      var log := [Called(c), Cleaned(86_401_000_001)];
      && CountOf(Calls(log), KeyOf(c)) == 1 && Dropped(log, KeyOf(c)) && Counter(log, KeyOf(c)) == 0
  {
    var c := Call(1, 1, 1, 1, 0);
    OneMore([], Called(c));
    assert [] + [Called(c)] == [Called(c)] && [] + [c] == [c];
    OneMore([Called(c)], Cleaned(86_401_000_001));
    assert [Called(c)] + [Cleaned(86_401_000_001)] == [Called(c), Cleaned(86_401_000_001)];
    assert [Called(c), Cleaned(86_401_000_001)][..1] == [Called(c)];
    CountsAfter([], c);
  }

  // ---- One process ----

  class Limiter {
    const buckets: Buckets
    var lastCleanupAt: int

    constructor (buckets: Buckets)
      ensures this.buckets == buckets
    {
      this.buckets := buckets;
      lastCleanupAt := 0;
    }

    method CleanupExpiredBuckets(processNow: int, at: int)
      requires buckets.Valid()
      modifies this`lastCleanupAt, buckets
      ensures buckets.Valid()
      ensures buckets.log == old(buckets.log) + if processNow - old(lastCleanupAt) < 60_000 then [] else [Cleaned(at)]
      ensures lastCleanupAt == if processNow - old(lastCleanupAt) < 60_000 then old(lastCleanupAt) else processNow
    {
      if processNow - lastCleanupAt < CLEANUP_INTERVAL_MS { return; }
      lastCleanupAt := processNow;
      buckets.DeleteExpired(at);
    }

    /** Unless calls of the scope disagree on the window or a cleanup is more than a day ahead of the call,
        the decision depends on the calls that reached the table earlier, and on those alone: not on which
        process made them, nor on what any cleanup deleted and when. A disturbed decision errs on the side
        of allowing the call. */
    method Consume(c: Call, processNow: int, cleanupAt: int) returns (allowed: bool, retryAfterSeconds: nat)
      requires buckets.Valid()
      modifies this`lastCleanupAt, buckets
      ensures buckets.Valid() && Calls(buckets.log) == Calls(old(buckets.log)) + [c]
      ensures retryAfterSeconds == c.windowSeconds
      ensures Allows(Calls(old(buckets.log)), c) ==> allowed
      ensures Undisturbed(old(buckets.log), c) && cleanupAt <= c.now + DAY_US ==>
        allowed == Allows(Calls(old(buckets.log)), c)
    {
      hide CountOf, KeyOf, WindowUs, RowsAfter, Dropped, Calls;
      CleanupExpiredBuckets(processNow, cleanupAt);
      assert old(buckets.log) + [] == old(buckets.log);
      OneMore(old(buckets.log), Cleaned(cleanupAt));
      OneMore(buckets.log, Called(c));
      var count := buckets.Increment(c);
      return count <= c.limit, c.windowSeconds;
    }
  }

  // ---- What the limiter promises ----

  /** How many calls of one window were allowed. */
  function AllowedOf(calls: seq<Call>, k: Key): (n: nat) {
    if calls == [] then 0 else
      var init, last := calls[..|calls| - 1], calls[|calls| - 1];
      AllowedOf(init, k) + if KeyOf(last) == k && Allows(init, last) then 1 else 0
  }

  lemma {:induction false} AllowedWithinCount(calls: seq<Call>, k: Key, limit: int, windowSeconds: Seconds)
    requires OnePolicy(calls, k.scope, limit, windowSeconds)
    ensures AllowedOf(calls, k) == Min(CountOf(calls, k), Max(limit, 0))
  {
    if calls != [] {
      AllowedWithinCount(calls[..|calls| - 1], k, limit, windowSeconds);
    }
  }

  /** In each window exactly the first calls up to the limit are allowed. */
  lemma WindowLimit(calls: seq<Call>, k: Key, limit: int, windowSeconds: Seconds)
    requires OnePolicy(calls, k.scope, limit, windowSeconds) && limit >= 0
    ensures AllowedOf(calls, k) <= limit
    ensures AllowedOf(calls, k) == limit || AllowedOf(calls, k) == CountOf(calls, k)
  {
    AllowedWithinCount(calls, k, limit, windowSeconds);
  }

  /** How many calls of one identity were allowed from one time until before another. */
  function AllowedBetween(calls: seq<Call>, scope: Scope, identity: Identity, from: int, to: int): (n: nat) {
    if calls == [] then 0 else
      var init, last := calls[..|calls| - 1], calls[|calls| - 1];
      AllowedBetween(init, scope, identity, from, to)
      + if last.scope == scope && last.identity == identity && from <= last.now < to && Allows(init, last) then 1 else 0
  }

  /** The start of a window is the only multiple of its length within a window before the time. */
  lemma StartUnique(now: int, windowSeconds: Seconds, q: int)
    requires q * WindowUs(windowSeconds) <= now < (q + 1) * WindowUs(windowSeconds)
    ensures StartOf(now, windowSeconds) == q * WindowUs(windowSeconds)
  {
    var w := WindowUs(windowSeconds);
    var p := now / w;
    assert p * w <= now < p * w + w;
    assert (p + 1) * w == p * w + w;
    if p < q {
      MulMono(p + 1, q, w);
    } else if p > q {
      MulMono(q + 1, p, w);
    }
  }

  lemma MulMono(a: int, b: int, w: int)
    ensures a <= b && w >= 0 ==> a * w <= b * w
  {}

  /** Two calls under one policy are counted together exactly if scope and identity are the same and both
      times fall between the same two multiples of the window's length. */
  lemma CountedTogether(a: Call, b: Call)
    requires a.windowSeconds == b.windowSeconds
    ensures
      var w := a.windowSeconds * 1_000_000;
      KeyOf(a) == KeyOf(b) <==> a.scope == b.scope && a.identity == b.identity && a.now / w == b.now / w
  {
    var w := WindowUs(a.windowSeconds);
    var p, q := a.now / w, b.now / w;
    if p < q {
      MulMono(p + 1, q, w);
      assert (p + 1) * w == p * w + w;
    } else if q < p {
      MulMono(q + 1, p, w);
      assert (q + 1) * w == q * w + w;
    }
  }

  /** An interval of one window's length meets two windows. */
  lemma TwoWindows(from: int, now: int, windowSeconds: Seconds)
    requires from <= now < from + WindowUs(windowSeconds)
    ensures
      var first := StartOf(from, windowSeconds);
      StartOf(now, windowSeconds) == first || StartOf(now, windowSeconds) == first + WindowUs(windowSeconds)
  {
    var w := WindowUs(windowSeconds);
    var q := from / w;
    WindowContains(from, windowSeconds);
    assert (q + 1) * w == q * w + w && (q + 2) * w == q * w + 2 * w;
    StartUnique(now, windowSeconds, if now < (q + 1) * w then q else q + 1);
  }

  lemma {:induction false} BetweenWithinWindows(
    calls: seq<Call>, scope: Scope, identity: Identity, from: int, limit: int, windowSeconds: Seconds)
    requires OnePolicy(calls, scope, limit, windowSeconds)
    ensures
      var first := StartOf(from, windowSeconds);
      AllowedBetween(calls, scope, identity, from, from + WindowUs(windowSeconds))
        <= AllowedOf(calls, Key(scope, identity, first))
          + AllowedOf(calls, Key(scope, identity, first + WindowUs(windowSeconds)))
  {
    if calls != [] {
      var last := calls[|calls| - 1];
      BetweenWithinWindows(calls[..|calls| - 1], scope, identity, from, limit, windowSeconds);
      if last.scope == scope && from <= last.now < from + WindowUs(windowSeconds) {
        TwoWindows(from, last.now, windowSeconds);
      }
    }
  }

  /** In any interval of one window's length, aligned or not, at most twice the limit is allowed. */
  lemma IntervalLimit(calls: seq<Call>, scope: Scope, identity: Identity, from: int, limit: nat, windowSeconds: Seconds)
    requires OnePolicy(calls, scope, limit, windowSeconds)
    ensures AllowedBetween(calls, scope, identity, from, from + WindowUs(windowSeconds)) <= 2 * limit
  {
    var first := StartOf(from, windowSeconds);
    BetweenWithinWindows(calls, scope, identity, from, limit, windowSeconds);
    WindowLimit(calls, Key(scope, identity, first), limit, windowSeconds);
    WindowLimit(calls, Key(scope, identity, first + WindowUs(windowSeconds)), limit, windowSeconds);
  }

  function Repeat(c: Call, n: nat): (calls: seq<Call>)
    ensures |calls| == n && forall i | 0 <= i < n :: calls[i] == c
  {
    if n == 0 then [] else Repeat(c, n - 1) + [c]
  }

  lemma OneMoreAllowed(calls: seq<Call>, c: Call, from: int, to: int)
    requires from <= c.now < to && Allows(calls, c)
    ensures AllowedBetween(calls + [c], c.scope, c.identity, from, to)
      == AllowedBetween(calls, c.scope, c.identity, from, to) + 1
  {
    hide StartOf, WindowUs, KeyOf, CountOf;
    assert (calls + [c])[..|calls|] == calls;
  }

  /** A burst of calls at one moment, in a window of their own. */
  lemma {:induction false} BurstIsAllowed(before: seq<Call>, c: Call, n: nat, from: int, to: int)
    requires from <= c.now < to && n <= c.limit
    requires CountOf(before, KeyOf(c)) == 0
    ensures
      var after := before + Repeat(c, n);
      && CountOf(after, KeyOf(c)) == n
      && (forall k | k != KeyOf(c) :: CountOf(after, k) == CountOf(before, k))
      && AllowedBetween(after, c.scope, c.identity, from, to)
         == AllowedBetween(before, c.scope, c.identity, from, to) + n
  {
    hide StartOf, WindowUs, KeyOf, CountOf, AllowedBetween;
    if n == 0 {
      assert before + Repeat(c, 0) == before;
    } else {
      var calls := before + Repeat(c, n - 1);
      BurstIsAllowed(before, c, n - 1, from, to);
      assert before + Repeat(c, n) == calls + [c];
      CountsAfter(calls, c);
      OneMoreAllowed(calls, c, from, to);
    }
  }

  /** Twice the limit does happen, for every limit and window: a burst at the end of one window and
      another at the beginning of the next. */
  lemma IntervalLimitIsTight(limit: nat, windowSeconds: Seconds)
    ensures
      var end := WindowUs(windowSeconds);
      var calls := Repeat(Call(1, 1, limit, windowSeconds, end - 1), limit)
        + Repeat(Call(1, 1, limit, windowSeconds, end), limit);
      OnePolicy(calls, 1, limit, windowSeconds)
        && AllowedBetween(calls, 1, 1, end - 1, end - 1 + end) == 2 * limit
  {
    var end := WindowUs(windowSeconds);
    var a, b := Call(1, 1, limit, windowSeconds, end - 1), Call(1, 1, limit, windowSeconds, end);
    StartUnique(end - 1, windowSeconds, 0);
    StartUnique(end, windowSeconds, 1);
    assert KeyOf(a) != KeyOf(b) && end > 0;
    hide WindowUs, StartOf, KeyOf;
    TwoBursts(a, b, limit, end - 1, end - 1 + end);
  }

  lemma TwoBursts(a: Call, b: Call, n: nat, from: int, to: int)
    requires KeyOf(a) != KeyOf(b)
    requires a.scope == b.scope && a.identity == b.identity && n <= a.limit && n <= b.limit && from <= a.now < to
    requires from <= b.now < to
    ensures AllowedBetween(Repeat(a, n) + Repeat(b, n), a.scope, a.identity, from, to) == 2 * n
  {
    hide WindowUs, StartOf, KeyOf;
    var first := Repeat(a, n);
    BurstIsAllowed([], a, n, from, to);
    assert [] + first == first;
    BurstIsAllowed(first, b, n, from, to);
  }

  /** Waiting the returned time always lands in the next window. */
  lemma RetryAfterIsNextWindow(c: Call)
    ensures StartOf(c.now + WindowUs(c.windowSeconds), c.windowSeconds)
      == StartOf(c.now, c.windowSeconds) + WindowUs(c.windowSeconds)
  {
    var w := WindowUs(c.windowSeconds);
    var q := c.now / w;
    WindowContains(c.now, c.windowSeconds);
    assert (q + 1) * w == q * w + w && (q + 2) * w == q * w + 2 * w;
    StartUnique(c.now + w, c.windowSeconds, q + 1);
  }
}
