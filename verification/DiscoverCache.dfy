/**
 The shared cache of one Discover source under any number of server processes: a
 state machine over the steps between two awaits, in any interleaving. Requests
 of one process share a refresh, processes exclude each other with a try-lock,
 and anyone may purge, fail or crash at any time.
 */
module DiscoverCache {
  import opened Wrappers

  const RETENTION_MS := 7 * 86_400_000
  const PURGE_AGE_MS := 7 * 86_400_000 - 3_600_000

  type Process = nat
  type RequestId = nat

  /** A source's cache policy; all of them have a positive freshness period. */
  type Period = n: int | 0 < n witness 1

  datatype Policy = Policy(freshForMs: Period, maxStaleMs: int)

  /** What is cached: the normalised items, which normalise to themselves, and when they were fetched. */
  datatype Entry = Entry(items: seq<nat>, refreshedAt: int)

  datatype Status = Fresh | Stale | Unavailable

  /** What an answer rests on: a check of the entry's age just then, a check before the transaction that
      held the lock ended, the entry's own fetch, or the entry at hand after a failed or skipped refresh. */
  datatype Basis = Hit | Confirmation | Fetch | AtHand

  /** What a request is given: vouchedAt is the moment the status was true of, answeredAt that of the answer. */
  datatype Loaded = Loaded(status: Status, entry: Option<Entry>, basis: Basis, vouchedAt: int, answeredAt: int)

  /** Where a request is: the first three before it refreshes, the next ones inside a refresh. */
  datatype Phase =
    | Arrived(cached: Option<Entry>)
    | Waiting(refresh: RequestId)
    | Done(loaded: Loaded)
    | Refreshing(cached: Option<Entry>)
    | Begun(cached: Option<Entry>, began: int)
    | Skipped(cached: Option<Entry>)
    | LookedAgain(cached: Option<Entry>)
    | Failed(cached: Option<Entry>)
    | Locked(cached: Option<Entry>, began: int)
    | Reread(cached: Option<Entry>, began: int, current: Option<Entry>)
    | Fetching(cached: Option<Entry>, began: int)
    | Storing(cached: Option<Entry>, began: int, fetched: Entry)
    | Confirmed(cached: Option<Entry>, began: int, found: Entry, checkedAt: int)

  datatype Request = Request(process: Process, phase: Phase)

  /** The row, the lock, and per process the refresh in flight; history lists every entry ever stored. */
  datatype State = State(
    clock: int, row: Option<Entry>, lock: Option<RequestId>, inFlight: map<Process, RequestId>,
      requests: map<RequestId, Request>,
    history: seq<Entry>)

  predicate InRefresh(p: Phase) { !p.Arrived? && !p.Waiting? && !p.Done? }

  predicate HoldsLock(p: Phase) { p.Locked? || p.Reread? || p.Fetching? || p.Storing? || p.Confirmed? }

  /** SELECT ... WHERE refreshed_at >= now() - interval '7 days'. */
  function Visible(row: Option<Entry>, now: int): Option<Entry> {
    if row.Some? && row.value.refreshedAt >= now - RETENTION_MS then row else None
  }

  /** DELETE ... WHERE refreshed_at < now() - interval '6 days 23 hours'. */
  function Purged(row: Option<Entry>, now: int): Option<Entry> {
    if row.Some? && row.value.refreshedAt < now - PURGE_AGE_MS then None else row
  }

  function Age(e: Entry, now: int): int { Max(0, now - e.refreshedAt) }

  function Fallback(policy: Policy, cached: Option<Entry>, now: int): Loaded {
    if cached.Some? && Age(cached.value, now) <= policy.maxStaleMs
    then Loaded(Stale, cached, AtHand, now, now) else Loaded(Unavailable, None, AtHand, now, now)
  }

  datatype Action =
    | Tick(elapsed: nat)
    /** A request reads the cache; a failing read counts as a miss. */
    | Arrive(id: RequestId, process: Process, readable: bool)
    | Decide(id: RequestId)
    | Resolve(id: RequestId)
    | Begin(id: RequestId)
    | TryLock(id: RequestId)
    | LookAgain(id: RequestId, readable: bool)
    | FallBack(id: RequestId)
    | ReadAgain(id: RequestId)
    | Recheck(id: RequestId)
    /** The transaction that found a fresh entry ends. */
    | Release(id: RequestId)
    | FetchDone(id: RequestId, items: seq<nat>)
    | Commit(id: RequestId)
    | Fail(id: RequestId)
    /** The timer of some process, or the purge at the end of another source's refresh. */
    | Purge(now: int)
    | Crash(process: Process)

  function Enter(s: State, t: RequestId, phase: Phase): State
    requires t in s.requests
  {
    s.(requests := s.requests[t := s.requests[t].(phase := phase)])
  }

  /** The end of a refresh: its request is answered and the process has no refresh in flight any more. */
  function Finish(s: State, t: RequestId, loaded: Loaded): State
    requires t in s.requests
  {
    Enter(s, t, Done(loaded)).(inFlight := s.inFlight - {s.requests[t].process})
  }

  predicate Enabled(s: State, a: Action) {
    match a
    case Tick(_) => true
    case Arrive(t, _, _) => t !in s.requests
    case Decide(t) => t in s.requests && s.requests[t].phase.Arrived?
    case Resolve(t) => t in s.requests && s.requests[t].phase.Waiting? && s.requests[t].phase.refresh in s.requests
                       && s.requests[s.requests[t].phase.refresh].phase.Done?
    case Begin(t) => t in s.requests && s.requests[t].phase.Refreshing?
    case TryLock(t) => t in s.requests && s.requests[t].phase.Begun?
    case LookAgain(t, _) => t in s.requests && s.requests[t].phase.Skipped?
    case FallBack(t) => t in s.requests && (s.requests[t].phase.LookedAgain? || s.requests[t].phase.Failed?)
    case ReadAgain(t) => t in s.requests && s.requests[t].phase.Locked?
    case Recheck(t) => t in s.requests && s.requests[t].phase.Reread?
    case Release(t) => t in s.requests && s.requests[t].phase.Confirmed?
    case FetchDone(t, _) => t in s.requests && s.requests[t].phase.Fetching?
    case Commit(t) => t in s.requests && s.requests[t].phase.Storing?
    case Fail(t) => t in s.requests && (s.requests[t].phase.Begun? || HoldsLock(s.requests[t].phase))
    case Purge(now) => now <= s.clock
    case Crash(_) => true
  }

  function Step(policy: Policy, s: State, a: Action): State
    requires Enabled(s, a)
  {
    match a
    case Tick(elapsed) => s.(clock := s.clock + elapsed)
    case Arrive(t, p, readable) =>
      s.(requests := s.requests[t := Request(p, Arrived(if readable then Visible(s.row, s.clock) else None))])
    case Decide(t) =>
      var r := s.requests[t];
      var cached := r.phase.cached;
      if cached.Some? && Age(cached.value, s.clock) < policy.freshForMs
      then Enter(s, t, Done(Loaded(Fresh, cached, Hit, s.clock, s.clock)))
      else if r.process in s.inFlight then Enter(s, t, Waiting(s.inFlight[r.process]))
      else Enter(s, t, Refreshing(cached)).(inFlight := s.inFlight[r.process := t])
    case Resolve(t) => Enter(s, t, s.requests[s.requests[t].phase.refresh].phase)
    case Begin(t) => Enter(s, t, Begun(s.requests[t].phase.cached, s.clock))
    case TryLock(t) =>
      var phase := s.requests[t].phase;
      if s.lock.Some? then Enter(s, t, Skipped(phase.cached))
      else Enter(s, t, Locked(phase.cached, phase.began)).(lock := Some(t))
    case LookAgain(t, readable) =>
      Enter(s, t, LookedAgain(if readable then Visible(s.row, s.clock) else s.requests[t].phase.cached))
    case FallBack(t) => Finish(s, t, Fallback(policy, s.requests[t].phase.cached, s.clock))
    case ReadAgain(t) =>
      var phase := s.requests[t].phase;
      Enter(s, t, Reread(phase.cached, phase.began, Visible(s.row, phase.began)))
    case Recheck(t) =>
      var phase := s.requests[t].phase;
      if phase.current.Some? && s.clock - phase.current.value.refreshedAt < policy.freshForMs
      then Enter(s, t, Confirmed(phase.cached, phase.began, phase.current.value, s.clock))
      else Enter(s, t, Fetching(phase.cached, phase.began))
    case Release(t) =>
      var phase := s.requests[t].phase;
      Finish(s, t, Loaded(Fresh, Some(phase.found), Confirmation, phase.checkedAt, s.clock)).(lock := None)
    case FetchDone(t, items) =>
      var phase := s.requests[t].phase;
      Enter(s, t, Storing(phase.cached, phase.began, Entry(items, s.clock)))
    case Commit(t) =>
      var phase := s.requests[t].phase;
      Finish(s, t, Loaded(Fresh, Some(phase.fetched), Fetch, phase.fetched.refreshedAt, s.clock))
        .(lock := None, row := Purged(Some(phase.fetched), phase.began), history := s.history + [phase.fetched])
    case Fail(t) =>
      Enter(s, t, Failed(s.requests[t].phase.cached)).(lock := if s.lock == Some(t) then None else s.lock)
    case Purge(now) => s.(row := Purged(s.row, now))
    case Crash(p) =>
      var lost := set t | t in s.requests && s.requests[t].process == p;
      s.(requests := s.requests - lost, inFlight := s.inFlight - {p},
         lock := if s.lock.Some? && s.lock.value in lost then None else s.lock)
  }

  // ---- Invariants ----

  function GapMs(policy: Policy): int { Min(policy.freshForMs, PURGE_AGE_MS) }

  /** Enough time has passed since the last stored entry, if there is one. */
  predicate LongSince(history: seq<Entry>, now: int, gap: int) {
    history != [] ==> now - history[|history| - 1].refreshedAt >= gap
  }

  ghost predicate HistoryOk(policy: Policy, s: State) {
    && (forall i | 0 <= i < |s.history| - 1 :: s.history[i + 1].refreshedAt - s.history[i].refreshedAt >= GapMs(policy))
    && (forall e | e in s.history :: e.refreshedAt <= s.clock)
  }

  /** The row is the last stored entry, or that one is old enough to have been purged. */
  predicate RowIsLast(s: State) {
    && (s.row.Some? ==> s.history != [] && s.row.value == s.history[|s.history| - 1])
    && (s.row.None? ==> LongSince(s.history, s.clock, PURGE_AGE_MS))
  }

  type Requests = map<RequestId, Request>

  /** Of each process at most the refresh in flight refreshes, and it is the one that is registered. */
  ghost predicate FlightOk(requests: Requests, inFlight: map<Process, RequestId>) {
    && (forall t | t in requests && InRefresh(requests[t].phase) ::
          requests[t].process in inFlight && inFlight[requests[t].process] == t)
    && (forall p | p in inFlight ::
          inFlight[p] in requests && requests[inFlight[p]].process == p && InRefresh(requests[inFlight[p]].phase))
  }

  ghost predicate HeldOk(requests: Requests, lock: Option<RequestId>) {
    && (forall t | t in requests && HoldsLock(requests[t].phase) :: lock == Some(t))
    && (lock.Some? ==> lock.value in requests && HoldsLock(requests[lock.value].phase))
  }

  predicate Known(s: State, e: Option<Entry>) { e.Some? ==> e.value in s.history }

  predicate LoadedOk(policy: Policy, s: State, l: Loaded) {
    && Known(s, l.entry) && l.vouchedAt <= l.answeredAt <= s.clock
    && match l.status
       case Fresh =>
         && l.entry.Some? && 0 <= l.vouchedAt - l.entry.value.refreshedAt < policy.freshForMs
         && (l.basis.Hit? ==> l.answeredAt == l.vouchedAt)
         && (l.basis.Fetch? ==> l.vouchedAt == l.entry.value.refreshedAt)
         && !l.basis.AtHand?
       case Stale =>
         l.entry.Some? && 0 <= l.answeredAt - l.entry.value.refreshedAt <= policy.maxStaleMs && l.basis.AtHand?
           && l.vouchedAt == l.answeredAt
       case Unavailable => l.entry.None?
  }

  predicate PhaseOk(policy: Policy, s: State, p: Phase) {
    match p
    case Waiting(_) => true
    case Done(loaded) => LoadedOk(policy, s, loaded)
    case Begun(cached, began) => Known(s, cached) && began <= s.clock
    case Locked(cached, began) => Known(s, cached) && began <= s.clock
    case Reread(cached, began, current) =>
      && Known(s, cached) && began <= s.clock && Known(s, current)
      && (current.Some? ==> current.value == s.history[|s.history| - 1])
      && (current.None? ==> LongSince(s.history, s.clock, PURGE_AGE_MS))
    case Fetching(cached, began) => Known(s, cached) && began <= s.clock && LongSince(s.history, s.clock, GapMs(policy))
    case Storing(cached, began, fetched) =>
      && Known(s, cached) && began <= fetched.refreshedAt <= s.clock
      && LongSince(s.history, fetched.refreshedAt, GapMs(policy))
    case Confirmed(cached, began, found, checkedAt) =>
      && Known(s, cached) && Known(s, Some(found)) && began <= s.clock && checkedAt <= s.clock
      && 0 <= checkedAt - found.refreshedAt < policy.freshForMs
    case _ => Known(s, p.cached)
  }

  ghost predicate Inv(policy: Policy, s: State) {
    && HistoryOk(policy, s) && RowIsLast(s) && FlightOk(s.requests, s.inFlight) && HeldOk(s.requests, s.lock)
    && forall t | t in s.requests :: PhaseOk(policy, s, s.requests[t].phase)
  }

  // ---- Each step keeps them ----

  lemma ArrivalKeeps(
    requests: Requests, inFlight: map<Process, RequestId>, lock: Option<RequestId>, t: RequestId, r: Request)
    ensures FlightOk(requests, inFlight) && HeldOk(requests, lock) && t !in requests && !InRefresh(r.phase) ==>
      FlightOk(requests[t := r], inFlight) && HeldOk(requests[t := r], lock)
  {}

  /** A request that goes on, inside or outside a refresh. */
  lemma MoveKeepsFlight(requests: Requests, inFlight: map<Process, RequestId>, t: RequestId, r: Request)
    requires FlightOk(requests, inFlight) && t in requests && r.process == requests[t].process
    requires InRefresh(r.phase) == InRefresh(requests[t].phase)
    ensures FlightOk(requests[t := r], inFlight)
  {
    hide InRefresh;
  }

  lemma FirstKeepsFlight(requests: Requests, inFlight: map<Process, RequestId>, t: RequestId, r: Request)
    requires FlightOk(requests, inFlight) && t in requests && r.process == requests[t].process && r.process !in inFlight
    requires InRefresh(r.phase)
    ensures FlightOk(requests[t := r], inFlight[r.process := t])
  {
    hide InRefresh;
  }

  lemma LastKeepsFlight(requests: Requests, inFlight: map<Process, RequestId>, t: RequestId, r: Request)
    requires FlightOk(requests, inFlight) && t in requests && r.process == requests[t].process
    requires InRefresh(requests[t].phase) && !InRefresh(r.phase)
    ensures FlightOk(requests[t := r], inFlight - {r.process})
  {
    hide InRefresh;
  }

  lemma CrashKeeps(requests: Requests, inFlight: map<Process, RequestId>, lock: Option<RequestId>, p: Process)
    requires FlightOk(requests, inFlight) && HeldOk(requests, lock)
    ensures
      var lost := set t | t in requests && requests[t].process == p;
      && FlightOk(requests - lost, inFlight - {p})
      && HeldOk(requests - lost, if lock.Some? && lock.value in lost then None else lock)
  {
    hide InRefresh, HoldsLock;
  }

  lemma StepKeepsFlight(policy: Policy, s: State, a: Action)
    requires FlightOk(s.requests, s.inFlight) && HeldOk(s.requests, s.lock) && Enabled(s, a)
    ensures FlightOk(Step(policy, s, a).requests, Step(policy, s, a).inFlight)
  {
    hide Fallback, Purged, Visible, Age, FlightOk, HeldOk;
    var after := Step(policy, s, a);
    match a
    case Tick(_) =>
    case Purge(_) =>
    case Crash(p) => CrashKeeps(s.requests, s.inFlight, s.lock, p);
    case Arrive(t, _, _) => ArrivalKeeps(s.requests, s.inFlight, s.lock, t, after.requests[t]);
    case Decide(t) =>
      if InRefresh(after.requests[t].phase) { FirstKeepsFlight(s.requests, s.inFlight, t, after.requests[t]); }
      else { MoveKeepsFlight(s.requests, s.inFlight, t, after.requests[t]); }
    case FallBack(t) => LastKeepsFlight(s.requests, s.inFlight, t, after.requests[t]);
    case Release(t) => LastKeepsFlight(s.requests, s.inFlight, t, after.requests[t]);
    case Commit(t) => LastKeepsFlight(s.requests, s.inFlight, t, after.requests[t]);
    case _ => MoveKeepsFlight(s.requests, s.inFlight, a.id, after.requests[a.id]);
  }

  lemma MoveKeepsLock(requests: Requests, lock: Option<RequestId>, t: RequestId, r: Request)
    requires HeldOk(requests, lock) && t in requests && HoldsLock(r.phase) == HoldsLock(requests[t].phase)
    ensures HeldOk(requests[t := r], lock)
  {
    hide HoldsLock;
  }

  lemma TakeKeepsLock(requests: Requests, t: RequestId, r: Request)
    requires HeldOk(requests, None) && t in requests && HoldsLock(r.phase)
    ensures HeldOk(requests[t := r], Some(t))
  {
    hide HoldsLock;
  }

  lemma GiveBackKeepsLock(requests: Requests, lock: Option<RequestId>, t: RequestId, r: Request)
    requires HeldOk(requests, lock) && t in requests && !HoldsLock(r.phase)
    ensures HeldOk(requests[t := r], if lock == Some(t) then None else lock)
    ensures HoldsLock(requests[t].phase) ==> lock == Some(t)
  {
    hide HoldsLock;
  }

  lemma StepKeepsLock(policy: Policy, s: State, a: Action)
    requires FlightOk(s.requests, s.inFlight) && HeldOk(s.requests, s.lock) && Enabled(s, a)
    ensures HeldOk(Step(policy, s, a).requests, Step(policy, s, a).lock)
  {
    hide Fallback, Purged, Visible, Age, FlightOk, HeldOk;
    var after := Step(policy, s, a);
    match a
    case Tick(_) =>
    case Purge(_) =>
    case Crash(p) => CrashKeeps(s.requests, s.inFlight, s.lock, p);
    case Arrive(t, _, _) => ArrivalKeeps(s.requests, s.inFlight, s.lock, t, after.requests[t]);
    case TryLock(t) =>
      if s.lock.None? { TakeKeepsLock(s.requests, t, after.requests[t]); }
      else { MoveKeepsLock(s.requests, s.lock, t, after.requests[t]); }
    case Release(t) => GiveBackKeepsLock(s.requests, s.lock, t, after.requests[t]);
    case Commit(t) => GiveBackKeepsLock(s.requests, s.lock, t, after.requests[t]);
    case Fail(t) => GiveBackKeepsLock(s.requests, s.lock, t, after.requests[t]);
    case _ => MoveKeepsLock(s.requests, s.lock, a.id, after.requests[a.id]);
  }

  lemma StepKeepsHistory(policy: Policy, s: State, a: Action)
    requires Inv(policy, s) && Enabled(s, a)
    ensures HistoryOk(policy, Step(policy, s, a)) && RowIsLast(Step(policy, s, a))
  {
    if a.Commit? {
      assert PhaseOk(policy, s, s.requests[a.id].phase);
      CommitKeepsHistory(policy, s, a);
    } else {
      hide Step, PhaseOk, FlightOk, HeldOk, HistoryOk, RowIsLast;
      QuietKeepsHistory(policy, s, a);
    }
  }

  lemma QuietKeepsHistory(policy: Policy, s: State, a: Action)
    requires HistoryOk(policy, s) && RowIsLast(s) && Enabled(s, a) && !a.Commit?
    ensures HistoryOk(policy, Step(policy, s, a)) && RowIsLast(Step(policy, s, a))
  {
    hide Fallback, Visible, Age;
    var after := Step(policy, s, a);
    assert after.history == s.history && s.clock <= after.clock;
    assert after.row == s.row || (a.Purge? && a.now <= s.clock && after.row == Purged(s.row, a.now));
    hide Step;
  }

  lemma CommitKeepsHistory(policy: Policy, s: State, a: Action)
    ensures HistoryOk(policy, s) && a.Commit? && Enabled(s, a) && PhaseOk(policy, s, s.requests[a.id].phase) ==>
      HistoryOk(policy, Step(policy, s, a)) && RowIsLast(Step(policy, s, a))
  {}

  /** A request that does not move stays in order, unless it holds the lock and another one stores. */
  lemma OthersKeep(policy: Policy, s: State, t: State, p: Phase)
    requires PhaseOk(policy, s, p) && s.clock <= t.clock
    requires t.history == s.history || (!HoldsLock(p) && s.history <= t.history)
    ensures PhaseOk(policy, t, p)
  {
    forall e | e in s.history ensures e in t.history {
      var i :| 0 <= i < |s.history| && s.history[i] == e;
      assert t.history[i] == e;
    }
  }

  predicate Moves(policy: Policy, s: State, a: Action, t: RequestId)
    requires Enabled(s, a)
  {
    t in Step(policy, s, a).requests && (t !in s.requests || Step(policy, s, a).requests[t] != s.requests[t])
  }

  /** The request that moves: before and after a refresh. */
  lemma DecideKeeps(policy: Policy, s: State, a: Action, t: RequestId)
    requires Inv(policy, s) && Enabled(s, a) && Moves(policy, s, a, t) && a.Decide?
    ensures PhaseOk(policy, Step(policy, s, a), Step(policy, s, a).requests[t].phase)
  {
    hide FlightOk, HeldOk, RowIsLast, Purged, Visible, LongSince;
    assert PhaseOk(policy, s, s.requests[t].phase);
  }

  lemma ResolveKeeps(policy: Policy, s: State, a: Action, t: RequestId)
    requires Inv(policy, s) && Enabled(s, a) && Moves(policy, s, a, t) && a.Resolve?
    ensures PhaseOk(policy, Step(policy, s, a), Step(policy, s, a).requests[t].phase)
  {
    assert PhaseOk(policy, s, s.requests[s.requests[t].phase.refresh].phase);
    hide Inv, Purged, Visible, Fallback;
  }

  /** The end of a refresh that failed, or that found a fresh entry. */
  lemma EndKeeps(policy: Policy, s: State, a: Action, t: RequestId)
    requires Inv(policy, s) && Enabled(s, a) && Moves(policy, s, a, t) && (a.FallBack? || a.Release?)
    ensures PhaseOk(policy, Step(policy, s, a), Step(policy, s, a).requests[t].phase)
  {
    hide FlightOk, HeldOk, RowIsLast, Purged, Visible, LongSince;
    assert PhaseOk(policy, s, s.requests[t].phase);
  }

  /** Reading the row, before a refresh and inside it. */
  lemma ReadKeeps(policy: Policy, s: State, a: Action, t: RequestId)
    requires Inv(policy, s) && Enabled(s, a) && Moves(policy, s, a, t)
    requires a.Arrive? || a.LookAgain? || a.ReadAgain?
    ensures PhaseOk(policy, Step(policy, s, a), Step(policy, s, a).requests[t].phase)
  {
    hide FlightOk, HeldOk, Fallback, Purged, HistoryOk, LoadedOk;
    if t in s.requests { assert PhaseOk(policy, s, s.requests[t].phase); }
  }

  /** Inside a refresh: beginning, locking and failing. */
  lemma RefreshKeeps(policy: Policy, s: State, a: Action, t: RequestId)
    requires Inv(policy, s) && Enabled(s, a) && Moves(policy, s, a, t)
    requires a.Begin? || a.TryLock? || a.Fail?
    ensures PhaseOk(policy, Step(policy, s, a), Step(policy, s, a).requests[t].phase)
  {
    hide FlightOk, HeldOk, HistoryOk, RowIsLast, Fallback, Purged, Visible, LongSince, LoadedOk;
    assert PhaseOk(policy, s, s.requests[t].phase);
  }

  /** Deciding to fetch or not, and fetching. */
  lemma FetchKeeps(policy: Policy, s: State, a: Action, t: RequestId)
    requires Inv(policy, s) && Enabled(s, a) && Moves(policy, s, a, t) && (a.Recheck? || a.FetchDone?)
    ensures PhaseOk(policy, Step(policy, s, a), Step(policy, s, a).requests[t].phase)
  {
    hide FlightOk, HeldOk, RowIsLast, Fallback, Purged, Visible, LoadedOk;
    assert PhaseOk(policy, s, s.requests[t].phase);
  }

  lemma CommitKeeps(policy: Policy, s: State, a: Action, t: RequestId)
    requires Inv(policy, s) && Enabled(s, a) && Moves(policy, s, a, t) && a.Commit?
    ensures PhaseOk(policy, Step(policy, s, a), Step(policy, s, a).requests[t].phase)
  {
    hide FlightOk, HeldOk, HistoryOk, RowIsLast, Fallback, Purged, Visible, LongSince;
    assert PhaseOk(policy, s, s.requests[t].phase);
    assert (s.history + [s.requests[t].phase.fetched])[|s.history|] == s.requests[t].phase.fetched;
  }

  lemma MoverKeeps(policy: Policy, s: State, a: Action, t: RequestId)
    requires Inv(policy, s) && Enabled(s, a) && Moves(policy, s, a, t)
    ensures PhaseOk(policy, Step(policy, s, a), Step(policy, s, a).requests[t].phase)
  {
    hide Inv, PhaseOk, Fallback, Purged, Visible, Enter, Finish;
    match a
    case Arrive(_, _, _) => ReadKeeps(policy, s, a, t);
    case Decide(_) => DecideKeeps(policy, s, a, t);
    case Resolve(_) => ResolveKeeps(policy, s, a, t);
    case FallBack(_) => EndKeeps(policy, s, a, t);
    case Recheck(_) => FetchKeeps(policy, s, a, t);
    case Release(_) => EndKeeps(policy, s, a, t);
    case FetchDone(_, _) => FetchKeeps(policy, s, a, t);
    case Commit(_) => CommitKeeps(policy, s, a, t);
    case LookAgain(_, _) => ReadKeeps(policy, s, a, t);
    case ReadAgain(_) => ReadKeeps(policy, s, a, t);
    case Tick(_) =>
    case Purge(_) =>
    case Crash(_) =>
    case _ => RefreshKeeps(policy, s, a, t);
  }

  lemma StepKeeps(policy: Policy, s: State, a: Action)
    requires Inv(policy, s) && Enabled(s, a)
    ensures Inv(policy, Step(policy, s, a))
  {
    StepKeepsFlight(policy, s, a);
    StepKeepsLock(policy, s, a);
    StepKeepsHistory(policy, s, a);
    var after := Step(policy, s, a);
    forall t | t in after.requests ensures PhaseOk(policy, after, after.requests[t].phase) {
      if t !in s.requests || after.requests[t] != s.requests[t] {
        MoverKeeps(policy, s, a, t);
      } else {
        OnlyHolderStores(policy, s, a, t);
        OthersKeep(policy, s, after, s.requests[t].phase);
      }
    }
  }

  lemma OnlyHolderStores(policy: Policy, s: State, a: Action, t: RequestId)
    requires HeldOk(s.requests, s.lock) && Enabled(s, a) && t in s.requests
    requires t in Step(policy, s, a).requests && Step(policy, s, a).requests[t] == s.requests[t]
    ensures
      var after := Step(policy, s, a);
      s.clock <= after.clock
        && (after.history == s.history || (!HoldsLock(s.requests[t].phase) && s.history <= after.history))
  {
    hide Fallback, Purged, Visible, Age;
  }

  // ---- Runs ----

  ghost predicate Runnable(policy: Policy, s: State, actions: seq<Action>)
    decreases |actions|
  {
    actions == [] || (Enabled(s, actions[0]) && Runnable(policy, Step(policy, s, actions[0]), actions[1..]))
  }

  ghost function Run(policy: Policy, s: State, actions: seq<Action>): State
    requires Runnable(policy, s, actions)
    decreases |actions|
  {
    if actions == [] then s else Run(policy, Step(policy, s, actions[0]), actions[1..])
  }

  function Initial(clock: int): State { State(clock, None, None, map[], map[], []) }

  lemma {:induction false} RunKeeps(policy: Policy, s: State, actions: seq<Action>)
    requires Inv(policy, s) && Runnable(policy, s, actions)
    ensures Inv(policy, Run(policy, s, actions))
    decreases |actions|
  {
    hide Inv, Step, Enabled;
    if actions != [] {
      StepKeeps(policy, s, actions[0]);
      RunKeeps(policy, Step(policy, s, actions[0]), actions[1..]);
    }
  }

  ghost predicate Reachable(policy: Policy, s: State) {
    exists clock, actions :: Runnable(policy, Initial(clock), actions) && Run(policy, Initial(clock), actions) == s
  }

  lemma ReachableInv(policy: Policy)
    ensures forall s | Reachable(policy, s) :: Inv(policy, s)
  {
    forall s | Reachable(policy, s) ensures Inv(policy, s) {
      var clock, actions :| Runnable(policy, Initial(clock), actions) && Run(policy, Initial(clock), actions) == s;
      RunKeeps(policy, Initial(clock), actions);
    }
  }

  // ---- The promises ----

  /** However many processes refresh, stored entries are at least the freshness period apart, and a
      purge allows an earlier one only for periods beyond its age. */
  lemma {:induction false} RefreshesAreApart(policy: Policy, s: State, i: nat, j: nat)
    requires Reachable(policy, s) && i < j < |s.history|
    ensures s.history[j].refreshedAt - s.history[i].refreshedAt >= Min(policy.freshForMs, PURGE_AGE_MS)
  {
    ReachableInv(policy);
    hide Reachable, FlightOk, HeldOk, RowIsLast;
    if i < j - 1 { RefreshesAreApart(policy, s, i, j - 1); }
    assert s.history[(j - 1) + 1].refreshedAt - s.history[j - 1].refreshedAt >= GapMs(policy);
  }

  /** At most one request of all processes fetches or stores at a time. */
  lemma OneFetchAtATime(policy: Policy, s: State, a: RequestId, b: RequestId)
    requires Reachable(policy, s) && a in s.requests && b in s.requests
    requires (s.requests[a].phase.Fetching? || s.requests[a].phase.Storing?)
    requires (s.requests[b].phase.Fetching? || s.requests[b].phase.Storing?)
    ensures a == b
  {
    ReachableInv(policy);
  }

  /** At most one refresh per process at a time; the other requests of the process wait for it. */
  lemma OneRefreshPerProcess(policy: Policy, s: State, a: RequestId, b: RequestId)
    requires Reachable(policy, s) && a in s.requests && b in s.requests
    requires InRefresh(s.requests[a].phase) && InRefresh(s.requests[b].phase)
    requires s.requests[a].process == s.requests[b].process
    ensures a == b
  {
    ReachableInv(policy);
  }

  /** What a request is told: fresh items were younger than the freshness period when that was
      established, stale ones at most the allowed age, all of them were stored by a refresh, and an
      unavailable source has none. */
  lemma StatusMeaning(policy: Policy, s: State)
    requires Reachable(policy, s)
    ensures forall t | t in s.requests && s.requests[t].phase.Done? ::
      var l := s.requests[t].phase.loaded;
      && (l.status.Unavailable? <==> l.entry.None?)
      && (l.entry.Some? ==>
           l.entry.value in s.history && l.entry.value.refreshedAt <= l.vouchedAt <= l.answeredAt <= s.clock)
      && (l.status.Fresh? ==> l.vouchedAt - l.entry.value.refreshedAt < policy.freshForMs)
      && (l.status.Stale? ==> l.answeredAt - l.entry.value.refreshedAt <= policy.maxStaleMs)
  {
    ReachableInv(policy);
    hide Reachable, HistoryOk, RowIsLast, FlightOk, HeldOk, LongSince;
    forall t | t in s.requests && s.requests[t].phase.Done? ensures LoadedOk(policy, s, s.requests[t].phase.loaded) {
      assert PhaseOk(policy, s, s.requests[t].phase);
    }
  }

  predicate Young(policy: Policy, e: Entry, now: int) { Age(e, now) < policy.freshForMs }

  /** How a step comes to answer with a fresh entry, and when the entry is still young then. */
  ghost predicate FreshBy(policy: Policy, s: State, a: Action, t: RequestId, e: Entry, now: int) {
    t in s.requests &&
    var phase := s.requests[t].phase;
    match a
    case Decide(_) => phase.Arrived? && phase.cached == Some(e) && Young(policy, e, now)
    case Commit(_) =>
      phase.Storing? && phase.fetched == e
        && (Young(policy, e, now) <==> s.clock - phase.fetched.refreshedAt < policy.freshForMs)
    case Release(_) =>
      phase.Confirmed? && phase.found == e
        && (Young(policy, e, now) <==> s.clock - phase.found.refreshedAt < policy.freshForMs)
    case Resolve(_) =>
      && phase.Waiting? && phase.refresh in s.requests && s.requests[phase.refresh].phase.Done?
      && s.requests[phase.refresh].phase.loaded.entry == Some(e)
      && (Young(policy, e, now) <==> s.clock - e.refreshedAt < policy.freshForMs)
    case _ => false
  }

  lemma FreshAnswer(policy: Policy, s: State, a: Action, t: RequestId)
    requires Inv(policy, s) && Enabled(s, a) && Moves(policy, s, a, t)
    requires a.Decide? || a.Commit? || a.Release? || a.Resolve?
    requires Step(policy, s, a).requests[t].phase.Done? && Step(policy, s, a).requests[t].phase.loaded.status.Fresh?
    ensures
      var after := Step(policy, s, a);
      after.requests[t].phase.loaded.entry.Some?
        && FreshBy(policy, s, a, t, after.requests[t].phase.loaded.entry.value, after.clock)
  {
    hide Inv, LongSince, Purged, Visible, Fallback, Known;
    PhaseIsOk(policy, s, t);
    if a.Resolve? { PhaseIsOk(policy, s, s.requests[t].phase.refresh); }
  }

  lemma PhaseIsOk(policy: Policy, s: State, t: RequestId)
    requires Inv(policy, s) && t in s.requests
    ensures PhaseOk(policy, s, s.requests[t].phase)
  {}

  /** Four steps answer a request with fresh items. When they do, the items are still young if they come
      straight from the cache; at the end of a refresh exactly if its transaction ended less than the
      freshness period after the items were fetched; and for a request that waited for the refresh
      exactly if it resumes that soon. */
  lemma FreshWhenAnswered(policy: Policy, s: State, a: Action, t: RequestId)
    requires Reachable(policy, s) && Enabled(s, a) && Moves(policy, s, a, t)
    requires Step(policy, s, a).requests[t].phase.Done? && Step(policy, s, a).requests[t].phase.loaded.status.Fresh?
    ensures
      var after := Step(policy, s, a);
      after.requests[t].phase.loaded.entry.Some?
        && FreshBy(policy, s, a, t, after.requests[t].phase.loaded.entry.value, after.clock)
  {
    hide Reachable, Inv, Purged, Visible, FreshBy, Age;
    ReachableInv(policy);
    if a.Decide? || a.Commit? || a.Release? || a.Resolve? { FreshAnswer(policy, s, a, t); }
  }

  /** Nothing checks the age again at the end of a refresh: from every state in which one is about to
      store, or has found a fresh entry, there is a run to an answer that calls an entry fresh that is not. */
  lemma FreshCanBeOld(policy: Policy, s: State, t: RequestId)
    requires Reachable(policy, s) && t in s.requests
    requires s.requests[t].phase.Storing? || s.requests[t].phase.Confirmed?
    ensures
      var last := if s.requests[t].phase.Storing? then Commit(t) else Release(t);
      var late := Step(policy, s, Tick(policy.freshForMs));
      && Enabled(late, last)
      && var end := Step(policy, late, last);
      && end.requests[t].phase.Done? && end.requests[t].phase.loaded.status.Fresh?
      && end.clock - end.requests[t].phase.loaded.entry.value.refreshedAt >= policy.freshForMs
      && end.requests[t].phase.loaded.answeredAt == end.clock
  {
    ReachableInv(policy);
    assert PhaseOk(policy, s, s.requests[t].phase);
  }

  lemma {:induction false} Onwards(policy: Policy, s: State, actions: seq<Action>, a: Action)
    requires Runnable(policy, s, actions) && Enabled(Run(policy, s, actions), a)
    ensures Runnable(policy, s, actions + [a])
    ensures Run(policy, s, actions + [a]) == Step(policy, Run(policy, s, actions), a)
    decreases |actions|
  {
    hide Step, Enabled;
    if actions == [] {
      assert actions + [a] == [a];
      assert Runnable(policy, Step(policy, s, a), []);
    } else {
      assert (actions + [a])[1..] == actions[1..] + [a];
      Onwards(policy, Step(policy, s, actions[0]), actions[1..], a);
    }
  }

  /** The run of one request that fetches and is slow to store. */
  function SlowStore(policy: Policy): seq<Action> {
    [Arrive(1, 1, true), Decide(1), Begin(1), TryLock(1), ReadAgain(1), Recheck(1), FetchDone(1, []),
     Tick(policy.freshForMs), Commit(1)]
  }

  lemma SlowStoreIsNotFresh(policy: Policy)
    ensures Runnable(policy, Initial(0), SlowStore(policy))
    ensures
      var end := Run(policy, Initial(0), SlowStore(policy));
      && end.requests == map[1 := Request(1, Done(Loaded(Fresh, Some(Entry([], 0)), Fetch, 0, policy.freshForMs)))]
      && end.clock == policy.freshForMs
  {
    hide Step, Enabled, SlowState;
    SlowEnds(policy);
    var start, all := Initial(0), SlowStore(policy);
    assert Runnable(policy, start, []) && Run(policy, start, []) == start;
    var s, actions := start, [];
    for i := 0 to 9
      invariant actions == all[..i] && Runnable(policy, start, actions) && Run(policy, start, actions) == s
      invariant s == SlowState(policy, i)
    {
      SlowStep(policy, i);
      Onwards(policy, start, actions, all[i]);
      actions, s := actions + [all[i]], Step(policy, s, all[i]);
      assert actions == all[..i + 1];
    }
    assert all[..9] == all;
  }

  lemma SlowStep(policy: Policy, i: nat)
    requires i < 9
    ensures
      var a := SlowStore(policy)[i];
      Enabled(SlowState(policy, i), a) && Step(policy, SlowState(policy, i), a) == SlowState(policy, i + 1)
  {
    hide Age, Purged;
  }

  lemma SlowEnds(policy: Policy)
    ensures SlowState(policy, 0) == Initial(0)
    ensures SlowState(policy, 9).requests
      == map[1 := Request(1, Done(Loaded(Fresh, Some(Entry([], 0)), Fetch, 0, policy.freshForMs)))]
    ensures SlowState(policy, 9).clock == policy.freshForMs
  {}

  /** The state after that many of its steps. */
  function SlowState(policy: Policy, steps: nat): State {
    var at := if steps < 8 then 0 else policy.freshForMs;
    var phase := match steps
      case 0 => Arrived(None) case 1 => Arrived(None) case 2 => Refreshing(None) case 3 => Begun(None, 0)
      case 4 => Locked(None, 0)
      case 5 => Reread(None, 0, None) case 6 => Fetching(None, 0) case 7 => Storing(None, 0, Entry([], 0))
      case 8 => Storing(None, 0, Entry([], 0))
      case _ => Done(Loaded(Fresh, Some(Entry([], 0)), Fetch, 0, at));
    State(at,
          if steps < 9 then None else Purged(Some(Entry([], 0)), 0),
          if 4 <= steps < 9 then Some(1) else None,
          if 2 <= steps < 9 then map[1 := 1] else map[],
          if steps == 0 then map[] else map[1 := Request(1, phase)],
          if steps < 9 then [] else [Entry([], 0)])
  }
}
