/**
 What each step of loading a source does, with every age and period written
 out: which row a read sees, when a cached entry is served, when a refresh
 fetches, what it stores, and what a request is told when a refresh did not
 come about.
 */
module DiscoverAnswers {
  import opened Wrappers
  import opened DiscoverCache

  /** The entry at hand after a failed or skipped refresh is served as stale as long as its age allows. */
  lemma FallbackMeaning(policy: Policy, s: State, t: RequestId)
    requires Reachable(policy, s) && Enabled(s, FallBack(t))
    ensures
      var after, cached := Step(policy, s, FallBack(t)), s.requests[t].phase.cached;
      && t in after.requests && after.requests[t].phase.Done?
      && var l := after.requests[t].phase.loaded;
      && (l.status == Stale <==> cached.Some? && s.clock - cached.value.refreshedAt <= policy.maxStaleMs)
      && (l.status == Stale ==> l.entry == cached)
      && (l.status != Stale ==> l.status == Unavailable && l.entry == None)
      && l.vouchedAt == l.answeredAt == s.clock
  {
    ReachableInv(policy);
    PhaseIsOk(policy, s, t);
    hide Inv, Reachable;
  }

  /** The request and the others after one of them moved to a phase. */
  ghost predicate MovesTo(s: State, after: State, t: RequestId, phase: Phase) {
    t in s.requests && after.requests == s.requests[t := Request(s.requests[t].process, phase)]
  }

  /** What a read of the row gives: an entry of the last seven days. */
  predicate Reads(row: Option<Entry>, now: int, read: Option<Entry>) {
    if row.Some? && now <= row.value.refreshedAt + 604_800_000 then read == row else read == None
  }

  /** What a purge leaves of the row: an entry that is less than seven days and an hour old. */
  predicate Keeps(row: Option<Entry>, now: int, kept: Option<Entry>) {
    if row.Some? && row.value.refreshedAt + 601_200_000 < now then kept == None else kept == row
  }

  /** Before a refresh: a request reads the cache and is answered at once if the entry is young;
      otherwise it waits for the refresh of its process or starts one. */
  lemma RequestMeaning(policy: Policy, s: State, t: RequestId, p: Process, readable: bool)
    requires Reachable(policy, s)
    ensures Enabled(s, Arrive(t, p, readable)) ==>
      var after := Step(policy, s, Arrive(t, p, readable));
      && after == s.(requests := s.requests[t := Request(p, after.requests[t].phase)])
      && after.requests[t].phase.Arrived? && var cached := after.requests[t].phase.cached;
      if readable then Reads(s.row, s.clock, cached) else cached == None
    ensures Enabled(s, Decide(t)) ==>
      var after, cached, process := Step(policy, s, Decide(t)), s.requests[t].phase.cached, s.requests[t].process;
      && after == s.(requests := after.requests, inFlight := after.inFlight)
      && if cached.Some? && s.clock - cached.value.refreshedAt < policy.freshForMs then
           MovesTo(s, after, t, Done(Loaded(Fresh, cached, Hit, s.clock, s.clock))) && after.inFlight == s.inFlight
         else if process in s.inFlight then
           MovesTo(s, after, t, Waiting(s.inFlight[process])) && after.inFlight == s.inFlight
         else MovesTo(s, after, t, Refreshing(cached)) && after.inFlight == s.inFlight[process := t]
    ensures Enabled(s, Resolve(t)) ==>
      var after := Step(policy, s, Resolve(t));
      && after == s.(requests := after.requests)
      && MovesTo(s, after, t, Done(s.requests[s.requests[t].phase.refresh].phase.loaded))
  {
    ReachableInv(policy);
    if t in s.requests { PhaseIsOk(policy, s, t); }
    hide Inv, Reachable;
  }

  /** Inside a refresh. A held lock is not waited for: the row is read again instead. With the lock, an
      entry that has become young is taken; otherwise the source is fetched, and what it sends is dated
      and stored, unless the purge that follows finds it too old for the transaction's clock. Answers are
      fresh, the lock is given back, and a failure keeps the entry that was at hand. */
  lemma RefreshMeaning(policy: Policy, s: State, a: Action)
    requires Reachable(policy, s) && Enabled(s, a)
    ensures
      var after := Step(policy, s, a);
      match a
      case Begin(t) =>
        after == s.(requests := after.requests) && MovesTo(s, after, t, Begun(s.requests[t].phase.cached, s.clock))
      case TryLock(t) =>
        && after == s.(requests := after.requests, lock := after.lock) && var phase := s.requests[t].phase;
        if s.lock == None then MovesTo(s, after, t, Locked(phase.cached, phase.began)) && after.lock == Some(t)
        else MovesTo(s, after, t, Skipped(phase.cached)) && after.lock == s.lock
      case LookAgain(t, readable) =>
        && after == s.(requests := after.requests) && after.requests[t].phase.LookedAgain?
        && var read := after.requests[t].phase.cached;
        && MovesTo(s, after, t, LookedAgain(read))
        && if readable then Reads(s.row, s.clock, read) else read == s.requests[t].phase.cached
      case ReadAgain(t) =>
        && after == s.(requests := after.requests) && after.requests[t].phase.Reread?
        && var phase, read := s.requests[t].phase, after.requests[t].phase.current;
        MovesTo(s, after, t, Reread(phase.cached, phase.began, read)) && Reads(s.row, phase.began, read)
      case Recheck(t) =>
        && after == s.(requests := after.requests) && var phase := s.requests[t].phase;
        if phase.current.Some? && s.clock - phase.current.value.refreshedAt < policy.freshForMs
        then MovesTo(s, after, t, Confirmed(phase.cached, phase.began, phase.current.value, s.clock))
        else MovesTo(s, after, t, Fetching(phase.cached, phase.began))
      case FetchDone(t, items) =>
        && after == s.(requests := after.requests) && var phase := s.requests[t].phase;
        MovesTo(s, after, t, Storing(phase.cached, phase.began, Entry(items, s.clock)))
      case Commit(t) =>
        var phase, process := s.requests[t].phase, s.requests[t].process;
        && MovesTo(s, after, t, Done(Loaded(Fresh, Some(phase.fetched), Fetch, phase.fetched.refreshedAt, s.clock)))
        && after == s.(requests := after.requests, inFlight := s.inFlight - {process}, lock := None, row := after.row,
                       history := s.history + [phase.fetched])
        && Keeps(Some(phase.fetched), phase.began, after.row)
      case Release(t) =>
        var phase, process := s.requests[t].phase, s.requests[t].process;
        && MovesTo(s, after, t, Done(Loaded(Fresh, Some(phase.found), Confirmation, phase.checkedAt, s.clock)))
        && after == s.(requests := after.requests, inFlight := s.inFlight - {process}, lock := None)
      case Fail(t) =>
        && after == s.(requests := after.requests, lock := if s.lock == Some(t) then None else s.lock)
        && MovesTo(s, after, t, Failed(s.requests[t].phase.cached))
      case FallBack(t) => after == s.(requests := after.requests, inFlight := s.inFlight - {s.requests[t].process})
      case Purge(now) => after == s.(row := after.row) && Keeps(s.row, now, after.row)
      case Tick(elapsed) => after == s.(clock := s.clock + elapsed)
      case Crash(p) =>
        && after == s.(requests := after.requests, inFlight := s.inFlight - {p}, lock := after.lock)
        && (forall t :: t in after.requests <==> t in s.requests && s.requests[t].process != p)
        && (forall t | t in after.requests :: after.requests[t] == s.requests[t])
        && var holder := s.lock;
        after.lock == if holder.Some? && holder.value in s.requests && holder.value !in after.requests then None
                      else holder
      case _ => true
  {
    hide Inv, Reachable;
  }
}
