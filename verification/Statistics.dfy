/**
 Waiting time over a range of dates: every session is clipped to the range and
 floored to whole milliseconds. Times are microseconds; a query runs at one
 moment, its as-of time.
 */
module Statistics {
  import opened Wrappers
  import opened SessionRows
  import opened Sums

  type Sessions = map<Uuid, Session>

  datatype Range = Range(start: int, end: int)

  function Us(ms: int): int { ms * 1_000 }

  /** COALESCE(session.ended_at, as_of). */
  function EndOf(s: Session, asOf: int): int { if s.endedAt.Some? then Us(s.endedAt.value) else asOf }

  /** The join condition: the session overlaps the part of the range that has passed. */
  predicate Counted(s: Session, r: Range, asOf: int) {
    && r.start < Min(r.end, asOf)
    && Us(s.startedAt) < Min(r.end, asOf)
    && EndOf(s, asOf) > r.start
  }

  /** floor(extract(epoch FROM ...) * 1000). */
  function DurationMs(s: Session, r: Range, asOf: int): int {
    (Min(Min(EndOf(s, asOf), asOf), r.end) - Max(Us(s.startedAt), r.start)) / 1_000
  }

  datatype Summary = Summary(waitDurationMs: int, sessionCount: nat, degradedCount: nat)

  function CountedSessions(sessions: Sessions, user: Uuid, r: Range, asOf: int): set<Uuid> {
    set id | id in sessions && sessions[id].user == user && Counted(sessions[id], r, asOf)
  }

  function Durations(sessions: Sessions, user: Uuid, r: Range, asOf: int): map<Uuid, int> {
    map id | id in CountedSessions(sessions, user, r, asOf) :: DurationMs(sessions[id], r, asOf)
  }

  ghost function GetSummary(sessions: Sessions, user: Uuid, r: Range, asOf: int): Summary {
    var counted := CountedSessions(sessions, user, r, asOf);
    Summary(Sum(Durations(sessions, user, r, asOf)), |counted|, |set id | id in counted
      && sessions[id].timing.Degraded?|)
  }

  // ---- The activity list ----

  datatype ActivityType = AiSession | QuestCompleted

  datatype Activity = Activity(kind: ActivityType, id: Uuid, occurredAt: int, durationMs: Option<int>)

  /** A reward as the activity list shows it. */
  datatype Reward = Reward(user: Uuid, createdAt: int)

  /** The two halves of the UNION ALL. */
  function Activities(sessions: Sessions, rewards: map<Uuid, Reward>, user: Uuid, r: Range, asOf: int): set<Activity> {
    (set id | id in CountedSessions(sessions, user, r, asOf) ::
       Activity(AiSession, id, Max(Us(sessions[id].startedAt), r.start), Some(DurationMs(sessions[id], r, asOf))))
    + (set id | id in rewards && rewards[id].user == user && r.start < Min(r.end, asOf)
                && r.start <= Us(rewards[id].createdAt) < Min(r.end, asOf) ::
       Activity(QuestCompleted, id, Us(rewards[id].createdAt), None))
  }

  /** Adding up one activity after the other. */
  ghost function SessionTotal(activities: set<Activity>): int
    decreases |activities|
  {
    if activities == {} then 0 else
      var a :| a in activities;
      (if a.kind.AiSession? && a.durationMs.Some? then a.durationMs.value else 0) + SessionTotal(activities - {a})
  }

  /** A set of activities whose session part lists exactly the rows of a table of durations. */
  ghost predicate ListsDurations(activities: set<Activity>, durations: map<Uuid, int>) {
    && (forall a | a in activities && a.kind.AiSession? :: a.id in durations && a.durationMs == Some(durations[a.id]))
    && (forall a, b | a in activities && b in activities && a.kind.AiSession? && b.kind.AiSession?
         && a.id == b.id :: a == b)
    && (forall id | id in durations :: exists a :: a in activities && a.kind.AiSession? && a.id == id)
  }

  lemma RestListsDurations(activities: set<Activity>, durations: map<Uuid, int>, a: Activity)
    requires ListsDurations(activities, durations) && a in activities
    ensures ListsDurations(activities - {a}, if a.kind.AiSession? then durations - {a.id} else durations)
  {
    var rest := if a.kind.AiSession? then durations - {a.id} else durations;
    forall id | id in rest ensures exists b :: b in activities - {a} && b.kind.AiSession? && b.id == id {
      var b :| b in activities && b.kind.AiSession? && b.id == id;
      assert b in activities - {a};
    }
  }

  lemma NoActivityNoDuration(durations: map<Uuid, int>)
    ensures ListsDurations({}, durations) ==> durations == map[]
  {}

  lemma {:induction false} TotalIsSum(activities: set<Activity>, durations: map<Uuid, int>)
    requires ListsDurations(activities, durations)
    ensures SessionTotal(activities) == Sum(durations)
    decreases |activities|
  {
    if activities == {} {
      NoActivityNoDuration(durations);
    } else {
      var a :| a in activities && SessionTotal(activities) ==
        (if a.kind.AiSession? && a.durationMs.Some? then a.durationMs.value else 0) + SessionTotal(activities - {a});
      assert a.kind.AiSession? ==> a.id in durations && a.durationMs == Some(durations[a.id]);
      hide ListsDurations, SessionTotal, Sum;
      RestListsDurations(activities, durations, a);
      TotalIsSum(activities - {a}, if a.kind.AiSession? then durations - {a.id} else durations);
      if a.kind.AiSession? { SumRemove(durations, a.id); }
    }
  }

  /** The session durations of the unpaged activity list add up to the summary's waiting time. */
  lemma ActivitiesAddUpToSummary(sessions: Sessions, rewards: map<Uuid, Reward>, user: Uuid, r: Range, asOf: int)
    ensures SessionTotal(Activities(sessions, rewards, user, r, asOf))
      == GetSummary(sessions, user, r, asOf).waitDurationMs
  {
    var activities, durations := Activities(sessions, rewards, user, r, asOf), Durations(sessions, user, r, asOf);
    forall id | id in durations ensures exists a :: a in activities && a.kind.AiSession? && a.id == id {
      assert Activity(AiSession, id, Max(Us(sessions[id].startedAt), r.start),
        Some(DurationMs(sessions[id], r, asOf))) in activities;
    }
    TotalIsSum(activities, durations);
  }

  // ---- Durations are sound ----

  /** The session overlaps the part of the range that has passed: it began before that part ended, and it
      ended after the range began. */
  predicate Overlaps(s: Session, r: Range, asOf: int) {
    && r.start < r.end && r.start < asOf && s.startedAt * 1_000 < r.end && s.startedAt * 1_000 < asOf
    && (s.endedAt.Some? ==> r.start < s.endedAt.value * 1_000)
  }

  predicate Earliest(until: int, s: Session, r: Range, asOf: int) {
    && until <= r.end && until <= asOf && (s.endedAt.Some? ==> until <= s.endedAt.value * 1_000)
    && (until == r.end || until == asOf || (s.endedAt.Some? && until == s.endedAt.value * 1_000))
  }

  /** The whole milliseconds of the session within that part. */
  ghost predicate IsDuration(ms: int, s: Session, r: Range, asOf: int) {
    var from := if s.startedAt * 1_000 < r.start then r.start else s.startedAt * 1_000;
    exists until :: Earliest(until, s, r, asOf) && ms * 1_000 <= until - from < (ms + 1) * 1_000
  }

  /** Exactly the sessions that overlap the range count, each with the whole milliseconds it spent there:
      a time that is not negative and no longer than the range or the session. */
  lemma DurationsAreSound(s: Session, r: Range, asOf: int)
    requires RowOk(s)
    ensures Counted(s, r, asOf) <==> Overlaps(s, r, asOf)
    ensures IsDuration(DurationMs(s, r, asOf), s, r, asOf)
    ensures Counted(s, r, asOf) ==>
      && 0 <= DurationMs(s, r, asOf) && DurationMs(s, r, asOf) * 1_000 <= r.end - r.start
      && (s.endedAt.Some? ==> DurationMs(s, r, asOf) <= s.endedAt.value - s.startedAt)
  {
    assert Earliest(Min(Min(EndOf(s, asOf), asOf), r.end), s, r, asOf);
  }

  /** The summary counts the user's sessions that overlap the range, and those of them whose timing is
      degraded, and adds up their durations. */
  lemma SummaryMeaning(sessions: Sessions, user: Uuid, r: Range, asOf: int)
    requires forall id | id in sessions :: RowOk(sessions[id])
    ensures
      var summary, durations := GetSummary(sessions, user, r, asOf), Durations(sessions, user, r, asOf);
      && (forall id :: id in durations <==>
           id in sessions && sessions[id].user == user && Overlaps(sessions[id], r, asOf))
      && (forall id | id in durations :: IsDuration(durations[id], sessions[id], r, asOf))
      && summary.waitDurationMs == Sum(durations) && summary.sessionCount == |durations|
      && summary.degradedCount == |set id | id in durations && sessions[id].timing == Degraded|
  {
    hide RowOk, Overlaps, Counted, IsDuration, DurationMs, Sum;
    forall id | id in sessions
      ensures Counted(sessions[id], r, asOf) <==> Overlaps(sessions[id], r, asOf)
      ensures IsDuration(DurationMs(sessions[id], r, asOf), sessions[id], r, asOf)
    {
      DurationsAreSound(sessions[id], r, asOf);
    }
    var counted, durations := CountedSessions(sessions, user, r, asOf), Durations(sessions, user, r, asOf);
    assert durations.Keys == counted;
    assert (set id | id in durations && sessions[id].timing == Degraded)
      == set id | id in counted && sessions[id].timing.Degraded?;
  }

  /** The list shows each of these sessions once, dated where it enters the range and with its duration,
      and each reward of the part of the range that has passed. */
  lemma ActivityMeaning(
    sessions: Sessions, rewards: map<Uuid, Reward>, user: Uuid, r: Range, asOf: int, a: Activity)
    requires forall id | id in sessions :: RowOk(sessions[id])
    ensures a in Activities(sessions, rewards, user, r, asOf) <==>
      (if a.kind == AiSession then
         && a.id in sessions && sessions[a.id].user == user && Overlaps(sessions[a.id], r, asOf)
         && a.occurredAt == (if sessions[a.id].startedAt * 1_000 < r.start then r.start
                             else sessions[a.id].startedAt * 1_000)
         && a.durationMs.Some? && IsDuration(a.durationMs.value, sessions[a.id], r, asOf)
       else
         && a.id in rewards && rewards[a.id].user == user && a.occurredAt == rewards[a.id].createdAt * 1_000
         && r.start <= a.occurredAt < r.end && a.occurredAt < asOf && a.durationMs == None)
  {
    if a.kind == AiSession && a.id in sessions {
      DurationsAreSound(sessions[a.id], r, asOf);
      if a.durationMs.Some? {
        OneDuration(a.durationMs.value, DurationMs(sessions[a.id], r, asOf), sessions[a.id], r, asOf);
      }
    }
    hide RowOk, Overlaps, Counted, IsDuration, DurationMs;
  }

  lemma OneDuration(a: int, b: int, s: Session, r: Range, asOf: int)
    ensures IsDuration(a, s, r, asOf) && IsDuration(b, s, r, asOf) ==> a == b
  {}

  /** The waiting time is never negative, so the service never answers with an overflow for that reason. */
  lemma WaitIsNotNegative(sessions: Sessions, user: Uuid, r: Range, asOf: int)
    requires forall id | id in sessions :: RowOk(sessions[id])
    ensures GetSummary(sessions, user, r, asOf).waitDurationMs >= 0
  {
    var durations := Durations(sessions, user, r, asOf);
    forall id | id in durations ensures durations[id] >= 0 { DurationsAreSound(sessions[id], r, asOf); }
    SumNonNegative(durations);
  }

  // ---- Splitting a range ----

  /** The session runs across the moment. */
  predicate Straddles(s: Session, b: int, asOf: int) { Us(s.startedAt) < b < EndOf(s, asOf) && b < asOf }

  /** The session began and ended at the very moment, so neither half contains it. */
  predicate InstantAt(s: Session, b: int, asOf: int) { Us(s.startedAt) == b == EndOf(s, asOf) && b < asOf }

  function Contribution(s: Session, r: Range, asOf: int): int {
    if Counted(s, r, asOf) then DurationMs(s, r, asOf) else 0
  }

  function Bit(p: bool): int { if p then 1 else 0 }

  /** One session over a split range: flooring two halves loses at most a millisecond, and only for a
      session that runs across the split. */
  lemma SplitOne(s: Session, a: int, b: int, c: int, asOf: int)
    requires RowOk(s) && a < b < c
    ensures
      var whole, left, right := Range(a, c), Range(a, b), Range(b, c);
      0 <= Contribution(s, whole, asOf) - Contribution(s, left, asOf) - Contribution(s, right, asOf)
        <= Bit(Straddles(s, b, asOf))
  {
    var lo, hi := Max(Us(s.startedAt), a), Min(Min(EndOf(s, asOf), asOf), c);
    if Straddles(s, b, asOf) {
      FloorSplit(hi - b, b - lo);
    }
  }

  lemma FloorSplit(x: int, y: int)
    ensures 0 <= (x + y) / 1_000 - x / 1_000 - y / 1_000 <= 1
  {}

  function OwnedBy(sessions: Sessions, user: Uuid): set<Uuid> { set id | id in sessions && sessions[id].user == user }

  function Across(sessions: Sessions, user: Uuid, b: int, asOf: int): set<Uuid> {
    set id | id in OwnedBy(sessions, user) && Straddles(sessions[id], b, asOf)
  }

  function Instants(sessions: Sessions, user: Uuid, b: int, asOf: int): set<Uuid> {
    set id | id in OwnedBy(sessions, user) && InstantAt(sessions[id], b, asOf)
  }

  function Contributions(sessions: Sessions, user: Uuid, r: Range, asOf: int): map<Uuid, int> {
    map id | id in OwnedBy(sessions, user) :: Contribution(sessions[id], r, asOf)
  }

  lemma WaitOverAll(sessions: Sessions, user: Uuid, r: Range, asOf: int)
    ensures GetSummary(sessions, user, r, asOf).waitDurationMs == Sum(Contributions(sessions, user, r, asOf))
  {
    SumPadded(Durations(sessions, user, r, asOf), Contributions(sessions, user, r, asOf));
  }

  function Bits(all: set<Uuid>, selected: set<Uuid>): map<Uuid, int> { map id | id in all :: Bit(id in selected) }

  /** The size of a selection as a sum over the rows it selects from. */
  lemma SizeIsSum(all: set<Uuid>, selected: set<Uuid>)
    requires selected <= all
    ensures |selected| == Sum(Bits(all, selected))
  {
    var ones: map<Uuid, int> := map id | id in selected :: 1;
    SumOfOnes(ones);
    assert ones.Keys == selected;
    SumPadded(ones, Bits(all, selected));
  }

  /** For one as-of time, the waiting time over a range exceeds that of its two halves by nothing or by
      at most one millisecond per session that runs across the split. */
  lemma SplitRange(sessions: Sessions, user: Uuid, a: int, b: int, c: int, asOf: int)
    requires a < b < c && forall id | id in sessions :: RowOk(sessions[id])
    ensures
      var whole := GetSummary(sessions, user, Range(a, c), asOf).waitDurationMs;
      var halves := GetSummary(sessions, user, Range(a, b), asOf).waitDurationMs
        + GetSummary(sessions, user, Range(b, c), asOf).waitDurationMs;
      0 <= whole - halves <= |Across(sessions, user, b, asOf)|
  {
    hide RowOk, Counted, Contribution, Straddles, InstantAt, GetSummary, Sum;
    var all, across := OwnedBy(sessions, user), Across(sessions, user, b, asOf);
    WaitOverAll(sessions, user, Range(a, c), asOf);
    WaitOverAll(sessions, user, Range(a, b), asOf);
    WaitOverAll(sessions, user, Range(b, c), asOf);
    SizeIsSum(all, across);
    var whole, left, right :=
      Contributions(sessions, user, Range(a, c), asOf), Contributions(sessions, user, Range(a, b), asOf),
                              Contributions(sessions, user, Range(b, c), asOf);
    forall id | id in all ensures 0 <= whole[id] - left[id] - right[id] <= Bits(all, across)[id] {
      SplitOne(sessions[id], a, b, c, asOf);
    }
    SumBounds(whole, left, right, Bits(all, across));
  }

  /** Which halves count a session that the whole counts. */
  lemma SplitCounted(s: Session, a: int, b: int, c: int, asOf: int)
    requires RowOk(s) && a < b < c
    ensures Counted(s, Range(a, b), asOf) && Counted(s, Range(b, c), asOf) <==> Straddles(s, b, asOf)
    ensures Counted(s, Range(a, b), asOf) || Counted(s, Range(b, c), asOf) <==>
      Counted(s, Range(a, c), asOf) && !InstantAt(s, b, asOf)
    ensures InstantAt(s, b, asOf) ==> Counted(s, Range(a, c), asOf)
  {}

  /** The session counts of the halves add up to the count of the whole, plus the sessions that run
      across the split, minus those that began and ended exactly on it. */
  lemma SplitCounts(sessions: Sessions, user: Uuid, a: int, b: int, c: int, asOf: int)
    requires a < b < c && forall id | id in sessions :: RowOk(sessions[id])
    ensures GetSummary(sessions, user, Range(a, b), asOf).sessionCount
      + GetSummary(sessions, user, Range(b, c), asOf).sessionCount
         == GetSummary(sessions, user, Range(a, c), asOf).sessionCount
            + |Across(sessions, user, b, asOf)| - |Instants(sessions, user, b, asOf)|
  {
    hide RowOk, Counted, Straddles, InstantAt, Sum;
    var across, instant := Across(sessions, user, b, asOf), Instants(sessions, user, b, asOf);
    var left, right := CountedSessions(sessions, user, Range(a, b), asOf),
      CountedSessions(sessions, user, Range(b, c), asOf);
    var whole := CountedSessions(sessions, user, Range(a, c), asOf);
    forall id | id in sessions
      ensures id in left && id in right <==> id in across
      ensures id in left || id in right <==> id in whole && id !in instant
      ensures id in instant ==> id in whole
    {
      SplitCounted(sessions[id], a, b, c, asOf);
    }
    assert left * right == across && left + right == whole - instant && instant <= whole;
    assert |left| + |right| == |left + right| + |left * right|;
  }
}
