/**
 When an attempt is over: the three ways it can expire, what they write and when
 they fail, and what can never change once an attempt is settled.
 */
module QuestExpiry {
  import opened Wrappers
  import opened SessionRows
  import opened QuestSteps
  import opened QuestInvariants
  import opened Sums
  import opened QuestRuns
  import S = SessionInvariants

  // ---- The three paths pick the same attempts ----

  /** The clock is within the millisecond that follows the deadline's: the job sees it, the service,
      which drops the microseconds, does not. */
  predicate JustPastDeadline(sessions: Sessions, a: Attempt, clock: int) {
    && Deadline(sessions, a).Some?
    && Deadline(sessions, a).value * 1000 < clock < (Deadline(sessions, a).value + 1) * 1000
  }

  /** At equal times the check of one attempt and the batch run at a start pick the same attempts. The
      background job picks those too, and beyond them exactly the open attempts whose deadline passed
      less than a millisecond ago. */
  lemma PathsAgree(db: Db, id: Uuid, clock: nat)
    requires Inv(db) && id in db.attempts
    ensures
      var a := db.attempts[id];
      && (id in TouchScope(db, id, clock / 1000) <==> id in BatchScope(db, a.user, a.quest, clock / 1000))
      && (id in JobScope(db, clock) <==>
            id in TouchScope(db, id, clock / 1000) || (a.status.InProgress? && JustPastDeadline(db.sessions, a, clock)))
      && !(id in TouchScope(db, id, clock / 1000) && JustPastDeadline(db.sessions, a, clock))
  {
    hide Sum, BalanceOk, LedgerOk, OneCounts, AnswersOk, Playable;
    var a := db.attempts[id];
    assert AttemptOk(a) && RefersOk(db, a);
    assert RowOk(db.sessions[a.session]);
    assert clock == (clock / 1000) * 1000 + clock % 1000;
  }

  // ---- What an expiry writes does not depend on when it runs ----

  /** Every expired attempt was completed at its deadline. */
  ghost predicate ExpiredAtDeadline(db: Db) {
    forall id | id in db.attempts && db.attempts[id].status.Expired? ::
      db.attempts[id].completedAt == Deadline(db.sessions, db.attempts[id])
  }

  /** A due attempt stays due, and the row an expiry would write stays the same: a session's end is
      written once. */
  lemma DueStaysDue(before: Sessions, after: Sessions, a: Attempt, now: int, later: int)
    requires NeedsExpiry(before, a, now) && S.SessionsEvolve(before, after) && SessionRowsOk(after) && now <= later
    ensures NeedsExpiry(after, a, later) && Expire(after, a) == Expire(before, a)
  {
    assert Evolves(before[a.session], after[a.session]);
    assert RowOk(after[a.session]);
  }

  lemma ExpiryWritesDeadline(db: Db, due: set<Uuid>)
    ensures
      var r := ExpireWhere(db.sessions, db.attempts, due);
      ExpiredAtDeadline(db) && r.Some? ==> ExpiredAtDeadline(db.(attempts := r.value))
  {}

  lemma SessionsMoveKeepsDeadlines(db: Db, sessions: Sessions)
    requires Inv(db) && ExpiredAtDeadline(db) && S.SessionsEvolve(db.sessions, sessions)
    ensures ExpiredAtDeadline(db.(sessions := sessions))
  {
    hide Sum, BalanceOk, LedgerOk, OneCounts, AnswersOk, Playable, SessionRowsOk;
    forall id | id in db.attempts && db.attempts[id].status.Expired?
      ensures db.attempts[id].completedAt == Deadline(sessions, db.attempts[id])
    {
      assert AttemptOk(db.attempts[id]);
      assert Evolves(db.sessions[db.attempts[id].session], sessions[db.attempts[id].session]);
    }
  }

  lemma StepWritesDeadline(db: Db, a: Action)
    requires Inv(db) && ExpiredAtDeadline(db) && Allowed(db, a)
    ensures ExpiredAtDeadline(Step(db, a))
  {
    hide Inv, ExpireWhere, WithAnswers, Grade, QuestSteps.ToSnapshot, Playable, LatestActiveSession, FindQuest,
         ActiveAttempt, LatestAttempt, HasPassed, BatchScope, TouchScope, JobScope;
    match a
    case Begin(user, code, key, clock, newId) =>
      var found := FindQuest(db.quests, code);
      if found.Some? { ExpiryWritesDeadline(db, BatchScope(db, user, found.value, clock / 1000)); }
    case Look(user, id, clock) => ExpiryWritesDeadline(db, TouchScope(db, id, clock / 1000));
    case Choose(user, id, chosen, clock) => ExpiryWritesDeadline(db, TouchScope(db, id, clock / 1000));
    case HandIn(user, id, key, clock, enabled, newEntry) => ExpiryWritesDeadline(db, TouchScope(db, id, clock / 1000));
    case ExpireJob(clock) => ExpiryWritesDeadline(db, JobScope(db, clock));
    case SessionsMove(sessions) => SessionsMoveKeepsDeadlines(db, sessions);
    case QuestsMove(quests) =>
  }

  lemma {:induction false} RunWritesDeadline(db: Db, actions: seq<Action>)
    requires Inv(db) && ExpiredAtDeadline(db) && Runnable(db, actions)
    ensures ExpiredAtDeadline(Run(db, actions))
    decreases |actions|
  {
    hide Inv, Step, Allowed, ExpiredAtDeadline;
    if actions != [] {
      StepKeeps(db, actions[0]);
      StepWritesDeadline(db, actions[0]);
      RunWritesDeadline(Step(db, actions[0]), actions[1..]);
    }
  }

  lemma ReachableWritesDeadline(db: Db)
    requires Reachable(db)
    ensures ExpiredAtDeadline(db)
  {
    var actions :| Runnable(EMPTY, actions) && Run(EMPTY, actions) == db;
    EmptyInv();
    assert ExpiredAtDeadline(EMPTY);
    hide Run, Runnable, Inv, ExpiredAtDeadline;
    RunWritesDeadline(EMPTY, actions);
  }

  /** In every reachable state an expired attempt was completed five minutes after its session ended,
      whichever path expired it and however late. */
  lemma ExpiredFiveMinutesAfterSession(db: Db, id: Uuid)
    requires Reachable(db) && id in db.attempts && db.attempts[id].status.Expired?
    ensures
      var a := db.attempts[id];
      && a.session in db.sessions && db.sessions[a.session].endedAt.Some?
      && a.completedAt == Some(db.sessions[a.session].endedAt.value + 300_000)
  {
    hide Reachable, BalanceOk, LedgerOk, OneCounts, AnswersOk, RefersOk, SessionRowsOk;
    ReachableWritesDeadline(db);
    ReachableInv();
    assert AttemptOk(db.attempts[id]);
  }

  // ---- Submitting in time ----

  /** After the check a client may submit exactly the attempts that are in progress. */
  lemma CanSubmitIsInProgress(db: Db, user: Uuid, id: Uuid, clock: nat)
    requires Inv(db) && Get(db, user, id, clock).1.Ok?
    ensures
      var (after, shown) := Get(db, user, id, clock);
      && id in after.attempts && shown.value.status == after.attempts[id].status
      && (shown.value.canSubmit <==> after.attempts[id].status.InProgress?)
  {
    hide Sum, BalanceOk, LedgerOk, OneCounts, AnswersOk, Playable;
    assert AttemptOk(db.attempts[id]) && RefersOk(db, db.attempts[id]);
    assert RowOk(db.sessions[db.attempts[id].session]);
  }

  /** An attempt is graded only while its session runs or within five minutes of its end. */
  lemma GradedInTime(db: Db, user: Uuid, id: Uuid, key: Uuid, clock: nat, enabled: bool, newEntry: Uuid)
    requires Inv(db) && id in db.attempts
    ensures
      var after := Submit(db, user, id, key, clock, enabled, newEntry).0;
      var s := db.sessions[db.attempts[id].session];
      id in after.attempts && (after.attempts[id] != db.attempts[id] ==>
        && db.attempts[id].status.InProgress? && db.attempts[id].user == user && enabled
        && (Active(s) || (s.endedAt.Some? && clock / 1000 <= s.endedAt.value + 300_000))
        && after.attempts[id].submittedAt == Some(clock / 1000)
        && (after.attempts[id].status.Passed? || after.attempts[id].status.NotPassed?))
  {
    hide Inv, Touch, Settle, QuestSteps.ToSnapshot, PointAward, AttemptOk, RowOk, Active;
    AttemptInOrder(db, id);
    TouchFrame(db, id, clock / 1000);
    TouchLeavesInProgress(db, id, clock / 1000);
    var touched := Touch(db, id, clock / 1000);
    if touched.Some? && Owns(db.attempts, user, id) { SettleMeaning(touched.value, user, id, clock / 1000, newEntry); }
  }

  lemma AttemptInOrder(db: Db, id: Uuid)
    requires Inv(db) && id in db.attempts
    ensures AttemptOk(db.attempts[id]) && db.attempts[id].session in db.sessions
    ensures RowOk(db.sessions[db.attempts[id].session])
  {
    hide BalanceOk, LedgerOk, OneCounts, AnswersOk, Playable;
    assert RefersOk(db, db.attempts[id]);
  }

  /** An expired attempt is not settled; settling changes no other attempt, and this one only by grading it now. */
  lemma SettleMeaning(t: Db, user: Uuid, id: Uuid, now: int, newEntry: Uuid)
    requires id in t.attempts
    ensures
      var r := Settle(t, user, id, now, newEntry);
      r.Ok? ==>
        && !t.attempts[id].status.Expired?
        && r.value.sessions == t.sessions && r.value.attempts.Keys == t.attempts.Keys
        && (forall k | k in t.attempts && k != id :: r.value.attempts[k] == t.attempts[k])
        && var row := r.value.attempts[id];
           row != t.attempts[id] ==>
             t.attempts[id].status.InProgress? && row.submittedAt == Some(now)
               && (row.status.Passed? || row.status.NotPassed?)
  {
    hide Grade, CorrectRows, Score, AnsweredQuestions, Playable;
  }

  /** What is still in progress after the check is untouched and within its time. */
  lemma TouchLeavesInProgress(db: Db, id: Uuid, now: int)
    requires id in db.attempts && AttemptOk(db.attempts[id])
    requires db.attempts[id].session in db.sessions && RowOk(db.sessions[db.attempts[id].session])
    ensures Touch(db, id, now).Some? ==>
      var row := Touch(db, id, now).value.attempts[id];
      var s := db.sessions[db.attempts[id].session];
      && (row == db.attempts[id] || row.status.Expired?)
      && (row.status.InProgress? ==> Active(s) || (s.endedAt.Some? && now <= s.endedAt.value + 300_000))
  {}

  // ---- When an expiry fails ----

  /** An open attempt that was started after the deadline its session turned out to have. */
  predicate StartedTooLate(db: Db, id: Uuid) {
    && id in db.attempts && db.attempts[id].status.InProgress?
    && Deadline(db.sessions, db.attempts[id]).Some?
    && Deadline(db.sessions, db.attempts[id]).value < db.attempts[id].startedAt
  }

  /** The background job expires every due attempt if none of them was started too late, and otherwise
      changes nothing at all. */
  lemma JobIsAllOrNothing(db: Db, clock: nat)
    requires Inv(db)
    ensures
      var after := RunJob(db, clock);
      var blocked := exists id :: id in JobScope(db, clock) && StartedTooLate(db, id);
      && after == db.(attempts := after.attempts) && after.attempts.Keys == db.attempts.Keys
      && (forall id | id in db.attempts ::
            after.attempts[id] == if id in JobScope(db, clock) && !blocked then Expire(db.sessions, db.attempts[id])
              else db.attempts[id])
      && (JobScope(after, clock) == {} <==> !blocked || JobScope(db, clock) == {})
  {
    hide Sum, BalanceOk, LedgerOk, OneCounts, AnswersOk, Playable, SessionRowsOk;
    forall id | id in JobScope(db, clock)
      ensures ExpiryAllowed(db.sessions, db.attempts[id]) <==> !StartedTooLate(db, id)
    {
      assert AttemptOk(db.attempts[id]);
    }
  }

  /** The same for one attempt: touching it fails exactly if it is due and was started too late. */
  lemma TouchFails(db: Db, id: Uuid, now: int)
    requires Inv(db) && id in db.attempts
    ensures Touch(db, id, now).None? <==> NeedsExpiry(db.sessions, db.attempts[id], now) && StartedTooLate(db, id)
  {
    hide Sum, BalanceOk, LedgerOk, OneCounts, AnswersOk, Playable, SessionRowsOk;
    assert AttemptOk(db.attempts[id]);
  }

  predicate AfterDeadline(a: Action, deadline: int) {
    match a
    case Begin(_, _, _, clock, _) => deadline < clock / 1000
    case Look(_, _, clock) => deadline < clock / 1000
    case Choose(_, _, _, clock) => deadline < clock / 1000
    case HandIn(_, _, _, clock, _, _) => deadline < clock / 1000
    case _ => true
  }

  /** The expiring UPDATE changes nothing about an attempt started too late. */
  lemma StuckRow(db: Db, due: set<Uuid>, id: Uuid)
    ensures
      var r := ExpireWhere(db.sessions, db.attempts, due);
      StartedTooLate(db, id) && r.Some? ==> id !in due && id in r.value && r.value[id] == db.attempts[id]
  {}

  /** The attempt, its deadline and its lateness are the same in both states. */
  ghost predicate SameStuck(db: Db, after: Db, id: Uuid) {
    && id in db.attempts && StartedTooLate(after, id) && after.attempts[id] == db.attempts[id]
    && Deadline(after.sessions, after.attempts[id]) == Deadline(db.sessions, db.attempts[id])
  }

  lemma StuckStart(db: Db, user: Uuid, code: string, key: Uuid, clock: nat, newId: Uuid, id: Uuid)
    requires StartedTooLate(db, id) && newId !in db.attempts
    ensures SameStuck(db, Start(db, user, code, key, clock, newId).0, id)
  {
    hide ExpireWhere, QuestSteps.ToSnapshot, LatestActiveSession, FindQuest, ActiveAttempt, LatestAttempt, HasPassed,
         BatchScope;
    var found := FindQuest(db.quests, code);
    if found.Some? { StuckRow(db, BatchScope(db, user, found.value, clock / 1000), id); }
  }

  lemma StuckTouch(db: Db, other: Uuid, now: int, id: Uuid)
    requires StartedTooLate(db, id) && db.attempts[id].session in db.sessions
    requires !Active(db.sessions[db.attempts[id].session])
    requires Deadline(db.sessions, db.attempts[id]).value < now
    ensures Touch(db, other, now).Some? ==> other != id && SameStuck(db, Touch(db, other, now).value, id)
  {
    StuckRow(db, TouchScope(db, other, now), id);
  }

  lemma StuckSubmit(db: Db, user: Uuid, other: Uuid, key: Uuid, clock: nat, enabled: bool, newEntry: Uuid, id: Uuid)
    requires StartedTooLate(db, id) && db.attempts[id].session in db.sessions
    requires !Active(db.sessions[db.attempts[id].session])
    requires Deadline(db.sessions, db.attempts[id]).value < clock / 1000
    ensures SameStuck(db, Submit(db, user, other, key, clock, enabled, newEntry).0, id)
  {
    StuckTouch(db, other, clock / 1000, id);
    StuckReflexive(db, id);
    TouchFrame(db, other, clock / 1000);
    hide Touch, Settle, QuestSteps.ToSnapshot, PointAward, Active, StartedTooLate;
    var touched := Touch(db, other, clock / 1000);
    if touched.Some? && Owns(db.attempts, user, other) {
      SettleMeaning(touched.value, user, other, clock / 1000, newEntry);
    }
    hide Deadline;
  }

  lemma StuckReplace(db: Db, user: Uuid, other: Uuid, chosen: seq<(Uuid, Uuid)>, clock: nat, id: Uuid)
    requires StartedTooLate(db, id) && db.attempts[id].session in db.sessions
    requires !Active(db.sessions[db.attempts[id].session])
    requires Deadline(db.sessions, db.attempts[id]).value < clock / 1000
    ensures SameStuck(db, Replace(db, user, other, chosen, clock).0, id)
  {
    StuckTouch(db, other, clock / 1000, id);
    TouchFrame(db, other, clock / 1000);
    hide Touch, WithAnswers, QuestSteps.ToSnapshot, ValidChoice;
  }

  /** An attempt started too late is stuck: no step after its deadline changes it. */
  lemma StuckStep(db: Db, a: Action, id: Uuid)
    requires Inv(db) && Allowed(db, a) && StartedTooLate(db, id)
    requires AfterDeadline(a, Deadline(db.sessions, db.attempts[id]).value)
    ensures SameStuck(db, Step(db, a), id)
  {
    hide Inv, Start, Replace, Submit, Touch, ExpireWhere, QuestSteps.ToSnapshot, JobScope, StartedTooLate, SameStuck,
         S.SessionsEvolve, SessionRowsOk, QuestsExtend, Active, Deadline;
    StuckIsDue(db, id);
    StuckReflexive(db, id);
    match a
    case Begin(user, code, key, clock, newId) => StuckStart(db, user, code, key, clock, newId, id);
    case Look(user, other, clock) => StuckTouch(db, other, clock / 1000, id);
    case Choose(user, other, chosen, clock) => StuckReplace(db, user, other, chosen, clock, id);
    case HandIn(user, other, key, clock, enabled, newEntry) =>
      StuckSubmit(db, user, other, key, clock, enabled, newEntry, id);
    case ExpireJob(clock) => StuckJob(db, clock, id);
    case SessionsMove(sessions) => StuckMove(db, sessions, id);
    case QuestsMove(quests) =>
  }

  lemma StuckJob(db: Db, clock: nat, id: Uuid)
    requires StartedTooLate(db, id)
    ensures SameStuck(db, RunJob(db, clock), id)
  {
    StuckRow(db, JobScope(db, clock), id);
    hide ExpireWhere, JobScope;
  }

  lemma StuckReflexive(db: Db, id: Uuid)
    ensures StartedTooLate(db, id) ==>
      forall u: Db | u.sessions == db.sessions && u.attempts == db.attempts :: SameStuck(db, u, id)
  {}

  lemma StuckMove(db: Db, sessions: Sessions, id: Uuid)
    requires StartedTooLate(db, id) && S.SessionsEvolve(db.sessions, sessions)
    ensures SameStuck(db, db.(sessions := sessions), id)
  {
    assert Evolves(db.sessions[db.attempts[id].session], sessions[db.attempts[id].session]);
  }

  lemma StuckIsDue(db: Db, id: Uuid)
    requires Inv(db) && StartedTooLate(db, id)
    ensures db.attempts[id].session in db.sessions && !Active(db.sessions[db.attempts[id].session])
  {
    hide Sum, BalanceOk, LedgerOk, OneCounts, AnswersOk, Playable;
    assert RefersOk(db, db.attempts[id]) && RowOk(db.sessions[db.attempts[id].session]);
  }

  /** The attempt's user is refused everything about it at a time: looking at it, answering, submitting
      under a new key, and starting its quest again. Each refusal changes nothing. */
  ghost predicate Refused(db: Db, id: Uuid, clock: nat)
    requires id in db.attempts
  {
    var user, quest := db.attempts[id].user, db.attempts[id].quest;
    && Get(db, user, id, clock) == (db, Err(CheckViolation))
    && (forall chosen: seq<(Uuid, Uuid)> :: Replace(db, user, id, chosen, clock) == (db, Err(CheckViolation)))
    && (forall key: Uuid, newEntry: Uuid | (user, key) !in db.idempotency ::
          Submit(db, user, id, key, clock, true, newEntry) == (db, Err(CheckViolation)))
    && (forall code: string, key: Uuid, newId: Uuid | (user, key) !in db.idempotency
         && FindQuest(db.quests, code) == Some(quest)
          && LatestActiveSession(db.sessions, user).Some? ::
          Start(db, user, code, key, clock, newId) == (db, Err(CheckViolation)))
  }

  lemma StuckTouchFails(db: Db, id: Uuid, clock: nat)
    requires Inv(db) && StartedTooLate(db, id) && Deadline(db.sessions, db.attempts[id]).value < clock / 1000
    ensures Touch(db, id, clock / 1000).None?
    ensures ExpireWhere(db.sessions, db.attempts,
      BatchScope(db, db.attempts[id].user, db.attempts[id].quest, clock / 1000)).None?
  {
    StuckIsDue(db, id);
    TouchFails(db, id, clock / 1000);
    var due := BatchScope(db, db.attempts[id].user, db.attempts[id].quest, clock / 1000);
    assert id in due;
    StuckRow(db, due, id);
  }

  lemma StuckIsRefused(db: Db, id: Uuid, clock: nat)
    requires Inv(db) && StartedTooLate(db, id) && Deadline(db.sessions, db.attempts[id]).value < clock / 1000
    ensures Refused(db, id, clock)
  {
    StuckTouchFails(db, id, clock);
    hide Inv, Touch, ExpireWhere, BatchScope, FindQuest, LatestActiveSession, StartedTooLate, Deadline;
  }

  /** In every later run past its deadline the attempt stays exactly as it is, and at every time past the
      deadline its user is refused everything about it. */
  lemma {:induction false} StuckForever(db: Db, actions: seq<Action>, id: Uuid)
    requires Inv(db) && Runnable(db, actions) && StartedTooLate(db, id)
    requires forall i | 0 <= i < |actions| :: AfterDeadline(actions[i], Deadline(db.sessions, db.attempts[id]).value)
    ensures
      var after := Run(db, actions);
      && id in after.attempts && after.attempts[id] == db.attempts[id]
      && forall clock: nat | Deadline(db.sessions, db.attempts[id]).value < clock / 1000 :: Refused(after, id, clock)
    decreases |actions|
  {
    hide Inv, Step, Allowed, AfterDeadline, Refused;
    if actions == [] {
      forall clock: nat | Deadline(db.sessions, db.attempts[id]).value < clock / 1000 ensures Refused(db, id, clock) {
        StuckIsRefused(db, id, clock);
      }
    } else {
      StepKeeps(db, actions[0]);
      StuckStep(db, actions[0], id);
      forall i | 0 <= i < |actions[1..]|
        ensures AfterDeadline(actions[1..][i], Deadline(db.sessions, db.attempts[id]).value)
      {
        assert actions[1..][i] == actions[i + 1];
      }
      StuckForever(Step(db, actions[0]), actions[1..], id);
    }
  }
}
