/**
 What never changes again: settled attempts and their answers, ledger entries,
 and the stored answer to a request that is sent again.
 */
module QuestSettled {
  import opened Wrappers
  import opened SessionRows
  import opened QuestSteps
  import opened QuestInvariants
  import opened Sums
  import opened QuestRuns

  /** The identity of an attempt is fixed, and a settled attempt never changes. */
  predicate RowEvolves(a: Attempt, b: Attempt) {
    && b.user == a.user && b.quest == a.quest && b.session == a.session && b.startedAt == a.startedAt
    && (!Editable(a) ==> b == a)
  }

  ghost predicate RowsEvolve(before: Attempts, after: Attempts) {
    forall id | id in before :: id in after && RowEvolves(before[id], after[id])
  }

  /** The answers of settled attempts are frozen. */
  ghost predicate AnswersFrozen(before: Db, after: Db) {
    forall k: (Uuid, Uuid) | k.0 in before.attempts && !Editable(before.attempts[k.0]) ::
      (k in before.answers <==> k in after.answers) && (k in before.answers ==> after.answers[k] == before.answers[k])
  }

  ghost predicate LedgerGrows(before: Ledger, after: Ledger) {
    forall k | k in before :: k in after && after[k] == before[k]
  }

  ghost predicate KeysKept(before: Db, after: Db) {
    forall k | k in before.idempotency :: k in after.idempotency && after.idempotency[k] == before.idempotency[k]
  }

  ghost predicate Settles(before: Db, after: Db) {
    && RowsEvolve(before.attempts, after.attempts) && AnswersFrozen(before, after)
    && LedgerGrows(before.ledger, after.ledger) && KeysKept(before, after)
  }

  lemma SettlesTransitive(a: Db, b: Db, c: Db)
    requires Settles(a, b) && Settles(b, c)
    ensures Settles(a, c)
  {
    assert RowsEvolve(a.attempts, c.attempts) by {
      forall id | id in a.attempts ensures id in c.attempts && RowEvolves(a.attempts[id], c.attempts[id]) {
        assert id in b.attempts && RowEvolves(a.attempts[id], b.attempts[id])
          && RowEvolves(b.attempts[id], c.attempts[id]);
      }
    }
    forall k: (Uuid, Uuid) | k.0 in a.attempts && !Editable(a.attempts[k.0])
      ensures (k in a.answers <==> k in c.answers) && (k in a.answers ==> c.answers[k] == a.answers[k])
    {
      assert k.0 in b.attempts && RowEvolves(a.attempts[k.0], b.attempts[k.0]);
    }
  }

  lemma ExpirySettles(db: Db, due: set<Uuid>)
    ensures
      var r := ExpireWhere(db.sessions, db.attempts, due);
      ExpiresOpen(db, due) && r.Some? ==> Settles(db, db.(attempts := r.value))
  {}

  lemma TouchSettles(db: Db, id: Uuid, now: int)
    ensures Touch(db, id, now).Some? ==> Settles(db, Touch(db, id, now).value)
  {
    ScopesExpireOpen(db, 0, 0, id, now, 0);
    ExpirySettles(db, TouchScope(db, id, now));
  }

  lemma StartSettles(db: Db, user: Uuid, code: string, key: Uuid, clock: nat, newId: Uuid)
    requires newId !in db.attempts
    ensures Settles(db, Start(db, user, code, key, clock, newId).0)
  {
    hide ExpireWhere, QuestSteps.ToSnapshot, LatestActiveSession, FindQuest, ActiveAttempt, LatestAttempt, HasPassed,
         BatchScope, Settles, ExpiresOpen;
    NothingSettles(db);
    var found, after := FindQuest(db.quests, code), Start(db, user, code, key, clock, newId).0;
    if found.Some? && after != db {
      var due := BatchScope(db, user, found.value, clock / 1000);
      ScopesExpireOpen(db, user, found.value, 0, clock / 1000, 0);
      ExpirySettles(db, due);
      var t := db.(attempts := ExpireWhere(db.sessions, db.attempts, due).value);
      InsertSettles(db, t, newId, after.attempts);
      KeySettles(db, t.(attempts := after.attempts), (user, key), after.idempotency[(user, key)]);
    }
  }

  lemma InsertSettles(db: Db, t: Db, newId: Uuid, attempts: Attempts)
    requires Settles(db, t) && newId !in db.attempts
    requires attempts == t.attempts || (newId in attempts && attempts == t.attempts[newId := attempts[newId]])
    ensures Settles(db, t.(attempts := attempts))
  {}

  lemma {:induction false} PutAnswersKeeps(answers: Answers, id: Uuid, chosen: seq<(Uuid, Uuid)>)
    ensures
      var r := PutAnswers(answers, id, chosen);
      forall k: (Uuid, Uuid) | k.0 != id :: (k in r <==> k in answers) && (k in r ==> r[k] == answers[k])
    decreases |chosen|
  {
    if chosen != [] {
      PutAnswersKeeps(answers[(id, chosen[0].0) := Answer(chosen[0].1, None)], id, chosen[1..]);
    }
  }

  lemma WithAnswersSettles(t: Db, id: Uuid, chosen: seq<(Uuid, Uuid)>)
    requires id in t.attempts && t.attempts[id].status.InProgress?
    ensures Settles(t, t.(answers := WithAnswers(t.answers, id, chosen)))
  {
    PutAnswersKeeps(map k | k in t.answers && k.0 != id :: t.answers[k], id, chosen);
  }

  lemma ReplaceSettles(db: Db, user: Uuid, id: Uuid, chosen: seq<(Uuid, Uuid)>, clock: nat)
    ensures Settles(db, Replace(db, user, id, chosen, clock).0)
  {
    NothingSettles(db);
    TouchSettles(db, id, clock / 1000);
    TouchFrame(db, id, clock / 1000);
    var touched := Touch(db, id, clock / 1000);
    if touched.Some? && id in db.attempts && touched.value.attempts[id].status.InProgress? {
      WithAnswersSettles(touched.value, id, chosen);
      SettlesTransitive(db, touched.value, touched.value.(answers := WithAnswers(touched.value.answers, id, chosen)));
    }
    hide Touch, QuestSteps.ToSnapshot, ValidChoice, WithAnswers, Settles;
  }

  lemma KeySettles(db: Db, t: Db, key: (Uuid, Uuid), stored: Stored)
    ensures Settles(db, t) && t.idempotency == db.idempotency && key !in db.idempotency ==>
      Settles(db, t.(idempotency := db.idempotency[key := stored]))
  {}

  lemma GradeSettles(t: Db, user: Uuid, id: Uuid, now: int, newEntry: Uuid)
    requires id in t.attempts && newEntry !in t.ledger
    ensures
      var r := GradeAttempt(t, user, id, now, newEntry);
      r.Ok? ==> Settles(t, r.value)
  {
    hide Playable, CorrectRows, AnsweredQuestions, Score;
  }

  lemma SubmitSettles(db: Db, user: Uuid, id: Uuid, key: Uuid, clock: nat, enabled: bool, newEntry: Uuid)
    requires newEntry !in db.ledger
    ensures Settles(db, Submit(db, user, id, key, clock, enabled, newEntry).0)
  {
    hide Touch, QuestSteps.ToSnapshot, GradeAttempt, PointAward, Settles;
    NothingSettles(db);
    TouchSettles(db, id, clock / 1000);
    TouchFrame(db, id, clock / 1000);
    var touched, after := Touch(db, id, clock / 1000), Submit(db, user, id, key, clock, enabled, newEntry).0;
    if touched.Some? && Owns(db.attempts, user, id) && after != db {
      var t := touched.value;
      GradeFrame(t, user, id, clock / 1000, newEntry);
      GradeSettles(t, user, id, clock / 1000, newEntry);
      var graded := GradeAttempt(t, user, id, clock / 1000, newEntry);
      var stored := after.idempotency[(user, key)];
      if t.attempts[id].status.Passed? || t.attempts[id].status.NotPassed? {
        KeySettles(db, t, (user, key), stored);
      } else {
        SettlesTransitive(db, t, graded.value);
        KeySettles(db, graded.value, (user, key), stored);
      }
    }
  }

  lemma GradeFrame(t: Db, user: Uuid, id: Uuid, now: int, newEntry: Uuid)
    requires id in t.attempts
    ensures GradeAttempt(t, user, id, now, newEntry).Ok? ==>
      GradeAttempt(t, user, id, now, newEntry).value.idempotency == t.idempotency
  {
    hide Playable, CorrectRows, AnsweredQuestions, Score, Grade;
  }

  lemma StepSettles(db: Db, a: Action)
    requires Allowed(db, a)
    ensures Settles(db, Step(db, a))
  {
    match a
    case Begin(user, code, key, clock, newId) => StartSettles(db, user, code, key, clock, newId);
    case Look(user, id, clock) => TouchSettles(db, id, clock / 1000);
    case Choose(user, id, chosen, clock) => ReplaceSettles(db, user, id, chosen, clock);
    case HandIn(user, id, key, clock, enabled, newEntry) => SubmitSettles(db, user, id, key, clock, enabled, newEntry);
    case ExpireJob(clock) =>
      ScopesExpireOpen(db, 0, 0, 0, 0, clock);
      ExpirySettles(db, JobScope(db, clock));
    case SessionsMove(sessions) =>
    case QuestsMove(quests) =>
  }

  /** Over any run: attempts keep who, what and when they are; settled attempts and their answers never
      change; the ledger and the stored replies only grow. */
  lemma {:induction false} RunSettles(db: Db, actions: seq<Action>)
    requires Runnable(db, actions)
    ensures Settles(db, Run(db, actions))
    decreases |actions|
  {
    hide Step, Allowed, Settles;
    if actions == [] {
      NothingSettles(db);
    } else {
      StepSettles(db, actions[0]);
      RunSettles(Step(db, actions[0]), actions[1..]);
      SettlesTransitive(db, Step(db, actions[0]), Run(db, actions));
    }
  }

  lemma NothingSettles(db: Db)
    ensures Settles(db, db)
  {}

  /** A submission sent again after any run gets the reply of the first one and changes nothing, so it
      never grades or rewards twice. */
  lemma SubmitIsIdempotent(db: Db, user: Uuid, id: Uuid, key: Uuid, clock: nat, newEntry: Uuid,
                           actions: seq<Action>, again: nat, otherEntry: Uuid)
    requires newEntry !in db.ledger && Submit(db, user, id, key, clock, true, newEntry).1.Ok?
    requires Runnable(Submit(db, user, id, key, clock, true, newEntry).0, actions)
    ensures
      var (first, reply) := Submit(db, user, id, key, clock, true, newEntry);
      Submit(Run(first, actions), user, id, key, again, true, otherEntry) == (Run(first, actions), reply)
  {
    var (first, reply) := Submit(db, user, id, key, clock, true, newEntry);
    SubmitStores(db, user, id, key, clock, newEntry);
    hide Submit, GradeAttempt, Touch;
    RunSettles(first, actions);
    assert RowEvolves(first.attempts[id], Run(first, actions).attempts[id]);
    StoredSubmit(Run(first, actions), user, id, key, again, otherEntry);
  }

  lemma SubmitStores(db: Db, user: Uuid, id: Uuid, key: Uuid, clock: nat, newEntry: Uuid)
    requires newEntry !in db.ledger && Submit(db, user, id, key, clock, true, newEntry).1.Ok?
    ensures
      var (first, reply) := Submit(db, user, id, key, clock, true, newEntry);
      && Owns(first.attempts, user, id) && (user, key) in first.idempotency
      && first.idempotency[(user, key)] == Stored(SubmitOf(id), reply.value)
  {
    hide Touch, QuestSteps.ToSnapshot, GradeAttempt, PointAward;
    SubmitSettles(db, user, id, key, clock, true, newEntry);
    assert RowEvolves(db.attempts[id], Submit(db, user, id, key, clock, true, newEntry).0.attempts[id]);
  }

  lemma StoredSubmit(db: Db, user: Uuid, id: Uuid, key: Uuid, clock: nat, newEntry: Uuid)
    requires Owns(db.attempts, user, id) && (user, key) in db.idempotency
    requires db.idempotency[(user, key)].request == SubmitOf(id)
    ensures Submit(db, user, id, key, clock, true, newEntry) == (db, Ok(db.idempotency[(user, key)].response))
  {
    hide Touch, QuestSteps.ToSnapshot, GradeAttempt, PointAward;
  }

  /** The same for starting: one key opens one attempt, however often it is sent. */
  lemma StartIsIdempotent(db: Db, user: Uuid, code: string, key: Uuid, clock: nat, newId: Uuid,
                          actions: seq<Action>, again: nat, otherId: Uuid)
    requires newId !in db.attempts && Start(db, user, code, key, clock, newId).1.Ok?
    requires Runnable(Start(db, user, code, key, clock, newId).0, actions)
    ensures
      var (first, reply) := Start(db, user, code, key, clock, newId);
      Start(Run(first, actions), user, code, key, again, otherId) == (Run(first, actions), reply)
  {
    hide ExpireWhere, QuestSteps.ToSnapshot, LatestActiveSession, FindQuest, ActiveAttempt, LatestAttempt, HasPassed,
         BatchScope, Run, Runnable;
    RunSettles(Start(db, user, code, key, clock, newId).0, actions);
  }

  /** A graded attempt submitted under another key is shown as it is: no attempt, answer or ledger entry
      changes, and the award shown is the one its pass earned. */
  lemma GradedOnce(db: Db, user: Uuid, id: Uuid, key: Uuid, clock: nat, newEntry: Uuid)
    requires Inv(db) && Owns(db.attempts, user, id) && (user, key) !in db.idempotency
    requires db.attempts[id].status.Passed? || db.attempts[id].status.NotPassed?
    ensures
      var (after, reply) := Submit(db, user, id, key, clock, true, newEntry);
      && after == db.(idempotency := after.idempotency) && reply.Ok?
      && (reply.value.award.Some? <==> db.attempts[id].status.Passed?)
      && (reply.value.award.Some? ==> Some(reply.value.award.value.1) == db.attempts[id].reward)
  {
    hide Inv, PointAward, Touch, GradeAttempt, QuestSteps.ToSnapshot;
    SettledIsNotTouched(db, id, clock / 1000);
    AwardIsReward(db, user, id);
  }

  /** A graded attempt has an award exactly if it passed, and the award is its reward. */
  lemma AwardIsReward(db: Db, user: Uuid, id: Uuid)
    requires Inv(db) && Owns(db.attempts, user, id)
    ensures
      var award := PointAward(db.ledger, user, id);
      && (award.Some? <==> db.attempts[id].status.Passed?)
      && (award.Some? ==> Some(award.value.1) == db.attempts[id].reward)
  {
    hide BalanceOk, OneCounts, AnswersOk, AttemptsOk, SessionRowsOk, OneEntryPerAttempt;
    var award := PointAward(db.ledger, user, id);
    if db.attempts[id].status.Passed? {
      var k :| k in db.ledger && Rewards(db.ledger[k], id);
      assert EntryFits(db.ledger[k], db.attempts);
    }
    if award.Some? { assert EntryFits(db.ledger[award.value.0], db.attempts); }
  }

  lemma SettledIsNotTouched(db: Db, id: Uuid, now: int)
    requires id in db.attempts && !Editable(db.attempts[id])
    ensures Touch(db, id, now) == Some(db)
  {
    var due: set<Uuid> := {};
    assert TouchScope(db, id, now) == due;
    var r := ExpireWhere(db.sessions, db.attempts, due);
    assert r.Some? && r.value == db.attempts;
  }
}
