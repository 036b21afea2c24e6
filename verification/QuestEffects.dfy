/**
 What each quest operation does to the tables, with every reason, limit and
 column written out: when an attempt is over, what a submission is refused for
 and how it is graded, which answers are kept, and what a client is shown.
 */
module QuestEffects {
  import opened Wrappers
  import opened SessionRows
  import opened QuestSteps
  import opened QuestInvariants
  import opened QuestSettled
  import E = SessionEffects

  /** An open attempt whose session ended more than five minutes ago. */
  predicate Overdue(db: Db, a: Attempt, now: int) {
    && a.status == InProgress && a.session in db.sessions
    && var s := db.sessions[a.session];
       !E.Open(s) && s.endedAt.Some? && s.endedAt.value + 300_000 < now
  }

  /** It was even started more than five minutes after its session ended. */
  predicate TooLate(db: Db, a: Attempt) {
    && a.session in db.sessions && db.sessions[a.session].endedAt.Some?
    && db.sessions[a.session].endedAt.value + 300_000 < a.startedAt
  }

  /** The attempt once it is expired: completed five minutes after its session ended. */
  function Over(db: Db, a: Attempt): Attempt {
    if a.session in db.sessions && db.sessions[a.session].endedAt.Some?
    then a.(status := Expired, completedAt := Some(db.sessions[a.session].endedAt.value + 300_000)) else a
  }

  lemma OverdueMeaning(db: Db, id: Uuid, now: int)
    requires Inv(db) && id in db.attempts
    ensures NeedsExpiry(db.sessions, db.attempts[id], now) <==> Overdue(db, db.attempts[id], now)
    ensures Overdue(db, db.attempts[id], now) ==>
      && Expire(db.sessions, db.attempts[id]) == Over(db, db.attempts[id])
      && (ExpiryAllowed(db.sessions, db.attempts[id]) <==> !TooLate(db, db.attempts[id]))
  {
    hide BalanceOk, LedgerOk, OneCounts, AnswersOk, SessionRowsOk, RefersOk;
    assert AttemptOk(db.attempts[id]);
  }

  /** Looking at an attempt expires it exactly if it is overdue, and fails exactly if it is and was
      started too late for that. */
  lemma TouchMeaning(db: Db, id: Uuid, now: int)
    requires Inv(db) && id in db.attempts
    ensures
      var r, a := Touch(db, id, now), db.attempts[id];
      && (r == None <==> Overdue(db, a, now) && TooLate(db, a))
      && (r != None ==> r.value == if Overdue(db, a, now) then db.(attempts := db.attempts[id := Over(db, a)]) else db)
  {
    hide Inv, Overdue, TooLate, Over, NeedsExpiry, ExpiryAllowed, Expire;
    OverdueMeaning(db, id, now);
    var due := TouchScope(db, id, now);
    if Overdue(db, db.attempts[id], now) {
      assert due == {id};
      var r := ExpireWhere(db.sessions, db.attempts, due);
      if r.Some? { assert r.value == db.attempts[id := Over(db, db.attempts[id])]; }
    } else {
      SettledScope(db);
    }
  }

  lemma SettledScope(db: Db)
    ensures ExpireWhere(db.sessions, db.attempts, {}) == Some(db.attempts)
  {
    var none: set<Uuid> := {};
    var r := ExpireWhere(db.sessions, db.attempts, none);
    assert r.Some? && r.value == db.attempts;
  }

  // ---- What a client is shown ----

  /** The attempt as it stands: a deadline once its session has ended, submittable until then, a score
      once it is graded, and another try where the quest allows one. */
  predicate Shows(v: AttemptView, db: Db, id: Uuid, now: int) {
    && id in db.attempts && var a := db.attempts[id];
    && v.id == id && v.session == a.session && v.status == a.status && v.startedAt == a.startedAt
    && v.submittedAt == a.submittedAt && v.completedAt == a.completedAt
    && a.session in db.sessions && a.quest in db.quests && var s := db.sessions[a.session];
    && v.submissionDeadline == (if s.endedAt.Some? then Some(s.endedAt.value + 300_000) else None)
    && v.canSubmit == (a.status == InProgress
                       && (E.Open(s) || (s.endedAt.Some? && now <= s.endedAt.value + 300_000)))
    && v.canRetry == ((a.status == NotPassed || a.status == Expired) && db.quests[a.quest].retryAllowed)
    && v.score == (if a.status == Passed || a.status == NotPassed then a.score else None)
    && v.passed == (if a.status == Passed || a.status == NotPassed then a.passed else None)
  }

  lemma ShowsMeaning(db: Db, id: Uuid, now: int)
    ensures id in db.attempts && db.attempts[id].session in db.sessions && db.attempts[id].quest in db.quests ==>
      Shows(QuestSteps.ToSnapshot(db, id, now), db, id, now)
  {}

  lemma RefersMeaning(db: Db, id: Uuid)
    requires Inv(db) && id in db.attempts
    ensures db.attempts[id].session in db.sessions && db.attempts[id].quest in db.quests
    ensures AttemptOk(db.attempts[id]) && Playable(db.quests[db.attempts[id].quest])
  {
    hide BalanceOk, LedgerOk, OneCounts, AnswersOk, SessionRowsOk, Playable;
    assert RefersOk(db, db.attempts[id]);
  }

  /** A look at an attempt of the user expires it if it is overdue, and shows it. */
  lemma GetMeaning(db: Db, user: Uuid, id: Uuid, clock: nat)
    requires Inv(db)
    ensures
      var (after, reply) := Get(db, user, id, clock);
      var now := clock / 1000;
      if id !in db.attempts || db.attempts[id].user != user then after == db && reply == Err(AttemptNotFound)
      else
        var a := db.attempts[id];
        if Overdue(db, a, now) && TooLate(db, a) then after == db && reply == Err(CheckViolation)
        else
          && after == (if Overdue(db, a, now) then db.(attempts := db.attempts[id := Over(db, a)]) else db)
          && reply.Ok? && Shows(reply.value, after, id, now)
  {
    hide Inv, Touch, Overdue, TooLate, QuestSteps.ToSnapshot, Shows, Playable, AttemptOk;
    if Owns(db.attempts, user, id) {
      TouchMeaning(db, id, clock / 1000);
      RefersMeaning(db, id);
      var touched := Touch(db, id, clock / 1000);
      if touched.Some? { ShowsMeaning(touched.value, id, clock / 1000); }
    }
  }

  // ---- Submitting ----

  /** Why a submission under a new key is refused: the attempt cannot expire although it is overdue, or
      is over; a question has no answer; or the clock is before the attempt's start. */
  ghost function SubmitRefusal(db: Db, id: Uuid, now: int): Option<Error>
    requires id in db.attempts && db.attempts[id].quest in db.quests
  {
    var a := db.attempts[id];
    if Overdue(db, a, now) && TooLate(db, a) then Some(CheckViolation)
    else if Overdue(db, a, now) || a.status == Expired then Some(AttemptExpired)
    else if a.status != InProgress then None
    else if exists k :: k in db.quests[a.quest].questions && (id, k) !in db.answers then Some(AttemptIncomplete)
    else if now < a.startedAt then Some(CheckViolation)
    else None
  }

  /** The attempt, its answers and the ledger after grading: the score is the floored percentage of the
      questions answered with the correct option, a score that meets the pass score passes, and a pass
      is entered with the quest's reward. */
  ghost predicate IsGraded(db: Db, after: Db, id: Uuid, now: int, newEntry: Uuid) {
    && id in db.attempts && db.attempts[id].quest in db.quests
    && var a, q := db.attempts[id], db.quests[db.attempts[id].quest];
    var right := CorrectlyAnswered(db.answers, id, q);
    && |q.questions| > 0 && var score := |right| * 100 / |q.questions|;
    && after.attempts == db.attempts[id := Attempt(
         a.user, a.quest, a.session, if score >= q.passScore then Passed else NotPassed, a.startedAt,
         Some(now), Some(now), Some(score), Some(score >= q.passScore), Some(q.rewardPoints))]
    && after.answers.Keys == db.answers.Keys
    && (forall k | k in db.answers :: after.answers[k] ==
          if k.0 == id then Answer(db.answers[k].option, Some(k.1 in right)) else db.answers[k])
    && after.ledger == if score < q.passScore then db.ledger
                       else db.ledger[newEntry := Entry(a.user, a.quest, id, q.rewardPoints, now)]
  }

  lemma AnsweredMeaning(answers: Answers, id: Uuid, q: Quest)
    ensures |AnsweredQuestions(answers, id, q)| == |q.questions| <==> forall k | k in q.questions :: (id, k) in answers
  {
    SubsetSize(AnsweredQuestions(answers, id, q), q.questions.Keys);
    if forall k | k in q.questions :: (id, k) in answers {
      assert AnsweredQuestions(answers, id, q) == q.questions.Keys;
    } else {
      var k :| k in q.questions && (id, k) !in answers;
      assert k !in AnsweredQuestions(answers, id, q);
    }
  }

  lemma MarksMeaning(db: Db, id: Uuid)
    requires AnswersOk(db) && id in db.attempts && db.attempts[id].quest in db.quests
    ensures
      var q := db.quests[db.attempts[id].quest];
      var right, marked := CorrectlyAnswered(db.answers, id, q), Grade(db.answers, id, q);
      && marked.Keys == db.answers.Keys
      && forall k | k in db.answers :: marked[k] ==
           if k.0 == id then Answer(db.answers[k].option, Some(k.1 in right)) else db.answers[k]
  {
    var q := db.quests[db.attempts[id].quest];
    forall k | k in db.answers && k.0 == id
      ensures Grade(db.answers, id, q)[k] ==
        Answer(db.answers[k].option, Some(k.1 in CorrectlyAnswered(db.answers, id, q)))
    {
      assert ValidChoice(q, (k.1, db.answers[k].option)) && k == (id, k.1);
    }
  }

  lemma GradingMeaning(db: Db, user: Uuid, id: Uuid, now: int, newEntry: Uuid)
    requires AnswersOk(db) && Owns(db.attempts, user, id) && db.attempts[id].status == InProgress
    requires db.attempts[id].quest in db.quests && Playable(db.quests[db.attempts[id].quest])
    ensures
      var r, q := GradeAttempt(db, user, id, now, newEntry), db.quests[db.attempts[id].quest];
      if exists k :: k in q.questions && (id, k) !in db.answers then r == Err(AttemptIncomplete)
      else if now < db.attempts[id].startedAt then r == Err(CheckViolation)
      else
        && r.Ok? && r.value == db.(attempts := r.value.attempts, answers := r.value.answers, ledger := r.value.ledger)
        && IsGraded(db, r.value, id, now, newEntry)
  {
    hide AnswersOk, Grade, CorrectRows, AnsweredQuestions, CorrectlyAnswered, WellPosed;
    var q := db.quests[db.attempts[id].quest];
    AnsweredMeaning(db.answers, id, q);
    MarksMeaning(db, id);
    CorrectRowsBound(db, id);
  }

  lemma ShowsRows(v: AttemptView, db: Db, after: Db, id: Uuid, now: int)
    ensures after.sessions == db.sessions && after.quests == db.quests && after.attempts == db.attempts ==>
      Shows(v, after, id, now) == Shows(v, db, id, now)
  {}

  /** The ledger entry a reply shows: the attempt's own, if it passed. */
  predicate ShowsAward(award: Option<(Uuid, nat)>, db: Db, user: Uuid, id: Uuid) {
    && id in db.attempts
    && if db.attempts[id].status == Passed then
         && award.Some? && award.value.0 in db.ledger && var e := db.ledger[award.value.0];
         e.user == user && e.attempt == id && e.points == award.value.1 && db.attempts[id].reward == Some(e.points)
       else award == None
  }

  lemma AwardMeaning(db: Db, user: Uuid, id: Uuid)
    requires Inv(db) && Owns(db.attempts, user, id)
    ensures ShowsAward(PointAward(db.ledger, user, id), db, user, id)
  {
    AwardIsReward(db, user, id);
    hide Inv;
  }

  ghost predicate Submitted(
    db: Db, after: Db, reply: Result<Reply, Error>, user: Uuid, id: Uuid, key: Uuid, now: int, newEntry: Uuid) {
    && id in db.attempts && db.attempts[id].quest in db.quests && var refusal := SubmitRefusal(db, id, now);
    if refusal.Some? then after == db && reply == Err(refusal.value)
    else
      && reply.Ok? && reply.value.Graded? && Shows(reply.value.attempt, after, id, now)
      && ShowsAward(reply.value.award, after, user, id)
      && after == db.(attempts := after.attempts, answers := after.answers, ledger := after.ledger,
                      idempotency := db.idempotency[(user, key) := Stored(SubmitOf(id), reply.value)])
      && if db.attempts[id].status == InProgress then IsGraded(db, after, id, now, newEntry)
         else after.attempts == db.attempts && after.answers == db.answers && after.ledger == db.ledger
  }

  lemma GradedRows(db: Db, t: Db, after: Db, id: Uuid, now: int, newEntry: Uuid)
    requires IsGraded(db, t, id, now, newEntry)
    requires after.attempts == t.attempts && after.answers == t.answers && after.ledger == t.ledger
    ensures IsGraded(db, after, id, now, newEntry)
    ensures
      && id in after.attempts && after.attempts[id].user == db.attempts[id].user
      && after.attempts[id].session == db.attempts[id].session && after.attempts[id].quest == db.attempts[id].quest
  {
    hide CorrectlyAnswered;
  }

  lemma SettledMeaning(db: Db, user: Uuid, id: Uuid, now: int, newEntry: Uuid)
    requires Inv(db) && Owns(db.attempts, user, id) && !Overdue(db, db.attempts[id], now)
    ensures db.attempts[id].quest in db.quests
    ensures
      var r, refusal := Settle(db, user, id, now, newEntry), SubmitRefusal(db, id, now);
      if refusal.Some? then r == Err(refusal.value)
      else
        && r.Ok? && r.value == db.(attempts := r.value.attempts, answers := r.value.answers, ledger := r.value.ledger)
        && (if db.attempts[id].status == InProgress then IsGraded(db, r.value, id, now, newEntry) else r.value == db)
        && Owns(r.value.attempts, user, id) && r.value.attempts[id].session in db.sessions
        && r.value.attempts[id].quest in db.quests
  {
    hide Inv, Overdue, GradeAttempt, AnswersOk, Playable, IsGraded;
    RefersMeaning(db, id);
    AnswersAreOk(db);
    if db.attempts[id].status == InProgress {
      GradingMeaning(db, user, id, now, newEntry);
      var r := GradeAttempt(db, user, id, now, newEntry);
      if r.Ok? { GradedRows(db, r.value, r.value, id, now, newEntry); }
    }
  }

  lemma AnswersAreOk(db: Db)
    ensures Inv(db) ==> AnswersOk(db)
  {}

  lemma SubmitFirstMeaning(db: Db, user: Uuid, id: Uuid, key: Uuid, now: int, newEntry: Uuid)
    requires Inv(db) && newEntry !in db.ledger && Owns(db.attempts, user, id)
    requires Inv(SubmitFirst(db, user, id, key, now, newEntry).0)
    ensures
      var (after, reply) := SubmitFirst(db, user, id, key, now, newEntry);
      Submitted(db, after, reply, user, id, key, now, newEntry)
  {
    hide Inv, Touch, TooLate, GradeAttempt, QuestSteps.ToSnapshot, ShowsAward, IsGraded, PointAward, Playable,
         AttemptOk;
    TouchMeaning(db, id, now);
    RefersMeaning(db, id);
    if !Overdue(db, db.attempts[id], now) {
      SettledMeaning(db, user, id, now, newEntry);
      var done := Settle(db, user, id, now, newEntry);
      if done.Ok? {
        var after := SubmitFirst(db, user, id, key, now, newEntry).0;
        if db.attempts[id].status == InProgress { GradedRows(db, done.value, after, id, now, newEntry); }
        ShowsMeaning(done.value, id, now);
        ShowsRows(QuestSteps.ToSnapshot(done.value, id, now), done.value, after, id, now);
        AwardMeaning(after, user, id);
      }
    }
  }

  /** Submitting. A paused reward system, someone else's attempt and a key used for something else are
      refused first, and a repeated request gets its old reply. Otherwise every error is given exactly
      for its reason and changes nothing; a graded attempt is shown as it is; and one in progress is
      graded, and shown with its award if it passed. */
  lemma SubmitMeaning(
    db: Db, user: Uuid, id: Uuid, key: Uuid, clock: nat, rewardsEnabled: bool, newEntry: Uuid)
    requires Inv(db) && newEntry !in db.ledger
    ensures
      var (after, reply) := Submit(db, user, id, key, clock, rewardsEnabled, newEntry);
      var now := clock / 1000;
      if !rewardsEnabled then after == db && reply == Err(RewardsPaused)
      else if id !in db.attempts || db.attempts[id].user != user then after == db && reply == Err(AttemptNotFound)
      else if (user, key) in db.idempotency then
        var stored := db.idempotency[(user, key)];
        && after == db
        && reply == if stored.request == SubmitOf(id) then Ok(stored.response) else Err(IdempotencyKeyReused)
      else Submitted(db, after, reply, user, id, key, now, newEntry)
  {
    hide Inv, SubmitFirst, Submitted;
    SubmitKeeps(db, user, id, key, clock, rewardsEnabled, newEntry);
    if rewardsEnabled && Owns(db.attempts, user, id) && (user, key) !in db.idempotency {
      SubmitFirstMeaning(db, user, id, key, clock / 1000, newEntry);
    }
  }
}
