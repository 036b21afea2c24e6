/** What starting a quest and answering it promise: who may start, what is begun, and which answers are kept. */
module QuestPromises {
  import opened Wrappers
  import opened Ordering
  import opened SessionRows
  import opened QuestSteps
  import opened QuestInvariants
  import opened QuestSettled
  import opened QuestEffects
  import opened QuestExpiry
  import E = SessionEffects

  /** At least two options and a single correct one. */
  ghost predicate OneRight(o: Options) { |o| >= 2 && exists c :: c in o && o[c] && forall d | d in o && o[d] :: d == c }

  /** A published quest with questions, each with one correct option among at least two. */
  ghost predicate Offered(quests: map<Uuid, Quest>, id: Uuid, code: string) {
    && id in quests && quests[id].code == code && quests[id].published && quests[id].questions != map[]
    && forall k | k in quests[id].questions :: OneRight(quests[id].questions[k])
  }

  lemma OneRightMeaning(o: Options)
    ensures OneRight(o) <==> WellPosed(o)
  {
    var right := CorrectOptions(o);
    if |right| == 1 {
      var c :| c in right;
      assert right == {c} by { SubsetSize({c}, right); }
      assert forall d | d in o && o[d] :: d in right;
    }
    if OneRight(o) {
      var c :| c in o && o[c] && forall d | d in o && o[d] :: d == c;
      assert right == {c};
    }
  }

  lemma OfferedMeaning(quests: map<Uuid, Quest>, id: Uuid, code: string)
    ensures Offered(quests, id, code) <==>
      id in quests && quests[id].code == code && quests[id].published && Playable(quests[id])
  {
    hide OneRight, WellPosed;
    if id in quests {
      forall k | k in quests[id].questions
        ensures OneRight(quests[id].questions[k]) <==> WellPosed(quests[id].questions[k])
      {
        OneRightMeaning(quests[id].questions[k]);
      }
    }
  }

  ghost predicate NoSession(db: Db, user: Uuid) {
    forall s | s in db.sessions :: !(db.sessions[s].user == user && E.Open(db.sessions[s]))
  }

  /** ORDER BY started_at DESC, id DESC. */
  predicate StartedAfter(sessions: Sessions, a: Uuid, b: Uuid) {
    && a in sessions && b in sessions
    && (sessions[a].startedAt > sessions[b].startedAt || (sessions[a].startedAt == sessions[b].startedAt && a > b))
  }

  /** A user without a latest active session has no active session. */
  lemma LatestActiveMeaning(sessions: Sessions, user: Uuid)
    ensures LatestActiveSession(sessions, user).None? <==> forall s | s in sessions :: !UserActive(sessions[s], user)
  {
    var rows := set id | id in sessions && UserActive(sessions[id], user);
    if rows != {} {
      var id := LeastExists(rows, (a: Uuid, b: Uuid) => StartedAfter(sessions, a, b));
      forall k | k in sessions && UserActive(sessions[k], user)
        ensures sessions[k].startedAt < sessions[id].startedAt
          || (sessions[k].startedAt == sessions[id].startedAt && k <= id)
      {
        assert k in rows && (k == id || StartedAfter(sessions, id, k));
      }
      assert IsLatestActive(sessions, user, id);
    } else {
      forall s | s in sessions ensures !UserActive(sessions[s], user) { assert s !in rows; }
    }
  }

  /** The user's attempts at the quest. */
  predicate Tries(db: Db, id: Uuid, user: Uuid, quest: Uuid) {
    id in db.attempts && db.attempts[id].user == user && db.attempts[id].quest == quest
  }

  /** An attempt at the quest is overdue but started too late to expire. */
  ghost predicate Blocked(db: Db, user: Uuid, quest: Uuid, now: int) {
    exists id :: Tries(db, id, user, quest) && Overdue(db, db.attempts[id], now) && TooLate(db, db.attempts[id])
  }

  /** An attempt at the quest is still going on. */
  predicate Going(db: Db, id: Uuid, user: Uuid, quest: Uuid, now: int) {
    Tries(db, id, user, quest) && db.attempts[id].status == InProgress && !Overdue(db, db.attempts[id], now)
  }

  /** Why a start is refused, in the order of the reasons: no active session; no such quest; an attempt
      that cannot expire; a pass; or only attempts that are over, at a quest that allows no retry. */
  ghost function Refusal(db: Db, user: Uuid, quest: Option<Uuid>, now: int): Option<Error> {
    if NoSession(db, user) then Some(ActiveSessionRequired)
    else if quest.None? then Some(QuestNotFound)
    else if Blocked(db, user, quest.value, now) then Some(CheckViolation)
    else if exists id :: Tries(db, id, user, quest.value) && db.attempts[id].status == Passed then Some(AlreadyPassed)
    else if (exists id :: Tries(db, id, user, quest.value)) && (forall id :: !Going(db, id, user, quest.value, now))
      && quest.value in db.quests && !db.quests[quest.value].retryAllowed
    then Some(RetryNotAllowed)
    else None
  }

  /** A quest is found exactly if one is offered. */
  lemma FoundMeaning(quests: map<Uuid, Quest>, code: string)
    ensures FindQuest(quests, code).None? <==> forall q :: !Offered(quests, q, code)
    ensures FindQuest(quests, code).Some? ==>
      FindQuest(quests, code).value in quests && Offered(quests, FindQuest(quests, code).value, code)
  {
    hide Playable, Offered;
    forall q ensures Offered(quests, q, code) <==>
        q in quests && quests[q].code == code && quests[q].published && Playable(quests[q])
    {
      OfferedMeaning(quests, q, code);
    }
  }

  /** The attempts after the expiring statement of a start. */
  ghost predicate Expired(db: Db, after: Attempts, user: Uuid, quest: Uuid, now: int) {
    && after.Keys == db.attempts.Keys
    && forall id | id in db.attempts :: after[id] ==
         if Tries(db, id, user, quest) && Overdue(db, db.attempts[id], now) then Over(db, db.attempts[id])
         else db.attempts[id]
  }

  /** The expiring statement of a start ends exactly the user's overdue attempts at the quest, and fails
      exactly if one of them started too late for that. */
  lemma BatchMeaning(db: Db, user: Uuid, quest: Uuid, now: int)
    requires Inv(db)
    ensures
      var r := ExpireWhere(db.sessions, db.attempts, BatchScope(db, user, quest, now));
      (r.None? <==> Blocked(db, user, quest, now)) && (r.Some? ==> Expired(db, r.value, user, quest, now))
  {
    hide Inv, Overdue, Over, TooLate, ExpiryAllowed, BatchExpires, Expire;
    forall id | id in db.attempts
      ensures id in BatchScope(db, user, quest, now) <==>
        Tries(db, id, user, quest) && Overdue(db, db.attempts[id], now)
      ensures Overdue(db, db.attempts[id], now) ==>
        && Expire(db.sessions, db.attempts[id]) == Over(db, db.attempts[id])
        && (ExpiryAllowed(db.sessions, db.attempts[id]) <==> !TooLate(db, db.attempts[id]))
    {
      OverdueMeaning(db, id, now);
      BatchIsTouch(db, id, now);
    }
  }

  lemma BatchIsTouch(db: Db, id: Uuid, now: int)
    ensures id in db.attempts ==>
      BatchExpires(db.sessions, db.attempts[id], now) == NeedsExpiry(db.sessions, db.attempts[id], now)
  {}

  predicate StartedLater(attempts: Attempts, a: Uuid, b: Uuid) { a != b && StartedBefore(attempts, b, a) }

  /** There is a newest attempt exactly if there is one, and a newest open one exactly if one is open. */
  lemma LatestAttemptMeaning(attempts: Attempts, user: Uuid, quest: Uuid)
    ensures LatestAttempt(attempts, user, quest).None? <==>
      forall id | id in attempts :: !For(attempts[id], user, quest)
    ensures ActiveAttempt(attempts, user, quest).None? <==>
      forall id | id in attempts :: !(For(attempts[id], user, quest) && Editable(attempts[id]))
  {
    var rows := set id | id in attempts && For(attempts[id], user, quest);
    var open := set id | id in attempts && For(attempts[id], user, quest) && Editable(attempts[id]);
    var less: (Uuid, Uuid) -> bool := (a: Uuid, b: Uuid) => StartedLater(attempts, a, b);
    if rows != {} {
      var id := LeastExists<Uuid>(rows, less);
      forall k | k in attempts && For(attempts[k], user, quest)
        ensures StartedBefore(attempts, k, id)
      {
        assert k in rows;
      }
      assert IsLatestAttempt(attempts, user, quest, id);
    } else {
      forall id | id in attempts ensures !For(attempts[id], user, quest) { assert id !in rows; }
    }
    if open != {} {
      var id := LeastExists<Uuid>(open, less);
      forall k | k in attempts && For(attempts[k], user, quest) && Editable(attempts[k])
        ensures StartedBefore(attempts, k, id)
      {
        assert k in open;
      }
      assert IsActiveAttempt(attempts, user, quest, id);
    } else {
      forall id | id in attempts
        ensures !(For(attempts[id], user, quest) && Editable(attempts[id]))
      {
        assert id !in open;
      }
    }
  }

  lemma LatestIsLatest(attempts: Attempts, user: Uuid, quest: Uuid)
    ensures LatestAttempt(attempts, user, quest).Some? ==>
      IsLatestAttempt(attempts, user, quest, LatestAttempt(attempts, user, quest).value)
    ensures ActiveAttempt(attempts, user, quest).Some? ==>
      IsActiveAttempt(attempts, user, quest, ActiveAttempt(attempts, user, quest).value)
  {}

  /** What the checks after the expiry see, in terms of the state before it. */
  lemma RetryMeaning(db: Db, after: Attempts, user: Uuid, quest: Uuid, now: int)
    requires Inv(db) && Expired(db, after, user, quest, now)
    ensures HasPassed(after, user, quest) <==>
      exists id :: Tries(db, id, user, quest) && db.attempts[id].status == Passed
    ensures
      var active, latest := ActiveAttempt(after, user, quest), LatestAttempt(after, user, quest);
      && (active.None? <==> forall id :: !Going(db, id, user, quest, now))
      && (active.Some? ==>
            Going(db, active.value, user, quest, now) && after[active.value] == db.attempts[active.value])
      && (latest.Some? <==> exists id :: Tries(db, id, user, quest))
      && (latest.Some? ==> latest.value in after)
      && (active.None? && !HasPassed(after, user, quest) && latest.Some? ==>
            after[latest.value].status.NotPassed? || after[latest.value].status.Expired?)
  {
    hide Inv, AttemptOk, Overdue, Over, LatestAttempt, ActiveAttempt;
    forall id | id in db.attempts ensures ExpiredRow(db, after, user, quest, now, id) {
      AttemptsInOrder(db, id);
      ExpiredRowMeaning(db, after, user, quest, now, id);
    }
    LatestAttemptMeaning(after, user, quest);
    LatestIsLatest(after, user, quest);
    hide Expired, Going;
  }

  /** One attempt before and after the expiry, as the queries see it. */
  ghost predicate ExpiredRow(db: Db, after: Attempts, user: Uuid, quest: Uuid, now: int, id: Uuid) {
    && id in db.attempts && id in after && For(after[id], user, quest) == Tries(db, id, user, quest)
    && (For(after[id], user, quest) && Editable(after[id]) <==> Going(db, id, user, quest, now))
    && (Going(db, id, user, quest, now) ==> after[id] == db.attempts[id])
    && (after[id].status.Passed? <==> db.attempts[id].status == Passed)
    && (after[id].status.Passed? ==> after[id].passed == Some(true))
  }

  lemma ExpiredRowMeaning(db: Db, after: Attempts, user: Uuid, quest: Uuid, now: int, id: Uuid)
    ensures Expired(db, after, user, quest, now) && id in db.attempts && AttemptOk(db.attempts[id]) ==>
      ExpiredRow(db, after, user, quest, now, id)
  {}

  lemma AttemptsInOrder(db: Db, id: Uuid)
    ensures Inv(db) && id in db.attempts ==> AttemptOk(db.attempts[id])
  {}

  /** The user's session that started last, the one with the larger id if two started at once. */
  ghost predicate Newest(sessions: Sessions, user: Uuid, id: Uuid) {
    && id in sessions && sessions[id].user == user && E.Open(sessions[id])
    && forall k | k in sessions && k != id && sessions[k].user == user && E.Open(sessions[k]) ::
         sessions[k].startedAt < sessions[id].startedAt || (sessions[k].startedAt == sessions[id].startedAt && k < id)
  }

  lemma NewestMeaning(sessions: Sessions, user: Uuid)
    ensures
      var latest := LatestActiveSession(sessions, user);
      latest.Some? ==> Newest(sessions, user, latest.value)
  {}

  /** The reply to a start and the attempts it leaves: the attempt that is still going on is shown, or,
      exactly if there is none, a new one that begins now in the user's newest session. */
  ghost predicate Begun(db: Db, after: Db, user: Uuid, quest: Uuid, now: int, newId: Uuid, reply: Reply) {
    && reply.Started? && var id := reply.attempt.id;
    && Shows(reply.attempt, after, id, now)
    && (reply.created <==> forall k :: !Going(db, k, user, quest, now))
    && (!reply.created ==> Going(db, id, user, quest, now) && Expired(db, after.attempts, user, quest, now))
    && (reply.created ==>
          && id == newId && Expired(db, after.attempts - {newId}, user, quest, now)
          && Newest(db.sessions, user, after.attempts[newId].session)
          && after.attempts[newId] ==
             Attempt(user, quest, after.attempts[newId].session, InProgress, now, None, None, None, None, None))
  }

  /** The reply to a start and the attempts afterwards, by the queries the start made. */
  lemma StartShape(db: Db, user: Uuid, code: string, key: Uuid, clock: nat, newId: Uuid)
    requires (user, key) !in db.idempotency && Start(db, user, code, key, clock, newId).1.Ok?
    ensures
      var (after, reply) := Start(db, user, code, key, clock, newId);
      var session, found := LatestActiveSession(db.sessions, user), FindQuest(db.quests, code);
      && session.Some? && found.Some?
      && var expired := ExpireWhere(db.sessions, db.attempts, BatchScope(db, user, found.value, clock / 1000));
      && expired.Some? && var active := ActiveAttempt(expired.value, user, found.value);
      var id := if active.Some? then active.value else newId;
      && reply.value.Started? && id in after.attempts
      && reply.value.created == active.None?
      && reply.value.attempt == QuestSteps.ToSnapshot(after, id, clock / 1000)
      && after.attempts == (if active.Some? then expired.value else expired.value[newId :=
           Attempt(user, found.value, session.value, InProgress, clock / 1000, None, None, None, None, None)])
      && after == db.(attempts := after.attempts,
                      idempotency := db.idempotency[(user, key) := Stored(StartOf(code), reply.value)])
  {
    hide ExpireWhere, BatchScope, HasPassed, LatestActiveSession, FindQuest, LatestAttempt, Deadline, Active;
  }

  lemma StartRefusals(db: Db, user: Uuid, code: string, key: Uuid, clock: nat, newId: Uuid)
    requires Inv(db) && (user, key) !in db.idempotency
    ensures
      var found := FindQuest(db.quests, code);
      var refusal := Refusal(db, user, found, clock / 1000);
      && (refusal.Some? ==> Start(db, user, code, key, clock, newId) == (db, Err(refusal.value)))
      && (refusal.None? ==> found.Some? && Start(db, user, code, key, clock, newId).1.Ok?)
  {
    LatestActiveMeaning(db.sessions, user);
    FoundMeaning(db.quests, code);
    hide Inv, BatchScope, QuestSteps.ToSnapshot, ExpireWhere, HasPassed, FindQuest, LatestActiveSession, LatestAttempt,
         ActiveAttempt, Blocked, Going, Expired, Offered;
    var found, now := FindQuest(db.quests, code), clock / 1000;
    if found.Some? && !NoSession(db, user) {
      BatchMeaning(db, user, found.value, now);
      var expired := ExpireWhere(db.sessions, db.attempts, BatchScope(db, user, found.value, now));
      if expired.Some? { RetryMeaning(db, expired.value, user, found.value, now); }
    }
  }

  lemma StartSucceeds(db: Db, user: Uuid, code: string, key: Uuid, clock: nat, newId: Uuid)
    requires Inv(db) && newId !in db.attempts && (user, key) !in db.idempotency
    requires Start(db, user, code, key, clock, newId).1.Ok?
    ensures
      var (after, reply) := Start(db, user, code, key, clock, newId);
      var found := FindQuest(db.quests, code);
      && found.Some? && Begun(db, after, user, found.value, clock / 1000, newId, reply.value)
      && after == db.(attempts := after.attempts,
                      idempotency := db.idempotency[(user, key) := Stored(StartOf(code), reply.value)])
  {
    StartKeeps(db, user, code, key, clock, newId);
    NewestMeaning(db.sessions, user);
    StartShape(db, user, code, key, clock, newId);
    hide Inv, Start, BatchScope, ExpireWhere, HasPassed, FindQuest, LatestActiveSession, Newest, LatestAttempt,
         ActiveAttempt, Going, Expired, Shows, QuestSteps.ToSnapshot, Playable, AttemptOk;
    var found, now := FindQuest(db.quests, code), clock / 1000;
    BatchMeaning(db, user, found.value, now);
    var attempts := ExpireWhere(db.sessions, db.attempts, BatchScope(db, user, found.value, now)).value;
    RetryMeaning(db, attempts, user, found.value, now);
    var (after, reply) := Start(db, user, code, key, clock, newId);
    var active := ActiveAttempt(attempts, user, found.value);
    BeginsAs(db, after, attempts, active, user, found.value, now, newId, reply.value);
  }

  lemma BeginsAs(db: Db, after: Db, attempts: Attempts, active: Option<Uuid>, user: Uuid, quest: Uuid, now: int,
                 newId: Uuid, reply: Reply)
    requires Inv(after) && Expired(db, attempts, user, quest, now) && newId !in db.attempts
    requires active.None? <==> forall k :: !Going(db, k, user, quest, now)
    requires active.Some? ==> Going(db, active.value, user, quest, now) && after.attempts == attempts
    requires active.None? ==> newId in after.attempts && after.attempts == attempts[newId := after.attempts[newId]]
    requires active.None? ==>
      var a := after.attempts[newId];
      && Newest(db.sessions, user, a.session)
      && a == Attempt(user, quest, a.session, InProgress, now, None, None, None, None, None)
    requires
      var id := if active.Some? then active.value else newId;
      id in after.attempts && reply == Started(active.None?, QuestSteps.ToSnapshot(after, id, now))
    ensures Begun(db, after, user, quest, now, newId, reply)
  {
    hide Inv, Newest, Going, Expired, Shows, Playable, AttemptOk, Deadline, Active;
    var id := if active.Some? then active.value else newId;
    RefersMeaning(after, id);
    ShowsMeaning(after, id, now);
    if active.None? {
      ExpiredKeys(db, attempts, user, quest, now);
      assert after.attempts - {newId} == attempts;
    }
  }

  lemma ExpiredKeys(db: Db, after: Attempts, user: Uuid, quest: Uuid, now: int)
    ensures Expired(db, after, user, quest, now) ==> after.Keys == db.attempts.Keys
  {}

  /** A quest is found exactly if one is offered. A start under a key not used before is refused exactly
      for the reasons given, and then changes nothing. A success first expires the user's overdue
      attempts at the quest. A key used before gets its old reply, or an error if it was used otherwise. */
  lemma StartMeaning(db: Db, user: Uuid, code: string, key: Uuid, clock: nat, newId: Uuid)
    requires Inv(db) && newId !in db.attempts
    ensures
      var (after, reply) := Start(db, user, code, key, clock, newId);
      var found := FindQuest(db.quests, code);
      var refusal := Refusal(db, user, found, clock / 1000);
      && (if found.Some? then Offered(db.quests, found.value, code) else forall q :: !Offered(db.quests, q, code))
      && if (user, key) in db.idempotency then
           var stored := db.idempotency[(user, key)];
           && after == db
           && reply == if stored.request == StartOf(code) then Ok(stored.response) else Err(IdempotencyKeyReused)
         else if refusal.Some? then after == db && reply == Err(refusal.value)
         else
           && found.Some? && reply.Ok? && Begun(db, after, user, found.value, clock / 1000, newId, reply.value)
           && after == db.(attempts := after.attempts,
                           idempotency := db.idempotency[(user, key) := Stored(StartOf(code), reply.value)])
  {
    FoundMeaning(db.quests, code);
    hide Inv, FindQuest, Offered, Begun, LatestActiveSession, ExpireWhere, Refusal, BatchScope, HasPassed,
         QuestSteps.ToSnapshot;
    if (user, key) !in db.idempotency {
      StartRefusals(db, user, code, key, clock, newId);
      if Start(db, user, code, key, clock, newId).1.Ok? { StartSucceeds(db, user, code, key, clock, newId); }
    }
  }

  // ---- Answers ----

  lemma {:induction false} PutAnswersAre(answers: Answers, id: Uuid, chosen: seq<(Uuid, Uuid)>)
    requires DistinctQuestions(chosen) && forall i | 0 <= i < |chosen| :: (id, chosen[i].0) !in answers
    ensures
      var r := PutAnswers(answers, id, chosen);
      && (forall i | 0 <= i < |chosen| :: (id, chosen[i].0) in r && r[(id, chosen[i].0)] == Answer(chosen[i].1, None))
      && (forall k | k in r :: (k in answers && r[k] == answers[k]) || exists i ::
           0 <= i < |chosen| && k == (id, chosen[i].0))
      && (forall k | k in answers :: k in r && r[k] == answers[k])
    decreases |chosen|
  {
    if chosen != [] {
      var one := answers[(id, chosen[0].0) := Answer(chosen[0].1, None)];
      var rest := chosen[1..];
      forall i | 0 <= i < |rest| ensures (id, rest[i].0) !in one && rest[i] == chosen[i + 1] {}
      forall i, j | 0 <= i < j < |rest| ensures rest[i].0 != rest[j].0 { assert chosen[i + 1].0 != chosen[j + 1].0; }
      PutAnswersAre(one, id, rest);
      var r := PutAnswers(answers, id, chosen);
      forall i | 0 <= i < |chosen| ensures (id, chosen[i].0) in r && r[(id, chosen[i].0)] == Answer(chosen[i].1, None) {
        if i > 0 { assert rest[i - 1] == chosen[i]; } else { assert (id, chosen[0].0) in one; }
      }
      forall k | k in r
        ensures (k in answers && r[k] == answers[k]) || exists i :: 0 <= i < |chosen| && k == (id, chosen[i].0)
      {
        if !(k in one && r[k] == one[k]) {
          var i :| 0 <= i < |rest| && k == (id, rest[i].0);
          assert k == (id, chosen[i + 1].0);
        }
      }
    }
  }

  /** Why new answers are refused: the attempt cannot expire although it is overdue, or is over; a
      question is answered twice; or an option is none of its question, or the question none of the quest. */
  ghost function AnswersRefusal(db: Db, id: Uuid, chosen: seq<(Uuid, Uuid)>, now: int): Option<Error>
    requires id in db.attempts && db.attempts[id].quest in db.quests
  {
    var a, questions := db.attempts[id], db.quests[db.attempts[id].quest].questions;
    if Overdue(db, a, now) && TooLate(db, a) then Some(CheckViolation)
    else if Overdue(db, a, now) || a.status != InProgress then Some(NotEditable)
    else if exists i, j :: 0 <= i < j < |chosen| && chosen[i].0 == chosen[j].0 then Some(DuplicateQuestionAnswer)
    else if exists i :: 0 <= i < |chosen| && !(chosen[i].0 in questions && chosen[i].1 in questions[chosen[i].0])
      then Some(InvalidAnswer)
    else None
  }

  /** The attempt's answers are exactly the chosen options, ungraded; all other answers are as they were. */
  ghost predicate Answered(before: Answers, after: Answers, id: Uuid, chosen: seq<(Uuid, Uuid)>) {
    forall k: (Uuid, Uuid) ::
      if k.0 != id then (k in after <==> k in before) && (k in before ==> after[k] == before[k])
      else
        && (k in after <==> exists i :: 0 <= i < |chosen| && k.1 == chosen[i].0)
        && (forall i | 0 <= i < |chosen| && k.1 == chosen[i].0 :: k in after && after[k] == Answer(chosen[i].1, None))
  }

  lemma AnsweredMeaning(answers: Answers, id: Uuid, chosen: seq<(Uuid, Uuid)>)
    requires DistinctQuestions(chosen)
    ensures Answered(answers, WithAnswers(answers, id, chosen), id, chosen)
  {
    var kept := map k | k in answers && k.0 != id :: answers[k];
    PutAnswersAre(kept, id, chosen);
    forall k | k in WithAnswers(answers, id, chosen) && k.0 == id
      ensures exists i :: 0 <= i < |chosen| && k.1 == chosen[i].0
    {
      assert k !in kept;
      var i :| 0 <= i < |chosen| && k == (id, chosen[i].0);
    }
  }

  /** New answers for an attempt of the user are refused exactly for the reasons given, and then nothing
      changes; otherwise they replace all the answers the attempt had, and the attempt is shown. */
  lemma ReplaceMeaning(db: Db, user: Uuid, id: Uuid, chosen: seq<(Uuid, Uuid)>, clock: nat)
    requires Inv(db)
    ensures
      var (after, reply) := Replace(db, user, id, chosen, clock);
      if id !in db.attempts || db.attempts[id].user != user then after == db && reply == Err(AttemptNotFound)
      else
        && db.attempts[id].quest in db.quests && var refusal := AnswersRefusal(db, id, chosen, clock / 1000);
        if refusal.Some? then after == db && reply == Err(refusal.value)
        else
          && after == db.(answers := after.answers) && Answered(db.answers, after.answers, id, chosen)
          && reply.Ok? && Shows(reply.value, after, id, clock / 1000)
  {
    hide Inv, Touch, QuestSteps.ToSnapshot, Shows, WithAnswers, Answered, Playable, AttemptOk, TooLate;
    if Owns(db.attempts, user, id) {
      TouchMeaning(db, id, clock / 1000);
      RefersMeaning(db, id);
      var r := Replace(db, user, id, chosen, clock);
      if r.1.Ok? {
        AnsweredMeaning(db.answers, id, chosen);
        ShowsMeaning(r.0, id, clock / 1000);
      }
    }
  }

  /** The duplicate check compares the number of distinct question ids with the number of answers. */
  lemma {:induction false} DistinctBySize(chosen: seq<(Uuid, Uuid)>, questions: set<Uuid>)
    requires questions == set i | 0 <= i < |chosen| :: chosen[i].0
    ensures |questions| <= |chosen|
    ensures |questions| == |chosen| <==> DistinctQuestions(chosen)
  {
    if chosen == [] {
      assert questions == {};
    } else {
      var last := |chosen| - 1;
      var init := chosen[..last];
      var before := set i | 0 <= i < |init| :: init[i].0;
      DistinctBySize(init, before);
      OneMoreQuestion(chosen, init, before);
      assert questions == before + {chosen[last].0};
    }
  }

  lemma OneMoreQuestion(chosen: seq<(Uuid, Uuid)>, init: seq<(Uuid, Uuid)>, before: set<Uuid>)
    requires chosen != [] && init == chosen[..|chosen| - 1] && before == set i | 0 <= i < |init| :: init[i].0
    ensures (set i | 0 <= i < |chosen| :: chosen[i].0) == before + {chosen[|chosen| - 1].0}
    ensures DistinctQuestions(chosen) <==> DistinctQuestions(init) && chosen[|chosen| - 1].0 !in before
  {
    var last := |chosen| - 1;
    forall i | 0 <= i < last ensures chosen[i].0 in before { assert init[i].0 == chosen[i].0; }
    forall x | x in before ensures exists i :: 0 <= i < last && chosen[i].0 == x {
      var i :| 0 <= i < |init| && init[i].0 == x;
      assert chosen[i].0 == x;
    }
    assert DistinctQuestions(chosen) ==> DistinctQuestions(init) by {
      assert forall i | 0 <= i < last :: init[i] == chosen[i];
    }
    if DistinctQuestions(init) && chosen[last].0 !in before {
      forall i, j | 0 <= i < j < |chosen| ensures chosen[i].0 != chosen[j].0 {
        if j < last { assert init[i].0 != init[j].0; }
      }
    }
  }

  // ---- The background job ----

  /** An attempt that the job, whose clock counts microseconds, finds overdue. */
  predicate OverdueForJob(db: Db, id: Uuid, clock: int) {
    && id in db.attempts && db.attempts[id].status == InProgress && db.attempts[id].session in db.sessions
    && var s := db.sessions[db.attempts[id].session];
       !E.Open(s) && s.endedAt.Some? && (s.endedAt.value + 300_000) * 1000 < clock
  }

  lemma OverdueForJobMeaning(db: Db, id: Uuid, clock: int)
    requires id in db.attempts && AttemptOk(db.attempts[id])
    ensures id in JobScope(db, clock) <==> OverdueForJob(db, id, clock)
    ensures OverdueForJob(db, id, clock) ==>
      && Expire(db.sessions, db.attempts[id]) == Over(db, db.attempts[id])
      && (StartedTooLate(db, id) <==> TooLate(db, db.attempts[id]))
  {}

  /** The job ends every overdue attempt, or none if one of them started too late for that. */
  lemma JobMeaning(db: Db, clock: nat)
    requires Inv(db)
    ensures
      var after := RunJob(db, clock);
      var blocked := exists id :: OverdueForJob(db, id, clock) && TooLate(db, db.attempts[id]);
      && after == db.(attempts := after.attempts) && after.attempts.Keys == db.attempts.Keys
      && forall id | id in db.attempts :: after.attempts[id] ==
           if OverdueForJob(db, id, clock) && !blocked then Over(db, db.attempts[id]) else db.attempts[id]
  {
    hide Inv, RunJob, JobScope, OverdueForJob, StartedTooLate, TooLate, Over, Expire, AttemptOk;
    JobIsAllOrNothing(db, clock);
    forall id | id in db.attempts
      ensures id in JobScope(db, clock) <==> OverdueForJob(db, id, clock)
      ensures OverdueForJob(db, id, clock) ==>
        && Expire(db.sessions, db.attempts[id]) == Over(db, db.attempts[id])
        && (StartedTooLate(db, id) <==> TooLate(db, db.attempts[id]))
    {
      AttemptsInOrder(db, id);
      OverdueForJobMeaning(db, id, clock);
    }
    JobNamesAttempts(db, clock);
  }

  lemma JobNamesAttempts(db: Db, clock: int)
    ensures forall id | id in JobScope(db, clock) || OverdueForJob(db, id, clock) :: id in db.attempts
  {}
}
