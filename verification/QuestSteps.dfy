/**
 Quest attempts and the point ledger: every transaction as a function from one
 database state to the next. The database clock counts microseconds; the
 service reads it truncated to milliseconds, the recovery job compares it in
 full. An error rolls back, so it returns the state it was given.
 */
module QuestSteps {
  import opened Wrappers
  import opened SessionRows

  const SUBMISSION_GRACE_MS := 300_000

  type Sessions = map<Uuid, Session>

  datatype AttemptStatus = InProgress | Submitted | Passed | NotPassed | Expired

  /** A row of quest_attempts. Passed and NotPassed are the statuses COMPLETED and FAILED. */
  datatype Attempt = Attempt(
    user: Uuid, quest: Uuid, session: Uuid, status: AttemptStatus, startedAt: int,
    submittedAt: Option<int>, completedAt: Option<int>,
    score: Option<int>, passed: Option<bool>, reward: Option<nat>)

  /** The options of one question, each with whether it is correct. */
  type Options = map<Uuid, bool>

  datatype Quest = Quest(
    code: string, published: bool, passScore: int, rewardPoints: nat, retryAllowed: bool,
    questions: map<Uuid, Options>)

  datatype Answer = Answer(option: Uuid, correct: Option<bool>)

  /** A row of point_ledger; the entry type is always QUEST_REWARD. */
  datatype Entry = Entry(user: Uuid, quest: Uuid, attempt: Uuid, points: nat, createdAt: int)

  datatype ApiRequest = StartOf(code: string) | SubmitOf(attempt: Uuid) | Foreign(operation: nat)
  datatype Stored = Stored(request: ApiRequest, response: Reply)

  datatype AttemptView = AttemptView(
    id: Uuid, session: Uuid, status: AttemptStatus, startedAt: int, submittedAt: Option<int>, completedAt: Option<int>,
    submissionDeadline: Option<int>, canSubmit: bool, canRetry: bool, score: Option<int>, passed: Option<bool>)

  datatype Reply =
    | Started(created: bool, attempt: AttemptView)
    | Graded(attempt: AttemptView, award: Option<(Uuid, nat)>)
    | OtherReply

  datatype Error =
    | ActiveSessionRequired | QuestNotFound | AlreadyPassed | RetryNotAllowed
    | AttemptNotFound | NotEditable | DuplicateQuestionAnswer | InvalidAnswer
    | RewardsPaused | AttemptExpired | InvalidPublishedQuest | AttemptIncomplete
    | IdempotencyKeyReused | CheckViolation

  type Attempts = map<Uuid, Attempt>
  type Answers = map<(Uuid, Uuid), Answer>
  type Ledger = map<Uuid, Entry>

  datatype Db = Db(
    sessions: Sessions, quests: map<Uuid, Quest>, attempts: Attempts, answers: Answers, ledger: Ledger,
    idempotency: map<(Uuid, Uuid), Stored>)

  // ---- Expiry ----

  predicate Editable(a: Attempt) { a.status.InProgress? || a.status.Submitted? }

  predicate WithinGrace(now: int, endedAt: int) { now <= endedAt + SUBMISSION_GRACE_MS }

  /** The check made when one attempt is touched. */
  predicate NeedsExpiry(sessions: Sessions, a: Attempt, now: int) {
    && Editable(a) && a.session in sessions && !Active(sessions[a.session])
    && sessions[a.session].endedAt.Some? && !WithinGrace(now, sessions[a.session].endedAt.value)
  }

  /** The condition of the batch run when an attempt is started. */
  predicate BatchExpires(sessions: Sessions, a: Attempt, now: int) {
    && Editable(a) && a.session in sessions && !Active(sessions[a.session])
    && sessions[a.session].endedAt.Some? && sessions[a.session].endedAt.value + SUBMISSION_GRACE_MS < now
  }

  /** The condition of the background job, on the untruncated clock. */
  predicate JobExpires(sessions: Sessions, a: Attempt, clock: int) {
    && Editable(a) && a.session in sessions && !Active(sessions[a.session])
    && sessions[a.session].endedAt.Some? && (sessions[a.session].endedAt.value + SUBMISSION_GRACE_MS) * 1000 < clock
  }

  function Deadline(sessions: Sessions, a: Attempt): Option<int> {
    if a.session in sessions && sessions[a.session].endedAt.Some?
    then Some(sessions[a.session].endedAt.value + SUBMISSION_GRACE_MS) else None
  }

  /** The row an expiry writes. */
  function Expire(sessions: Sessions, a: Attempt): Attempt {
    a.(status := Expired, completedAt := Deadline(sessions, a))
  }

  /** The constraint an expired row must meet: it was not submitted and did not end before it started. */
  predicate ExpiryAllowed(sessions: Sessions, a: Attempt) {
    && a.submittedAt.None?
    && Deadline(sessions, a).Some? && a.startedAt <= Deadline(sessions, a).value
  }

  /** One expiring UPDATE over the rows in scope; None if a row would break the constraint. */
  ghost function ExpireWhere(sessions: Sessions, attempts: Attempts, due: set<Uuid>): Option<Attempts> {
    if forall id | id in due && id in attempts :: ExpiryAllowed(sessions, attempts[id])
    then Some(map id | id in attempts :: if id in due then Expire(sessions, attempts[id]) else attempts[id])
    else None
  }

  function BatchScope(db: Db, user: Uuid, quest: Uuid, now: int): set<Uuid> {
    set id | id in db.attempts && db.attempts[id].user == user && db.attempts[id].quest == quest
             && BatchExpires(db.sessions, db.attempts[id], now)
  }

  function TouchScope(db: Db, id: Uuid, now: int): set<Uuid> {
    if id in db.attempts && NeedsExpiry(db.sessions, db.attempts[id], now) then {id} else {}
  }

  function JobScope(db: Db, clock: int): set<Uuid> {
    set id | id in db.attempts && JobExpires(db.sessions, db.attempts[id], clock)
  }

  /** The background job: a failing UPDATE is swallowed and changes nothing. */
  ghost function RunJob(db: Db, clock: int): Db {
    var expired := ExpireWhere(db.sessions, db.attempts, JobScope(db, clock));
    if expired.Some? then db.(attempts := expired.value) else db
  }

  // ---- Queries ----

  predicate UserActive(s: Session, user: Uuid) { s.user == user && Active(s) }

  /** ORDER BY started_at DESC, id DESC: the first row. */
  ghost predicate IsLatestActive(sessions: Sessions, user: Uuid, id: Uuid) {
    && id in sessions && UserActive(sessions[id], user)
    && forall k | k in sessions && UserActive(sessions[k], user) ::
         sessions[k].startedAt < sessions[id].startedAt || (sessions[k].startedAt == sessions[id].startedAt && k <= id)
  }

  ghost function LatestActiveSession(sessions: Sessions, user: Uuid): Option<Uuid> {
    if id :| IsLatestActive(sessions, user, id) then Some(id) else None
  }

  function CorrectOptions(o: Options): set<Uuid> { set k | k in o && o[k] }

  /** At least two options, exactly one of them correct. */
  predicate WellPosed(o: Options) { |o| >= 2 && |CorrectOptions(o)| == 1 }

  predicate Playable(q: Quest) { q.questions != map[] && forall k | k in q.questions :: WellPosed(q.questions[k]) }

  ghost function FindQuest(quests: map<Uuid, Quest>, code: string): Option<Uuid> {
    if id :| id in quests && quests[id].code == code && quests[id].published && Playable(quests[id])
      then Some(id) else None
  }

  predicate For(a: Attempt, user: Uuid, quest: Uuid) { a.user == user && a.quest == quest }

  ghost predicate HasPassed(attempts: Attempts, user: Uuid, quest: Uuid) {
    exists id :: id in attempts && For(attempts[id], user, quest) && attempts[id].status.Passed?
      && attempts[id].passed == Some(true)
  }

  predicate StartedBefore(attempts: Attempts, a: Uuid, b: Uuid) {
    && a in attempts && b in attempts
    && (attempts[a].startedAt < attempts[b].startedAt || (attempts[a].startedAt == attempts[b].startedAt && a <= b))
  }

  ghost predicate IsLatestAttempt(attempts: Attempts, user: Uuid, quest: Uuid, id: Uuid) {
    && id in attempts && For(attempts[id], user, quest)
    && forall k | k in attempts && For(attempts[k], user, quest) :: StartedBefore(attempts, k, id)
  }

  ghost function LatestAttempt(attempts: Attempts, user: Uuid, quest: Uuid): Option<Uuid> {
    if id :| IsLatestAttempt(attempts, user, quest, id) then Some(id) else None
  }

  ghost predicate IsActiveAttempt(attempts: Attempts, user: Uuid, quest: Uuid, id: Uuid) {
    && id in attempts && For(attempts[id], user, quest) && Editable(attempts[id])
    && forall k | k in attempts && For(attempts[k], user, quest) && Editable(attempts[k]) ::
       StartedBefore(attempts, k, id)
  }

  ghost function ActiveAttempt(attempts: Attempts, user: Uuid, quest: Uuid): Option<Uuid> {
    if id :| IsActiveAttempt(attempts, user, quest, id) then Some(id) else None
  }

  predicate Owns(attempts: Attempts, user: Uuid, id: Uuid) { id in attempts && attempts[id].user == user }

  // ---- What a client is shown ----

  function ToSnapshot(db: Db, id: Uuid, now: int): AttemptView
    requires id in db.attempts
  {
    var a := db.attempts[id];
    var deadline := Deadline(db.sessions, a);
    var activeSession := a.session in db.sessions && Active(db.sessions[a.session]);
    var graded := a.status.Passed? || a.status.NotPassed?;
    AttemptView(id, a.session, a.status, a.startedAt, a.submittedAt, a.completedAt, deadline,
             a.status.InProgress? && (activeSession || (deadline.Some? && now <= deadline.value)),
             (a.status.NotPassed? || a.status.Expired?) && a.quest in db.quests && db.quests[a.quest].retryAllowed,
             if graded then a.score else None, if graded then a.passed else None)
  }

  ghost function PointAward(ledger: Ledger, user: Uuid, attempt: Uuid): Option<(Uuid, nat)> {
    if id :| id in ledger && ledger[id].user == user && ledger[id].attempt == attempt
      then Some((id, ledger[id].points)) else None
  }

  // ---- POST /quests/:code/attempts ----

  ghost function Start(
    db: Db, user: Uuid, code: string, key: Uuid, clock: nat, newId: Uuid): (Db, Result<Reply, Error>) {
    var now := clock / 1000;
    if (user, key) in db.idempotency then
      var stored := db.idempotency[(user, key)];
      (db, if stored.request == StartOf(code) then Ok(stored.response) else Err(IdempotencyKeyReused))
    else
      var session := LatestActiveSession(db.sessions, user);
      var found := FindQuest(db.quests, code);
      if session.None? then (db, Err(ActiveSessionRequired))
      else if found.None? then (db, Err(QuestNotFound))
      else
        var quest := found.value;
        var expired := ExpireWhere(db.sessions, db.attempts, BatchScope(db, user, quest, now));
        if expired.None? then (db, Err(CheckViolation))
        else
          var attempts := expired.value;
          var active := ActiveAttempt(attempts, user, quest);
          var latest := LatestAttempt(attempts, user, quest);
          if HasPassed(attempts, user, quest) then (db, Err(AlreadyPassed))
          else if active.None? && latest.Some?
            && (attempts[latest.value].status.NotPassed? || attempts[latest.value].status.Expired?)
            && !db.quests[quest].retryAllowed
          then (db, Err(RetryNotAllowed))
          else
            var id := if active.Some? then active.value else newId;
            var after := db.(attempts :=
              if active.Some? then attempts
              else attempts[newId :=
                Attempt(user, quest, session.value, InProgress, now, None, None, None, None, None)]);
            var reply := Started(active.None?, ToSnapshot(after, id, now));
            (after.(idempotency := db.idempotency[(user, key) := Stored(StartOf(code), reply)]), Ok(reply))
  }

  // ---- GET /quest-attempts/:id ----

  /** Expires the attempt if it is due; None if the constraint forbids it. */
  ghost function Touch(db: Db, id: Uuid, now: int): Option<Db> {
    var expired := ExpireWhere(db.sessions, db.attempts, TouchScope(db, id, now));
    if expired.Some? then Some(db.(attempts := expired.value)) else None
  }

  ghost function Get(db: Db, user: Uuid, id: Uuid, clock: nat): (Db, Result<AttemptView, Error>) {
    if !Owns(db.attempts, user, id) then (db, Err(AttemptNotFound))
    else
      var touched := Touch(db, id, clock / 1000);
      if touched.None? then (db, Err(CheckViolation))
      else (touched.value, Ok(ToSnapshot(touched.value, id, clock / 1000)))
  }

  // ---- PUT /quest-attempts/:id/answers ----

  predicate DistinctQuestions(chosen: seq<(Uuid, Uuid)>) {
    forall i, j | 0 <= i < j < |chosen| :: chosen[i].0 != chosen[j].0
  }

  predicate ValidChoice(q: Quest, c: (Uuid, Uuid)) { c.0 in q.questions && c.1 in q.questions[c.0] }

  /** The answers of one attempt replaced by the chosen options, ungraded. */
  function WithAnswers(answers: Answers, id: Uuid, chosen: seq<(Uuid, Uuid)>): Answers {
    var kept := map k | k in answers && k.0 != id :: answers[k];
    PutAnswers(kept, id, chosen)
  }

  function PutAnswers(answers: Answers, id: Uuid, chosen: seq<(Uuid, Uuid)>): Answers
    decreases |chosen|
  {
    if chosen == [] then answers
    else PutAnswers(answers[(id, chosen[0].0) := Answer(chosen[0].1, None)], id, chosen[1..])
  }

  ghost function Replace(
    db: Db, user: Uuid, id: Uuid, chosen: seq<(Uuid, Uuid)>, clock: nat): (Db, Result<AttemptView, Error>) {
    if !Owns(db.attempts, user, id) then (db, Err(AttemptNotFound))
    else
      var touched := Touch(db, id, clock / 1000);
      if touched.None? then (db, Err(CheckViolation))
      else
        var t := touched.value;
        var a := t.attempts[id];
        if !a.status.InProgress? then (db, Err(NotEditable))
        else if !DistinctQuestions(chosen) then (db, Err(DuplicateQuestionAnswer))
        else if a.quest !in db.quests || exists i :: 0 <= i < |chosen| && !ValidChoice(db.quests[a.quest], chosen[i])
        then (db, Err(InvalidAnswer))
        else
          var after := t.(answers := WithAnswers(t.answers, id, chosen));
          (after, Ok(ToSnapshot(after, id, clock / 1000)))
  }

  // ---- POST /quest-attempts/:id/submit ----

  function AnsweredQuestions(answers: Answers, id: Uuid, q: Quest): set<Uuid> {
    set k | k in q.questions && (id, k) in answers
  }

  /** Whether the stored option is the correct one; None if it is no option of the question. */
  function Mark(answers: Answers, id: Uuid, k: Uuid, q: Quest): Option<bool> {
    if (id, k) in answers && k in q.questions && answers[(id, k)].option in q.questions[k]
    then Some(q.questions[k][answers[(id, k)].option]) else None
  }

  function Grade(answers: Answers, id: Uuid, q: Quest): Answers {
    map k | k in answers :: if k.0 == id then answers[k].(correct := Mark(answers, id, k.1, q)) else answers[k]
  }

  /** The rows counted as correct by the grading UPDATE. */
  function CorrectRows(answers: Answers, id: Uuid, q: Quest): set<(Uuid, Uuid)> {
    set k | k in answers && k.0 == id && Mark(answers, id, k.1, q) == Some(true)
  }

  function Score(correct: nat, questions: nat): int
    requires questions > 0
  {
    correct * 100 / questions
  }

  function GradedRow(a: Attempt, q: Quest, score: int, now: int): Attempt {
    var passed := score >= q.passScore;
    a.(status := if passed then Passed else NotPassed, submittedAt := Some(now), completedAt := Some(now),
       score := Some(score), passed := Some(passed), reward := Some(q.rewardPoints))
  }

  ghost function GradeAttempt(t: Db, user: Uuid, id: Uuid, now: int, newEntry: Uuid): Result<Db, Error>
    requires id in t.attempts
  {
    var a := t.attempts[id];
    if !a.status.InProgress? then Err(NotEditable)
    else if a.quest !in t.quests || !Playable(t.quests[a.quest]) then Err(InvalidPublishedQuest)
    else
      var q := t.quests[a.quest];
      if |AnsweredQuestions(t.answers, id, q)| != |q.questions| then Err(AttemptIncomplete)
      else if now < a.startedAt then Err(CheckViolation)
      else
        var score := Score(|CorrectRows(t.answers, id, q)|, |q.questions|);
        var row := GradedRow(a, q, score, now);
        var entry := Entry(user, a.quest, id, q.rewardPoints, now);
        Ok(t.(attempts := t.attempts[id := row], answers := Grade(t.answers, id, q),
              ledger := if row.status.Passed? then t.ledger[newEntry := entry] else t.ledger))
  }

  /** An attempt that is neither expired nor graded yet is graded. */
  ghost function Settle(t: Db, user: Uuid, id: Uuid, now: int, newEntry: Uuid): Result<Db, Error>
    requires id in t.attempts
  {
    var status := t.attempts[id].status;
    if status.Expired? then Err(AttemptExpired)
    else if status.Passed? || status.NotPassed? then Ok(t)
    else GradeAttempt(t, user, id, now, newEntry)
  }

  /** A submission under a key that was not used before. */
  ghost function SubmitFirst(
    db: Db, user: Uuid, id: Uuid, key: Uuid, now: int, newEntry: Uuid): (Db, Result<Reply, Error>)
    requires id in db.attempts
  {
    var touched := Touch(db, id, now);
    if touched.None? then (db, Err(CheckViolation))
    else
      var done := Settle(touched.value, user, id, now, newEntry);
      if done.Err? then (db, Err(done.error))
      else
        var reply := Graded(ToSnapshot(done.value, id, now), PointAward(done.value.ledger, user, id));
        (done.value.(idempotency := db.idempotency[(user, key) := Stored(SubmitOf(id), reply)]), Ok(reply))
  }

  ghost function Submit(db: Db, user: Uuid, id: Uuid, key: Uuid, clock: nat, rewardsEnabled: bool, newEntry: Uuid)
    : (Db, Result<Reply, Error>)
  {
    if !rewardsEnabled then (db, Err(RewardsPaused))
    else if !Owns(db.attempts, user, id) then (db, Err(AttemptNotFound))
    else if (user, key) in db.idempotency then
      var stored := db.idempotency[(user, key)];
      (db, if stored.request == SubmitOf(id) then Ok(stored.response) else Err(IdempotencyKeyReused))
    else SubmitFirst(db, user, id, key, clock / 1000, newEntry)
  }
}
