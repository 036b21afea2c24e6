/**
 Whole runs of the quest service next to the session service: starts, answers,
 submissions and expiries in any interleaving, with any clock readings, while
 sessions follow their life cycle and quests are published or archived.
 */
module QuestRuns {
  import opened Wrappers
  import opened SessionRows
  import opened QuestSteps
  import opened QuestInvariants
  import opened Sums
  import S = SessionInvariants
  import R = SessionRuns

  datatype Action =
    | Begin(user: Uuid, code: string, key: Uuid, clock: nat, newId: Uuid)
    | Look(user: Uuid, id: Uuid, clock: nat)
    | Choose(user: Uuid, id: Uuid, chosen: seq<(Uuid, Uuid)>, clock: nat)
    | HandIn(user: Uuid, id: Uuid, key: Uuid, clock: nat, rewardsEnabled: bool, newEntry: Uuid)
    | ExpireJob(clock: nat)
    | SessionsMove(sessions: Sessions)
    | QuestsMove(quests: map<Uuid, Quest>)

  /** Published content is immutable: quests are only added, published and archived. */
  predicate QuestsExtend(before: map<Uuid, Quest>, after: map<Uuid, Quest>) {
    forall id | id in before :: id in after && after[id].(published := false) == before[id].(published := false)
  }

  ghost predicate Allowed(db: Db, a: Action) {
    match a
    case Begin(_, _, _, _, newId) => newId !in db.attempts
    case HandIn(_, _, _, _, _, newEntry) => newEntry !in db.ledger
    case SessionsMove(sessions) => S.SessionsEvolve(db.sessions, sessions) && SessionRowsOk(sessions)
    case QuestsMove(quests) => QuestsExtend(db.quests, quests)
    case _ => true
  }

  ghost function Step(db: Db, a: Action): Db {
    match a
    case Begin(user, code, key, clock, newId) => Start(db, user, code, key, clock, newId).0
    case Look(user, id, clock) => Get(db, user, id, clock).0
    case Choose(user, id, chosen, clock) => Replace(db, user, id, chosen, clock).0
    case HandIn(user, id, key, clock, enabled, newEntry) => Submit(db, user, id, key, clock, enabled, newEntry).0
    case ExpireJob(clock) => RunJob(db, clock)
    case SessionsMove(sessions) => db.(sessions := sessions)
    case QuestsMove(quests) => db.(quests := quests)
  }

  /** Every transaction of the session service is such a move. */
  lemma SessionTransactionsAreMoves(db: Db, before: R.SessionSteps.Db, a: R.Action)
    requires S.Inv(before) && R.FreshFor(before, a) && db.sessions == before.sessions
    ensures R.SessionSteps.DeferredAreTurnEvents(before.events) && Allowed(db, SessionsMove(R.Step(before, a).sessions))
  {
    R.StepKeeps(before, a);
    hide S.AllAudited, S.UniqueKeys, S.TurnsWithinLimit, S.NoStrandedEvents, R.Step;
  }

  lemma SessionsMoveKeeps(db: Db, sessions: Sessions)
    requires Inv(db) && S.SessionsEvolve(db.sessions, sessions) && SessionRowsOk(sessions)
    ensures Inv(db.(sessions := sessions))
  {
    hide Sum, EntriesOf, RewardsOf, OneCounts, LedgerOk;
    forall id | id in db.attempts ensures RefersOk(db.(sessions := sessions), db.attempts[id]) {
      assert RefersOk(db, db.attempts[id]);
      assert Evolves(db.sessions[db.attempts[id].session], sessions[db.attempts[id].session]);
    }
  }

  lemma QuestsKeepContent(before: map<Uuid, Quest>, after: map<Uuid, Quest>, id: Uuid)
    requires QuestsExtend(before, after) && id in before
    ensures id in after && after[id].questions == before[id].questions
  {
    assert after[id].(published := false).questions == before[id].(published := false).questions;
  }

  lemma QuestsMoveKeepsAttempts(db: Db, quests: map<Uuid, Quest>)
    requires AttemptsOk(db) && QuestsExtend(db.quests, quests)
    ensures AttemptsOk(db.(quests := quests))
  {
    hide AttemptOk, QuestsExtend, WellPosed;
    forall id | id in db.attempts
      ensures AttemptOk(db.attempts[id]) && RefersOk(db.(quests := quests), db.attempts[id])
    {
      assert RefersOk(db, db.attempts[id]);
      QuestsKeepContent(db.quests, quests, db.attempts[id].quest);
    }
  }

  lemma QuestsMoveKeepsAnswers(db: Db, quests: map<Uuid, Quest>)
    requires AnswersOk(db) && QuestsExtend(db.quests, quests)
    ensures AnswersOk(db.(quests := quests))
  {
    hide QuestsExtend;
    forall k | k in db.answers
      ensures k.0 in db.attempts && db.attempts[k.0].quest in quests
      ensures ValidChoice(quests[db.attempts[k.0].quest], (k.1, db.answers[k].option))
    {
      QuestsKeepContent(db.quests, quests, db.attempts[k.0].quest);
    }
  }

  lemma QuestsMoveKeeps(db: Db, quests: map<Uuid, Quest>)
    requires Inv(db) && QuestsExtend(db.quests, quests)
    ensures Inv(db.(quests := quests))
  {
    hide Sum, EntriesOf, RewardsOf, AttemptsOk, AnswersOk, OneCounts, LedgerOk, SessionRowsOk, QuestsExtend;
    QuestsMoveKeepsAttempts(db, quests);
    QuestsMoveKeepsAnswers(db, quests);
  }

  lemma StepKeeps(db: Db, a: Action)
    requires Inv(db) && Allowed(db, a)
    ensures Inv(Step(db, a))
  {
    hide Inv, Start, Replace, Submit;
    match a
    case Begin(user, code, key, clock, newId) => StartKeeps(db, user, code, key, clock, newId);
    case Look(user, id, clock) => TouchKeeps(db, id, clock / 1000);
    case Choose(user, id, chosen, clock) => ReplaceKeeps(db, user, id, chosen, clock);
    case HandIn(user, id, key, clock, enabled, newEntry) => SubmitKeeps(db, user, id, key, clock, enabled, newEntry);
    case ExpireJob(clock) =>
      ScopesExpireOpen(db, 0, 0, 0, 0, clock);
      ExpireKeeps(db, JobScope(db, clock));
    case SessionsMove(sessions) => SessionsMoveKeeps(db, sessions);
    case QuestsMove(quests) => QuestsMoveKeeps(db, quests);
  }

  ghost predicate Runnable(db: Db, actions: seq<Action>)
    decreases |actions|
  {
    actions == [] || (Allowed(db, actions[0]) && Runnable(Step(db, actions[0]), actions[1..]))
  }

  ghost function Run(db: Db, actions: seq<Action>): Db
    decreases |actions|
  {
    if actions == [] then db else Run(Step(db, actions[0]), actions[1..])
  }

  lemma {:induction false} RunKeeps(db: Db, actions: seq<Action>)
    requires Inv(db) && Runnable(db, actions)
    ensures Inv(Run(db, actions))
    decreases |actions|
  {
    hide Inv, Step, Allowed;
    if actions != [] {
      StepKeeps(db, actions[0]);
      RunKeeps(Step(db, actions[0]), actions[1..]);
    }
  }

  const EMPTY := Db(map[], map[], map[], map[], map[], map[])

  lemma EmptyInv()
    ensures Inv(EMPTY)
  {
    forall user ensures Sum(EntriesOf(EMPTY.ledger, user)) == Sum(RewardsOf(EMPTY.attempts, user)) {
      assert EntriesOf(EMPTY.ledger, user) == map[] && RewardsOf(EMPTY.attempts, user) == map[];
    }
  }

  ghost predicate Reachable(db: Db) {
    exists actions :: Runnable(EMPTY, actions) && Run(EMPTY, actions) == db
  }

  lemma ReachableInv()
    ensures forall db | Reachable(db) :: Inv(db)
  {
    EmptyInv();
    hide Inv;
    forall db | Reachable(db) ensures Inv(db) {
      var actions :| Runnable(EMPTY, actions) && Run(EMPTY, actions) == db;
      RunKeeps(EMPTY, actions);
    }
  }

  // ---- The promises, for every reachable state ----

  /** Per user and quest: at most one open and at most one passed attempt, and never both. */
  lemma OneOpenOnePassed(db: Db, a: Uuid, b: Uuid)
    requires Reachable(db) && a in db.attempts && b in db.attempts && a != b
    requires db.attempts[a].user == db.attempts[b].user && db.attempts[a].quest == db.attempts[b].quest
    ensures !(Editable(db.attempts[a]) && Editable(db.attempts[b]))
    ensures !(db.attempts[a].status.Passed? && db.attempts[b].status.Passed?)
    ensures !(Editable(db.attempts[a]) && db.attempts[b].status.Passed?)
  {
    ReachableInv();
  }

  /** Ledger entries are in bijection with passed attempts, carry their rewards, and no user has two
      entries for one quest. */
  lemma LedgerIsPassedAttempts(db: Db)
    requires Reachable(db)
    ensures forall k | k in db.ledger ::
      var e := db.ledger[k];
      e.attempt in db.attempts && db.attempts[e.attempt].status.Passed?
      && db.attempts[e.attempt].user == e.user && db.attempts[e.attempt].quest == e.quest
      && db.attempts[e.attempt].reward == Some(e.points)
    ensures forall id | id in db.attempts && db.attempts[id].status.Passed? ::
      exists k :: k in db.ledger && Rewards(db.ledger[k], id) && forall j | j in db.ledger
        && Rewards(db.ledger[j], id) :: j == k
    ensures forall j, k | j in db.ledger && k in db.ledger && db.ledger[j].user == db.ledger[k].user
      && db.ledger[j].quest == db.ledger[k].quest :: j == k
  {
    ReachableInv();
    assert LedgerOk(db.attempts, db.ledger) && OneCounts(db.attempts);
    hide Reachable, Sum, BalanceOk, AnswersOk, AttemptsOk, SessionRowsOk, OneCounts, Inv;
    LedgerOnePerQuest(db);
    forall id | id in db.attempts && db.attempts[id].status.Passed?
      ensures exists k :: k in db.ledger && Rewards(db.ledger[k], id) && forall j | j in db.ledger
        && Rewards(db.ledger[j], id) :: j == k
    {
      var k :| k in db.ledger && Rewards(db.ledger[k], id);
    }
  }

  lemma LedgerOnePerQuest(db: Db)
    requires LedgerOk(db.attempts, db.ledger) && OneCounts(db.attempts)
    ensures forall j, k | j in db.ledger && k in db.ledger && db.ledger[j].user == db.ledger[k].user
      && db.ledger[j].quest == db.ledger[k].quest :: j == k
  {
    forall j, k | j in db.ledger && k in db.ledger && db.ledger[j].user == db.ledger[k].user
      && db.ledger[j].quest == db.ledger[k].quest
      ensures j == k
    {
      EntriesOfOneQuest(db, j, k);
    }
  }

  lemma EntriesOfOneQuest(db: Db, j: Uuid, k: Uuid)
    requires LedgerOk(db.attempts, db.ledger) && OneCounts(db.attempts) && j in db.ledger && k in db.ledger
    requires db.ledger[j].user == db.ledger[k].user && db.ledger[j].quest == db.ledger[k].quest
    ensures j == k
  {
    assert EntryFits(db.ledger[j], db.attempts) && EntryFits(db.ledger[k], db.attempts);
    var a, b := db.ledger[j].attempt, db.ledger[k].attempt;
    assert Counts(db.attempts[a]) && Counts(db.attempts[b]);
    hide LedgerOk;
    assert a == b;
  }

  /** The balance is the sum of the reward snapshots of the user's passed attempts, and never negative. */
  lemma BalanceIsRewards(db: Db, user: Uuid)
    requires Reachable(db)
    ensures Balance(db, user) == Sum(RewardsOf(db.attempts, user)) && Balance(db, user) >= 0
  {
    ReachableInv();
    SumNonNegative(EntriesOf(db.ledger, user));
  }

  /** The insert into the ledger never meets a unique constraint: no entry for the attempt, none for
      the user and quest. */
  lemma LedgerInsertNeverConflicts(db: Db, id: Uuid)
    requires Reachable(db) && id in db.attempts && db.attempts[id].status.InProgress?
    ensures forall k | k in db.ledger ::
      && db.ledger[k].attempt != id
      && !(db.ledger[k].user == db.attempts[id].user && db.ledger[k].quest == db.attempts[id].quest)
  {
    ReachableInv();
    forall k | k in db.ledger
      ensures db.ledger[k].attempt != id
      ensures !(db.ledger[k].user == db.attempts[id].user && db.ledger[k].quest == db.attempts[id].quest)
    {
      assert EntryFits(db.ledger[k], db.attempts);
    }
  }

  /** A submission is never refused because its published quest is malformed. */
  lemma QuestStaysPlayable(db: Db, user: Uuid, id: Uuid, key: Uuid, clock: nat, enabled: bool, newEntry: Uuid)
    requires Reachable(db)
    ensures Submit(db, user, id, key, clock, enabled, newEntry).1 != Err(InvalidPublishedQuest)
  {
    ReachableInv();
    hide Reachable, Inv, Submit;
    SubmitFindsQuest(db, user, id, key, clock, enabled, newEntry);
  }

  lemma SubmitFindsQuest(db: Db, user: Uuid, id: Uuid, key: Uuid, clock: nat, enabled: bool, newEntry: Uuid)
    requires Inv(db)
    ensures Submit(db, user, id, key, clock, enabled, newEntry).1 != Err(InvalidPublishedQuest)
  {
    hide Sum, BalanceOk, LedgerOk, OneCounts, AnswersOk, SessionRowsOk, Playable, Touch, GradeAttempt,
         QuestSteps.ToSnapshot, PointAward, AttemptOk;
    TouchFrame(db, id, clock / 1000);
    var touched := Touch(db, id, clock / 1000);
    if Owns(db.attempts, user, id) && touched.Some? {
      assert RefersOk(db, db.attempts[id]);
      PlayableIsValid(touched.value, user, id, clock / 1000, newEntry);
    }
  }

  lemma PlayableIsValid(t: Db, user: Uuid, id: Uuid, now: int, newEntry: Uuid)
    requires id in t.attempts && t.attempts[id].quest in t.quests && Playable(t.quests[t.attempts[id].quest])
    ensures GradeAttempt(t, user, id, now, newEntry) != Err(InvalidPublishedQuest)
  {
    hide Playable, Grade, CorrectRows, AnsweredQuestions, Score;
  }

  /** Grading: a score of 100 means every question answered with its correct option, the score is the
      floored percentage of correctly answered questions, and passing is meeting the pass score. */
  lemma GradeMeaning(db: Db, user: Uuid, id: Uuid, now: int, newEntry: Uuid)
    requires Inv(db) && Owns(db.attempts, user, id) && GradeAttempt(db, user, id, now, newEntry).Ok?
    ensures
      var after := GradeAttempt(db, user, id, now, newEntry).value;
      var q := db.quests[db.attempts[id].quest];
      var row := after.attempts[id];
      var right := CorrectlyAnswered(db.answers, id, q);
      && row.score == Some(|right| * 100 / |q.questions|)
      && (row.score == Some(100) <==> right == q.questions.Keys)
      && (row.status.Passed? <==> |right| * 100 / |q.questions| >= q.passScore)
      && (forall k | k in q.questions :: (id, k) in after.answers
            && after.answers[(id, k)].correct == Some(k in right))
  {
    hide Sum, BalanceOk, LedgerOk, OneCounts, SessionRowsOk;
    var q := db.quests[db.attempts[id].quest];
    var right := CorrectlyAnswered(db.answers, id, q);
    CorrectRowsBound(db, id);
    ScoreRange(|right|, |q.questions|);
    assert right <= q.questions.Keys;
    SubsetSize(right, q.questions.Keys);
    SubsetSize(AnsweredQuestions(db.answers, id, q), q.questions.Keys);
    forall k | k in q.questions
      ensures (id, k) in db.answers && Mark(db.answers, id, k, q) == Some(k in right)
    {
      assert k in AnsweredQuestions(db.answers, id, q);
    }
  }
}
