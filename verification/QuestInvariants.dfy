/**
 What every quest transaction keeps, whatever the sessions do meanwhile along
 their life cycle: one open and one passed attempt per user and quest, a ledger
 in bijection with the passed attempts, and a balance that adds up.
 */
module QuestInvariants {
  import opened Wrappers
  import opened SessionRows
  import opened QuestSteps
  import opened Sums

  // ---- Sums over tables ----

  /** What the balance query adds up. */
  function EntriesOf(ledger: Ledger, user: Uuid): map<Uuid, nat> {
    map id | id in ledger && ledger[id].user == user :: ledger[id].points
  }

  /** The reward snapshots of a user's passed attempts. */
  function RewardsOf(attempts: Attempts, user: Uuid): map<Uuid, nat> {
    map id | id in attempts && attempts[id].user == user && attempts[id].status.Passed? && attempts[id].reward.Some? ::
      attempts[id].reward.value
  }

  ghost function Balance(db: Db, user: Uuid): int { Sum(EntriesOf(db.ledger, user)) }

  // ---- The invariants ----

  /** The result constraint of quest_attempts; SUBMITTED is never written. */
  predicate AttemptOk(a: Attempt) {
    match a.status
    case InProgress => a.submittedAt.None? && a.completedAt.None? && a.score.None? && a.passed.None? && a.reward.None?
    case Submitted => false
    case Expired =>
      && a.submittedAt.None? && a.completedAt.Some? && a.completedAt.value >= a.startedAt
      && a.score.None? && a.passed.None? && a.reward.None?
    case _ =>
      && a.submittedAt.Some? && a.completedAt == a.submittedAt && a.submittedAt.value >= a.startedAt
      && a.score.Some? && 0 <= a.score.value <= 100
      && a.passed == Some(a.status.Passed?) && a.reward.Some?
  }

  ghost predicate RefersOk(db: Db, a: Attempt) {
    && a.session in db.sessions && db.sessions[a.session].user == a.user
    && a.quest in db.quests && Playable(db.quests[a.quest])
  }

  ghost predicate AttemptsOk(db: Db) {
    forall id | id in db.attempts :: AttemptOk(db.attempts[id]) && RefersOk(db, db.attempts[id])
  }

  predicate Counts(a: Attempt) { Editable(a) || a.status.Passed? }

  /** Per user and quest at most one attempt is open or passed: one open, one passed, never both. */
  ghost predicate OneCounts(attempts: Attempts) {
    forall a, b | a in attempts && b in attempts && attempts[a].user == attempts[b].user
      && attempts[a].quest == attempts[b].quest && Counts(attempts[a]) && Counts(attempts[b]) :: a == b
  }

  predicate EntryFits(e: Entry, attempts: Attempts) {
    && e.attempt in attempts
    && var a := attempts[e.attempt];
       a.status.Passed? && a.user == e.user && a.quest == e.quest && a.reward == Some(e.points)
         && a.completedAt == Some(e.createdAt)
  }

  predicate Rewards(e: Entry, id: Uuid) { e.attempt == id }

  ghost predicate EntriesFit(attempts: Attempts, ledger: Ledger) {
    forall k | k in ledger :: EntryFits(ledger[k], attempts)
  }

  ghost predicate OneEntryPerAttempt(ledger: Ledger) {
    forall j, k | j in ledger && k in ledger && ledger[j].attempt == ledger[k].attempt :: j == k
  }

  ghost predicate PassedAreRewarded(attempts: Attempts, ledger: Ledger) {
    forall id | id in attempts && attempts[id].status.Passed? :: exists k :: k in ledger && Rewards(ledger[k], id)
  }

  ghost predicate LedgerOk(attempts: Attempts, ledger: Ledger) {
    EntriesFit(attempts, ledger) && OneEntryPerAttempt(ledger) && PassedAreRewarded(attempts, ledger)
  }

  ghost predicate BalanceOk(db: Db) {
    forall user :: Sum(EntriesOf(db.ledger, user)) == Sum(RewardsOf(db.attempts, user))
  }

  ghost predicate AnswersOk(db: Db) {
    forall k | k in db.answers ::
      && k.0 in db.attempts && db.attempts[k.0].quest in db.quests
      && ValidChoice(db.quests[db.attempts[k.0].quest], (k.1, db.answers[k].option))
  }

  ghost predicate SessionRowsOk(sessions: Sessions) { forall id | id in sessions :: RowOk(sessions[id]) }

  ghost predicate Inv(db: Db) {
    && SessionRowsOk(db.sessions) && AttemptsOk(db) && OneCounts(db.attempts)
    && LedgerOk(db.attempts, db.ledger) && BalanceOk(db) && AnswersOk(db)
  }

  // ---- Expiry ----

  /** Every expiring UPDATE touches open attempts whose session has ended, and only those. */
  ghost predicate ExpiresOpen(db: Db, due: set<Uuid>) {
    forall id | id in due ::
      id in db.attempts && Editable(db.attempts[id]) && Deadline(db.sessions, db.attempts[id]).Some?
  }

  /** The passed rows are the same before and after. */
  ghost predicate SamePassed(before: Attempts, after: Attempts) {
    && (forall id | id in before && before[id].status.Passed? :: id in after && after[id] == before[id])
    && (forall id | id in after && after[id].status.Passed? :: id in before && after[id] == before[id])
  }

  lemma SamePassedRewards(before: Attempts, after: Attempts, user: Uuid)
    ensures SamePassed(before, after) ==> RewardsOf(after, user) == RewardsOf(before, user)
  {}

  /** Rows added or changed without touching passed attempts leave the ledger and the balance in order. */
  lemma SamePassedKeeps(db: Db, after: Attempts)
    requires LedgerOk(db.attempts, db.ledger) && BalanceOk(db) && SamePassed(db.attempts, after)
    ensures LedgerOk(after, db.ledger) && BalanceOk(db.(attempts := after))
  {
    hide Sum, EntriesOf, RewardsOf;
    forall k | k in db.ledger ensures EntryFits(db.ledger[k], after) { assert EntryFits(db.ledger[k], db.attempts); }
    forall user ensures Sum(EntriesOf(db.ledger, user)) == Sum(RewardsOf(after, user)) {
      SamePassedRewards(db.attempts, after, user);
    }
  }

  lemma SameQuestsKeepAnswers(db: Db, after: Attempts)
    ensures (forall id | id in db.attempts :: id in after && after[id].quest == db.attempts[id].quest) ==>
      (AnswersOk(db) ==> AnswersOk(db.(attempts := after)))
  {}

  lemma ExpireKeeps(db: Db, due: set<Uuid>)
    requires Inv(db) && ExpiresOpen(db, due)
    ensures
      var r := ExpireWhere(db.sessions, db.attempts, due);
      r.Some? ==> Inv(db.(attempts := r.value)) && r.value.Keys == db.attempts.Keys
  {
    hide Sum, BalanceOk, LedgerOk, SessionRowsOk, AnswersOk;
    var r := ExpireWhere(db.sessions, db.attempts, due);
    if r.Some? {
      ExpireKeepsRows(db, due);
      SamePassedKeeps(db, r.value);
      SameQuestsKeepAnswers(db, r.value);
    }
    hide AttemptsOk, OneCounts, ExpiresOpen;
  }

  lemma ExpireKeepsRows(db: Db, due: set<Uuid>)
    requires AttemptsOk(db) && OneCounts(db.attempts) && ExpiresOpen(db, due)
    ensures
      var r := ExpireWhere(db.sessions, db.attempts, due);
      r.Some? ==>
        && r.value.Keys == db.attempts.Keys && SamePassed(db.attempts, r.value)
        && AttemptsOk(db.(attempts := r.value)) && OneCounts(r.value)
        && forall id | id in db.attempts :: r.value[id].quest == db.attempts[id].quest
  {
    hide Playable;
    var r := ExpireWhere(db.sessions, db.attempts, due);
    if r.Some? {
      forall id | id in r.value ensures AttemptOk(r.value[id]) && RefersOk(db.(attempts := r.value), r.value[id]) {
        assert AttemptOk(db.attempts[id]) && RefersOk(db, db.attempts[id]);
      }
    }
  }

  lemma ScopesExpireOpen(db: Db, user: Uuid, quest: Uuid, id: Uuid, now: int, clock: int)
    ensures ExpiresOpen(db, BatchScope(db, user, quest, now))
    ensures ExpiresOpen(db, TouchScope(db, id, now))
    ensures ExpiresOpen(db, JobScope(db, clock))
  {}

  // ---- Start ----

  lemma InsertKeepsRows(db: Db, id: Uuid, a: Attempt)
    requires AttemptsOk(db) && OneCounts(db.attempts) && id !in db.attempts && AttemptOk(a) && RefersOk(db, a)
    requires forall k | k in db.attempts && For(db.attempts[k], a.user, a.quest) :: !Counts(db.attempts[k])
    ensures AttemptsOk(db.(attempts := db.attempts[id := a])) && OneCounts(db.attempts[id := a])
  {
    hide Playable, AttemptOk, Counts;
    var after := db.attempts[id := a];
    forall k | k in after ensures AttemptOk(after[k]) && RefersOk(db.(attempts := after), after[k]) {
      assert k in db.attempts ==> RefersOk(db, db.attempts[k]);
    }
    assert forall k | k in db.attempts && Counts(db.attempts[k]) :: !For(db.attempts[k], a.user, a.quest);
  }

  lemma InsertAttemptKeeps(db: Db, id: Uuid, a: Attempt)
    requires Inv(db) && id !in db.attempts && AttemptOk(a) && a.status.InProgress? && RefersOk(db, a)
    requires forall k | k in db.attempts && For(db.attempts[k], a.user, a.quest) :: !Counts(db.attempts[k])
    ensures Inv(db.(attempts := db.attempts[id := a]))
  {
    hide BalanceOk, LedgerOk, SessionRowsOk, AnswersOk, AttemptsOk, OneCounts, Counts, RefersOk;
    InsertKeepsRows(db, id, a);
    SamePassedKeeps(db, db.attempts[id := a]);
    SameQuestsKeepAnswers(db, db.attempts[id := a]);
  }

  lemma StartKeeps(db: Db, user: Uuid, code: string, key: Uuid, clock: nat, newId: Uuid)
    requires Inv(db) && newId !in db.attempts
    ensures Inv(Start(db, user, code, key, clock, newId).0)
  {
    var r, found, now := Start(db, user, code, key, clock, newId).0, FindQuest(db.quests, code), clock / 1000;
    if found.Some? && r != db {
      var due := BatchScope(db, user, found.value, now);
      ScopesExpireOpen(db, user, found.value, 0, now, 0);
      ExpireKeeps(db, due);
      var t := db.(attempts := ExpireWhere(db.sessions, db.attempts, due).value);
      BeginKeeps(t, user, code, found.value, newId, now);
      hide Inv, LatestActiveSession, FindQuest, BatchScope, ExpireWhere, HasPassed, ActiveAttempt, LatestAttempt,
           QuestSteps.ToSnapshot;
      KeysOnlyKeep(t.(attempts := r.attempts), r);
    }
  }

  /** Inserting the attempt once the checks have passed. */
  lemma BeginKeeps(t: Db, user: Uuid, code: string, quest: Uuid, newId: Uuid, now: int)
    requires Inv(t) && newId !in t.attempts && FindQuest(t.quests, code) == Some(quest)
    ensures
      var session := LatestActiveSession(t.sessions, user);
      session.Some? && !HasPassed(t.attempts, user, quest) && ActiveAttempt(t.attempts, user, quest).None? ==>
      Inv(t.(attempts := t.attempts[newId :=
        Attempt(user, quest, session.value, InProgress, now, None, None, None, None, None)]))
  {
    var session := LatestActiveSession(t.sessions, user);
    if session.Some? && !HasPassed(t.attempts, user, quest) && ActiveAttempt(t.attempts, user, quest).None? {
      NoneCounts(t, user, quest);
      hide Inv, HasPassed, ActiveAttempt;
      InsertAttemptKeeps(t, newId, Attempt(user, quest, session.value, InProgress, now, None, None, None, None, None));
    }
  }

  /** The passed and the open query together see every attempt that counts. */
  lemma NoneCounts(t: Db, user: Uuid, quest: Uuid)
    requires Inv(t) && !HasPassed(t.attempts, user, quest) && ActiveAttempt(t.attempts, user, quest).None?
    ensures forall k | k in t.attempts && For(t.attempts[k], user, quest) :: !Counts(t.attempts[k])
  {
    forall k | k in t.attempts && For(t.attempts[k], user, quest) ensures !Counts(t.attempts[k]) {
      if Editable(t.attempts[k]) {
        assert IsActiveAttempt(t.attempts, user, quest, k);
      }
    }
  }

  // ---- Answers ----

  lemma {:induction false} PutAnswersFit(answers: Answers, id: Uuid, chosen: seq<(Uuid, Uuid)>)
    ensures forall k | k in PutAnswers(answers, id, chosen) ::
      (k in answers && PutAnswers(answers, id, chosen)[k] == answers[k])
      || (k.0 == id && exists i :: 0 <= i < |chosen| && chosen[i] == (k.1, PutAnswers(answers, id, chosen)[k].option))
    decreases |chosen|
  {
    if chosen != [] {
      var one := answers[(id, chosen[0].0) := Answer(chosen[0].1, None)];
      PutAnswersFit(one, id, chosen[1..]);
      var r := PutAnswers(one, id, chosen[1..]);
      forall k | k in r
        ensures (k in answers && r[k] == answers[k])
          || (k.0 == id && exists i :: 0 <= i < |chosen| && chosen[i] == (k.1, r[k].option))
      {
        if k in one && r[k] == one[k] {
          if k == (id, chosen[0].0) { assert chosen[0] == (k.1, r[k].option); }
        } else {
          var i :| 0 <= i < |chosen[1..]| && chosen[1..][i] == (k.1, r[k].option);
          assert chosen[i + 1] == (k.1, r[k].option);
        }
      }
    }
  }

  lemma TouchKeeps(db: Db, id: Uuid, now: int)
    requires Inv(db)
    ensures Touch(db, id, now).Some? ==>
      Inv(Touch(db, id, now).value) && Touch(db, id, now).value.attempts.Keys == db.attempts.Keys
  {
    ScopesExpireOpen(db, 0, 0, id, now, 0);
    ExpireKeeps(db, TouchScope(db, id, now));
  }

  lemma SameRowsKeep(t: Db, u: Db)
    requires Inv(t) && u.sessions == t.sessions && u.quests == t.quests && u.attempts == t.attempts
    requires u.ledger == t.ledger
    requires AnswersOk(u)
    ensures Inv(u)
  {
    hide Sum, EntriesOf, RewardsOf;
  }

  lemma TouchFrame(db: Db, id: Uuid, now: int)
    ensures Touch(db, id, now).Some? ==>
      (var t := Touch(db, id, now).value;
       && t == db.(attempts := t.attempts) && t.attempts.Keys == db.attempts.Keys
       && (forall k | k in db.attempts && k != id :: t.attempts[k] == db.attempts[k])
       && (id in db.attempts ==>
            t.attempts[id].user == db.attempts[id].user && t.attempts[id].quest == db.attempts[id].quest))
  {}

  lemma WithAnswersKeeps(t: Db, id: Uuid, chosen: seq<(Uuid, Uuid)>)
    requires AnswersOk(t) && id in t.attempts && t.attempts[id].quest in t.quests
    requires forall i | 0 <= i < |chosen| :: ValidChoice(t.quests[t.attempts[id].quest], chosen[i])
    ensures AnswersOk(t.(answers := WithAnswers(t.answers, id, chosen)))
  {
    PutAnswersFit(map k | k in t.answers && k.0 != id :: t.answers[k], id, chosen);
  }

  lemma ReplaceKeeps(db: Db, user: Uuid, id: Uuid, chosen: seq<(Uuid, Uuid)>, clock: nat)
    requires Inv(db)
    ensures Inv(Replace(db, user, id, chosen, clock).0)
  {
    hide Sum, BalanceOk, LedgerOk, SessionRowsOk, OneCounts, AttemptsOk, AnswersOk, WithAnswers, Touch;
    TouchKeeps(db, id, clock / 1000);
    var r := Replace(db, user, id, chosen, clock);
    TouchFrame(db, id, clock / 1000);
    if r.1.Ok? {
      var t := Touch(db, id, clock / 1000).value;
      WithAnswersKeeps(t, id, chosen);
      SameRowsKeep(t, r.0);
    }
  }

  // ---- Submit ----

  /** One row per question: the correct rows of an attempt are at most its quest's questions. */
  lemma CorrectRowsBound(db: Db, id: Uuid)
    requires AnswersOk(db) && id in db.attempts && db.attempts[id].quest in db.quests
    ensures |CorrectRows(db.answers, id, db.quests[db.attempts[id].quest])|
      <= |db.quests[db.attempts[id].quest].questions|
    ensures |CorrectRows(db.answers, id, db.quests[db.attempts[id].quest])|
      == |CorrectlyAnswered(db.answers, id, db.quests[db.attempts[id].quest])|
  {
    var q := db.quests[db.attempts[id].quest];
    var rows := CorrectRows(db.answers, id, q);
    var answered := CorrectlyAnswered(db.answers, id, q);
    PairImage(rows, answered, id);
    assert answered <= q.questions.Keys;
    SubsetSize(answered, q.questions.Keys);
  }

  /** The questions whose stored answer is the correct option: what a score is about. */
  function CorrectlyAnswered(answers: Answers, id: Uuid, q: Quest): set<Uuid> {
    set k | k in q.questions && (id, k) in answers && answers[(id, k)].option in q.questions[k]
            && q.questions[k][answers[(id, k)].option]
  }

  lemma {:induction false} PairImage(rows: set<(Uuid, Uuid)>, ks: set<Uuid>, id: Uuid)
    requires forall r | r in rows :: r.0 == id && r.1 in ks
    requires forall k | k in ks :: (id, k) in rows
    ensures |rows| == |ks|
    decreases |ks|
  {
    if ks == {} {
      assert rows == {};
    } else {
      var k :| k in ks;
      PairImage(rows - {(id, k)}, ks - {k}, id);
    }
  }

  /** The state after a passing or failing grade. */
  ghost predicate Graded(t: Db, u: Db, user: Uuid, id: Uuid, row: Attempt, newEntry: Uuid) {
    && row.quest in t.quests && u.sessions == t.sessions && u.quests == t.quests
    && u.attempts == t.attempts[id := row] && u.answers == Grade(t.answers, id, t.quests[row.quest])
    && u.ledger == (if row.status.Passed? && row.reward.Some? && row.completedAt.Some?
                    then t.ledger[newEntry := Entry(user, row.quest, id, row.reward.value, row.completedAt.value)]
                      else t.ledger)
  }

  lemma GradeKeepsLedger(t: Db, user: Uuid, id: Uuid, row: Attempt, newEntry: Uuid, u: Db)
    requires LedgerOk(t.attempts, t.ledger) && id in t.attempts && newEntry !in t.ledger
    requires t.attempts[id].status.InProgress? && AttemptOk(row) && row.user == user && row.quest in t.quests
    requires Graded(t, u, user, id, row, newEntry)
    ensures LedgerOk(u.attempts, u.ledger)
  {
    hide PassedAreRewarded, Grade;
    assert EntriesFit(u.attempts, u.ledger) by {
      forall k | k in u.ledger ensures EntryFits(u.ledger[k], u.attempts) {
        if k in t.ledger { assert EntryFits(t.ledger[k], t.attempts); }
      }
    }
    assert OneEntryPerAttempt(u.ledger) by {
      forall k | k in t.ledger ensures t.ledger[k].attempt != id { assert EntryFits(t.ledger[k], t.attempts); }
    }
    hide EntriesFit, OneEntryPerAttempt;
    GradeKeepsRewarded(t, user, id, row, newEntry, u);
  }

  lemma GradeKeepsRewarded(t: Db, user: Uuid, id: Uuid, row: Attempt, newEntry: Uuid, u: Db)
    requires PassedAreRewarded(t.attempts, t.ledger) && id in t.attempts && newEntry !in t.ledger
    requires AttemptOk(row) && Graded(t, u, user, id, row, newEntry)
    ensures PassedAreRewarded(u.attempts, u.ledger)
  {
    hide Grade;
    forall a | a in u.attempts && u.attempts[a].status.Passed?
      ensures exists k :: k in u.ledger && Rewards(u.ledger[k], a)
    {
      if a == id {
        assert Rewards(u.ledger[newEntry], id);
      } else {
        var k :| k in t.ledger && Rewards(t.ledger[k], a);
        assert k in u.ledger && Rewards(u.ledger[k], a);
      }
    }
  }

  lemma GradeRewards(attempts: Attempts, id: Uuid, row: Attempt, who: Uuid)
    requires id in attempts && attempts[id].status.InProgress? && row.user == attempts[id].user
    requires row.status.Passed? ==> row.reward.Some?
    ensures id !in RewardsOf(attempts, who)
    ensures RewardsOf(attempts[id := row], who) ==
            if row.status.Passed? && row.user == who then RewardsOf(attempts, who)[id := row.reward.value]
              else RewardsOf(attempts, who)
  {}

  lemma GradeKeepsBalance(t: Db, user: Uuid, id: Uuid, row: Attempt, newEntry: Uuid, u: Db)
    requires BalanceOk(t) && id in t.attempts && newEntry !in t.ledger
    requires t.attempts[id].status.InProgress? && AttemptOk(row) && row.user == user && t.attempts[id].user == user
    requires Graded(t, u, user, id, row, newEntry)
    ensures BalanceOk(u)
  {
    hide Sum, Grade, RewardsOf;
    forall who ensures Sum(EntriesOf(u.ledger, who)) == Sum(RewardsOf(u.attempts, who)) {
      assert Sum(EntriesOf(t.ledger, who)) == Sum(RewardsOf(t.attempts, who));
      GradeRewards(t.attempts, id, row, who);
      if row.status.Passed? {
        assert EntriesOf(u.ledger, who)
            == if who == user then EntriesOf(t.ledger, who)[newEntry := row.reward.value] else EntriesOf(t.ledger, who);
        if who == user {
          SumAdd(EntriesOf(t.ledger, who), newEntry, row.reward.value);
          SumAdd(RewardsOf(t.attempts, who), id, row.reward.value);
        }
      }
    }
  }

  lemma GradeKeepsAttempts(t: Db, id: Uuid, row: Attempt, u: Db)
    requires AttemptsOk(t) && OneCounts(t.attempts) && id in t.attempts && t.attempts[id].status.InProgress?
    requires AttemptOk(row) && For(row, t.attempts[id].user, t.attempts[id].quest)
    requires row.session == t.attempts[id].session
    requires u.sessions == t.sessions && u.quests == t.quests && u.attempts == t.attempts[id := row]
    ensures AttemptsOk(u) && OneCounts(u.attempts)
  {
    forall k | k in u.attempts ensures AttemptOk(u.attempts[k]) && RefersOk(u, u.attempts[k]) {
      assert AttemptOk(t.attempts[k]) && RefersOk(t, t.attempts[k]);
    }
  }

  /** The graded row meets the constraints and its score is a percentage. */
  lemma GradedRowOk(t: Db, user: Uuid, id: Uuid, now: int, newEntry: Uuid)
    requires AttemptsOk(t) && AnswersOk(t) && Owns(t.attempts, user, id)
    ensures
      var r := GradeAttempt(t, user, id, now, newEntry);
      r.Ok? ==>
        && id in r.value.attempts && t.attempts[id].status.InProgress?
        && var row := r.value.attempts[id];
        && AttemptOk(row) && For(row, user, t.attempts[id].quest) && row.session == t.attempts[id].session
        && Graded(t, r.value, user, id, row, newEntry)
  {
    hide Grade, Score, CorrectRows, AnsweredQuestions, Playable, ValidChoice;
    var r := GradeAttempt(t, user, id, now, newEntry);
    if r.Ok? {
      assert AttemptOk(t.attempts[id]);
      ScoreIsPercentage(t, id);
    }
  }

  lemma ScoreIsPercentage(t: Db, id: Uuid)
    requires AnswersOk(t) && id in t.attempts && t.attempts[id].quest in t.quests
    requires Playable(t.quests[t.attempts[id].quest])
    ensures
      var q := t.quests[t.attempts[id].quest];
      |q.questions| > 0 && 0 <= Score(|CorrectRows(t.answers, id, q)|, |q.questions|) <= 100
  {
    var q := t.quests[t.attempts[id].quest];
    CorrectRowsBound(t, id);
    ScoreRange(|CorrectRows(t.answers, id, q)|, |q.questions|);
  }

  lemma GradeKeeps(t: Db, user: Uuid, id: Uuid, now: int, newEntry: Uuid)
    requires Inv(t) && Owns(t.attempts, user, id) && newEntry !in t.ledger
    ensures
      var r := GradeAttempt(t, user, id, now, newEntry);
      r.Ok? ==> Inv(r.value)
  {
    hide Sum, BalanceOk, LedgerOk, SessionRowsOk, Grade, GradeAttempt, AttemptsOk, OneCounts, AnswersOk;
    var r := GradeAttempt(t, user, id, now, newEntry);
    GradedRowOk(t, user, id, now, newEntry);
    if r.Ok? {
      var row := r.value.attempts[id];
      GradeKeepsLedger(t, user, id, row, newEntry, r.value);
      GradeKeepsBalance(t, user, id, row, newEntry, r.value);
      GradeKeepsAnswers(t, id, row, r.value);
      GradeKeepsAttempts(t, id, row, r.value);
    }
  }

  lemma GradeKeepsAnswers(t: Db, id: Uuid, row: Attempt, u: Db)
    requires AnswersOk(t) && id in t.attempts && row.quest == t.attempts[id].quest && row.quest in t.quests
    requires u.quests == t.quests && u.attempts == t.attempts[id := row]
    requires u.answers == Grade(t.answers, id, t.quests[row.quest])
    ensures AnswersOk(u)
  {}

  lemma ScoreRange(correct: nat, questions: nat)
    requires questions > 0 && correct <= questions
    ensures 0 <= Score(correct, questions) <= 100
    ensures Score(correct, questions) == 100 <==> correct == questions
  {
    var score, rest := correct * 100 / questions, correct * 100 % questions;
    assert correct * 100 == score * questions + rest;
    if score >= 101 {
      MoreThan(score, 101, questions);
    } else if correct < questions && score >= 100 {
      MoreThan(score, 100, questions);
    } else if correct == questions && score <= 99 {
      MoreThan(99, score, questions);
    }
  }

  lemma MoreThan(a: int, b: int, factor: nat)
    ensures a >= b ==> a * factor >= b * factor
  {}

  lemma KeysOnlyKeep(t: Db, u: Db)
    requires Inv(t) && u == t.(idempotency := u.idempotency)
    ensures Inv(u)
  {
    hide Sum, EntriesOf, RewardsOf, OneCounts, LedgerOk, SessionRowsOk;
  }

  lemma SubmitKeeps(db: Db, user: Uuid, id: Uuid, key: Uuid, clock: nat, enabled: bool, newEntry: Uuid)
    requires Inv(db) && newEntry !in db.ledger
    ensures Inv(Submit(db, user, id, key, clock, enabled, newEntry).0)
  {
    hide Inv, GradeAttempt;
    var now := clock / 1000;
    TouchKeeps(db, id, now);
    var touched := Touch(db, id, now);
    if touched.Some? && Owns(db.attempts, user, id) {
      var t, r := touched.value, Submit(db, user, id, key, clock, enabled, newEntry).0;
      TouchFrame(db, id, now);
      GradeKeeps(t, user, id, now, newEntry);
      var graded := GradeAttempt(t, user, id, now, newEntry);
      if t.attempts[id].status.Passed? || t.attempts[id].status.NotPassed? {
        if r != db { KeysOnlyKeep(t, r); }
      } else if graded.Ok? {
        if r != db { KeysOnlyKeep(graded.value, r); }
      }
    }
  }
}
