/**
 The quest attempt service and its recovery job in the form the server has them:
 methods that read and write the tables statement by statement and roll back on
 an error. Each is proved to take the state where the transaction functions of
 QuestSteps say, so everything proved about those holds of these methods.
 */
module QuestService {
  import opened Wrappers
  import opened SessionRows
  import Spec = QuestSteps
  import P = QuestPromises
  import opened QuestInvariants

  type Uuid = SessionRows.Uuid

  /** The unique index on the code of published quests. */
  ghost predicate OnePublished(quests: map<Uuid, Spec.Quest>) {
    forall a, b | a in quests && b in quests && quests[a].published && quests[b].published
      && quests[a].code == quests[b].code :: a == b
  }

  predicate StartsBefore(at: map<Uuid, int>, a: Uuid, b: Uuid)
    requires a in at && b in at
  {
    at[a] < at[b] || (at[a] == at[b] && a <= b)
  }

  /** ORDER BY started_at DESC, id DESC LIMIT 1. */
  method LatestOf(rows: set<Uuid>, at: map<Uuid, int>) returns (last: Option<Uuid>)
    requires rows <= at.Keys
    ensures last.None? <==> rows == {}
    ensures last.Some? ==> last.value in rows && forall id | id in rows :: StartsBefore(at, id, last.value)
  {
    if rows == {} { return None; }
    var best :| best in rows;
    var seen, rest := {best}, rows - {best};
    while rest != {}
      invariant rows == seen + rest && best in seen
      invariant forall id | id in seen :: StartsBefore(at, id, best)
      decreases |rest|
    {
      var id :| id in rest;
      rest, seen := rest - {id}, seen + {id};
      if StartsBefore(at, best, id) { best := id; }
    }
    return Some(best);
  }

  class Service {
    var sessions: Spec.Sessions
    var quests: map<Uuid, Spec.Quest>
    var attempts: Spec.Attempts
    var answers: Spec.Answers
    var ledger: Spec.Ledger
    var idempotency: map<(Uuid, Uuid), Spec.Stored>

    function State(): Spec.Db
      reads this
    {
      Spec.Db(sessions, quests, attempts, answers, ledger, idempotency)
    }

    constructor ()
      ensures State() == Spec.Db(map[], map[], map[], map[], map[], map[])
    {
      sessions, quests, attempts, answers, ledger, idempotency := map[], map[], map[], map[], map[], map[];
    }

    // ---- Queries ----

    method FindLatestActiveSession(user: Uuid) returns (r: Option<Uuid>)
      ensures r == Spec.LatestActiveSession(sessions, user)
    {
      var rows := set id | id in sessions && Spec.UserActive(sessions[id], user);
      r := LatestOf(rows, map id | id in sessions :: sessions[id].startedAt);
      if r.Some? {
        forall k | k in sessions && Spec.UserActive(sessions[k], user)
          ensures sessions[k].startedAt < sessions[r.value].startedAt
            || (sessions[k].startedAt == sessions[r.value].startedAt && k <= r.value)
        {
          assert k in rows;
        }
        assert Spec.IsLatestActive(sessions, user, r.value);
      } else {
        forall id ensures !Spec.IsLatestActive(sessions, user, id) { assert id !in rows; }
      }
    }

    method FindPublishedQuest(code: string) returns (r: Option<Uuid>)
      requires OnePublished(quests)
      ensures r == Spec.FindQuest(quests, code) && (r.Some? ==> r.value in quests)
    {
      var rows := set id | id in quests && quests[id].code == code && quests[id].published && Spec.Playable(quests[id]);
      if rows == {} {
        assert forall id | id in quests :: id !in rows;
        return None;
      }
      var id :| id in rows;
      return Some(id);
    }

    method FindPassed(user: Uuid, quest: Uuid) returns (found: bool)
      ensures found == Spec.HasPassed(attempts, user, quest)
    {
      var rows := set id | id in attempts && Spec.For(attempts[id], user, quest)
                           && attempts[id].status.Passed? && attempts[id].passed == Some(true);
      found := rows != {};
      if !found { assert forall id | id in attempts :: id !in rows; }
    }

    method FindActiveAttempt(user: Uuid, quest: Uuid) returns (r: Option<Uuid>)
      ensures r == Spec.ActiveAttempt(attempts, user, quest) && (r.Some? ==> r.value in attempts)
    {
      var rows := set id | id in attempts && Spec.For(attempts[id], user, quest) && Spec.Editable(attempts[id]);
      r := LatestOf(rows, map id | id in attempts :: attempts[id].startedAt);
      if r.Some? {
        forall k | k in attempts && Spec.For(attempts[k], user, quest) && Spec.Editable(attempts[k])
          ensures Spec.StartedBefore(attempts, k, r.value)
        {
          assert k in rows;
        }
        assert Spec.IsActiveAttempt(attempts, user, quest, r.value);
      } else {
        forall id ensures !Spec.IsActiveAttempt(attempts, user, quest, id) { assert id !in rows; }
      }
    }

    method FindLatestAttempt(user: Uuid, quest: Uuid) returns (r: Option<Uuid>)
      ensures r == Spec.LatestAttempt(attempts, user, quest) && (r.Some? ==> r.value in attempts)
    {
      var rows := set id | id in attempts && Spec.For(attempts[id], user, quest);
      r := LatestOf(rows, map id | id in attempts :: attempts[id].startedAt);
      if r.Some? {
        forall k | k in attempts && Spec.For(attempts[k], user, quest)
          ensures Spec.StartedBefore(attempts, k, r.value)
        {
          assert k in rows;
        }
        assert Spec.IsLatestAttempt(attempts, user, quest, r.value);
      } else {
        forall id ensures !Spec.IsLatestAttempt(attempts, user, quest, id) { assert id !in rows; }
      }
    }

    method FindPointAward(user: Uuid, attempt: Uuid) returns (r: Option<(Uuid, nat)>)
      requires OneEntryPerAttempt(ledger)
      ensures r == Spec.PointAward(ledger, user, attempt)
    {
      var rows := set id | id in ledger && ledger[id].user == user && ledger[id].attempt == attempt;
      if rows == {} {
        assert forall id | id in ledger :: id !in rows;
        return None;
      }
      var id :| id in rows;
      return Some((id, ledger[id].points));
    }

    // ---- Expiry ----

    /** One expiring UPDATE: a row that breaks the constraint fails the whole statement. */
    method ExpireRows(due: set<Uuid>) returns (ok: bool)
      modifies this`attempts
      ensures ok == Spec.ExpireWhere(sessions, old(attempts), due).Some?
      ensures attempts == if ok then Spec.ExpireWhere(sessions, old(attempts), due).value else old(attempts)
    {
      var broken := set id | id in due && id in attempts && !Spec.ExpiryAllowed(sessions, attempts[id]);
      if broken != {} {
        var id :| id in broken;
        return false;
      }
      forall id | id in due && id in attempts
        ensures Spec.ExpiryAllowed(sessions, attempts[id])
      {
        assert id !in broken;
      }
      attempts := map id | id in attempts :: if id in due then Spec.Expire(sessions, attempts[id]) else attempts[id];
      return true;
    }

    method ExpireAttempts(user: Uuid, quest: Uuid, now: int) returns (ok: bool)
      modifies this`attempts
      ensures
        var r := Spec.ExpireWhere(sessions, old(attempts), Spec.BatchScope(old(State()), user, quest, now));
        ok == r.Some? && attempts == if ok then r.value else old(attempts)
    {
      ok := ExpireRows(set id | id in attempts && attempts[id].user == user && attempts[id].quest == quest
                                && Spec.BatchExpires(sessions, attempts[id], now));
    }

    method ExpireAttemptIfNeeded(id: Uuid, now: int) returns (ok: bool)
      requires id in attempts
      modifies this`attempts
      ensures
        var r := Spec.Touch(old(State()), id, now);
        ok == r.Some? && State() == if ok then r.value else old(State())
    {
      if !Spec.NeedsExpiry(sessions, attempts[id], now) {
        NothingDue(State(), id, now);
        return true;
      }
      ok := ExpireRows({id});
    }

    // ---- POST /quests/:code/attempts ----

    method StartAttempt(user: Uuid, code: string, key: Uuid, clock: nat, newId: Uuid)
      returns (r: Result<Spec.Reply, Spec.Error>)
      requires OnePublished(quests) && newId !in attempts
      modifies this`attempts, this`idempotency
      ensures State() == Spec.Start(old(State()), user, code, key, clock, newId).0
      ensures r == Spec.Start(old(State()), user, code, key, clock, newId).1
    {
      hide Spec.BatchScope, Spec.ExpireWhere, Spec.HasPassed, Spec.ActiveAttempt, Spec.LatestAttempt, Spec.FindQuest,
           Spec.LatestActiveSession, Spec.ToSnapshot;
      if (user, key) in idempotency {
        var stored := idempotency[(user, key)];
        return if stored.request == Spec.StartOf(code) then Ok(stored.response) else Err(Spec.IdempotencyKeyReused);
      }
      var now := clock / 1000;
      var session := FindLatestActiveSession(user);
      if session.None? { return Err(Spec.ActiveSessionRequired); }
      var quest := FindPublishedQuest(code);
      if quest.None? { return Err(Spec.QuestNotFound); }

      var savepoint := attempts;
      var expired := ExpireAttempts(user, quest.value, now);
      if !expired { return Err(Spec.CheckViolation); }
      var passed := FindPassed(user, quest.value);
      if passed {
        attempts := savepoint;
        return Err(Spec.AlreadyPassed);
      }
      var active := FindActiveAttempt(user, quest.value);
      var id := newId;
      if active.Some? {
        id := active.value;
      } else {
        var latest := FindLatestAttempt(user, quest.value);
        if latest.Some? && (attempts[latest.value].status.NotPassed? || attempts[latest.value].status.Expired?)
           && !quests[quest.value].retryAllowed {
          attempts := savepoint;
          return Err(Spec.RetryNotAllowed);
        }
        attempts := attempts[newId :=
          Spec.Attempt(user, quest.value, session.value, Spec.InProgress, now, None, None, None, None, None)];
      }
      var reply := Spec.Started(active.None?, Spec.ToSnapshot(State(), id, now));
      idempotency := idempotency[(user, key) := Spec.Stored(Spec.StartOf(code), reply)];
      return Ok(reply);
    }

    // ---- GET /quest-attempts/:id ----

    method GetAttempt(user: Uuid, id: Uuid, clock: nat) returns (r: Result<Spec.AttemptView, Spec.Error>)
      modifies this`attempts
      ensures State() == Spec.Get(old(State()), user, id, clock).0
      ensures r == Spec.Get(old(State()), user, id, clock).1
    {
      TouchFrame(State(), id, clock / 1000);
      hide Spec.Touch, Spec.ToSnapshot;
      if !Spec.Owns(attempts, user, id) { return Err(Spec.AttemptNotFound); }
      var ok := ExpireAttemptIfNeeded(id, clock / 1000);
      if !ok { return Err(Spec.CheckViolation); }
      return Ok(Spec.ToSnapshot(State(), id, clock / 1000));
    }

    // ---- PUT /quest-attempts/:id/answers ----

    method ReplaceAnswers(user: Uuid, id: Uuid, chosen: seq<(Uuid, Uuid)>, clock: nat)
      returns (r: Result<Spec.AttemptView, Spec.Error>)
      modifies this`attempts, this`answers
      ensures State() == Spec.Replace(old(State()), user, id, chosen, clock).0
      ensures r == Spec.Replace(old(State()), user, id, chosen, clock).1
    {
      TouchFrame(State(), id, clock / 1000);
      hide Spec.Touch, Spec.ToSnapshot, Spec.WithAnswers, Spec.DistinctQuestions, Spec.ValidChoice;
      if !Spec.Owns(attempts, user, id) { return Err(Spec.AttemptNotFound); }
      var savepoint := attempts;
      var ok := ExpireAttemptIfNeeded(id, clock / 1000);
      if !ok { return Err(Spec.CheckViolation); }
      var error := CheckAnswers(id, chosen);
      if error.Some? {
        attempts := savepoint;
        return Err(error.value);
      }
      InsertAnswers(id, chosen);
      return Ok(Spec.ToSnapshot(State(), id, clock / 1000));
    }

    method CheckAnswers(id: Uuid, chosen: seq<(Uuid, Uuid)>) returns (error: Option<Spec.Error>)
      requires id in attempts
      ensures
        var a := attempts[id];
        error ==
          if !a.status.InProgress? then Some(Spec.NotEditable)
          else if !Spec.DistinctQuestions(chosen) then Some(Spec.DuplicateQuestionAnswer)
          else if a.quest !in quests || exists i :: 0 <= i < |chosen| && !Spec.ValidChoice(quests[a.quest], chosen[i])
          then Some(Spec.InvalidAnswer) else None
    {
      var a := attempts[id];
      if !a.status.InProgress? { return Some(Spec.NotEditable); }
      var questions := set i | 0 <= i < |chosen| :: chosen[i].0;
      P.DistinctBySize(chosen, questions);
      if |questions| != |chosen| { return Some(Spec.DuplicateQuestionAnswer); }
      if a.quest !in quests { return Some(Spec.InvalidAnswer); }
      for i := 0 to |chosen|
        invariant forall j | 0 <= j < i :: Spec.ValidChoice(quests[a.quest], chosen[j])
      {
        if !Spec.ValidChoice(quests[a.quest], chosen[i]) { return Some(Spec.InvalidAnswer); }
      }
      return None;
    }

    /** DELETE of the attempt's answers, then the INSERT of the chosen ones. */
    method InsertAnswers(id: Uuid, chosen: seq<(Uuid, Uuid)>)
      modifies this`answers
      ensures answers == Spec.WithAnswers(old(answers), id, chosen)
    {
      answers := map k | k in answers && k.0 != id :: answers[k];
      ghost var kept := answers;
      assert chosen[0..] == chosen;
      for i := 0 to |chosen|
        invariant Spec.PutAnswers(answers, id, chosen[i..]) == Spec.PutAnswers(kept, id, chosen)
      {
        assert chosen[i..][0] == chosen[i] && chosen[i..][1..] == chosen[i + 1..];
        answers := answers[(id, chosen[i].0) := Spec.Answer(chosen[i].1, None)];
      }
      assert chosen[|chosen|..] == [];
    }

    // ---- POST /quest-attempts/:id/submit ----

    method SubmitAttempt(user: Uuid, id: Uuid, key: Uuid, clock: nat, rewardsEnabled: bool, newEntry: Uuid)
      returns (r: Result<Spec.Reply, Spec.Error>)
      requires Inv(State()) && newEntry !in ledger
      modifies this`attempts, this`answers, this`ledger, this`idempotency
      ensures State() == Spec.Submit(old(State()), user, id, key, clock, rewardsEnabled, newEntry).0
      ensures r == Spec.Submit(old(State()), user, id, key, clock, rewardsEnabled, newEntry).1
    {
      hide Inv, Spec.SubmitFirst;
      if !rewardsEnabled { return Err(Spec.RewardsPaused); }
      if !Spec.Owns(attempts, user, id) { return Err(Spec.AttemptNotFound); }
      if (user, key) in idempotency {
        var stored := idempotency[(user, key)];
        return if stored.request == Spec.SubmitOf(id) then Ok(stored.response) else Err(Spec.IdempotencyKeyReused);
      }
      r := SubmitFirst(user, id, key, clock / 1000, newEntry);
    }

    method SubmitFirst(user: Uuid, id: Uuid, key: Uuid, now: int, newEntry: Uuid)
      returns (r: Result<Spec.Reply, Spec.Error>)
      requires Inv(State()) && newEntry !in ledger && Spec.Owns(attempts, user, id)
      modifies this`attempts, this`answers, this`ledger, this`idempotency
      ensures State() == Spec.SubmitFirst(old(State()), user, id, key, now, newEntry).0
      ensures r == Spec.SubmitFirst(old(State()), user, id, key, now, newEntry).1
    {
      TouchFrame(State(), id, now);
      hide Inv, OneEntryPerAttempt, Spec.Touch, Spec.ToSnapshot, Spec.Settle, Spec.PointAward;
      var savepoint := attempts;
      var ok := ExpireAttemptIfNeeded(id, now);
      if !ok { return Err(Spec.CheckViolation); }
      var error := SettleAttempt(user, id, now, newEntry);
      if error.Some? {
        attempts := savepoint;
        return Err(error.value);
      }
      assert OneEntryPerAttempt(ledger) by { SubmitLedgers(old(State()), user, id, now, newEntry); }
      var reply := ReplyToSubmit(user, id, key, now);
      return Ok(reply);
    }

    method ReplyToSubmit(user: Uuid, id: Uuid, key: Uuid, now: int) returns (reply: Spec.Reply)
      requires id in attempts && OneEntryPerAttempt(ledger)
      modifies this`idempotency
      ensures reply == Spec.Graded(Spec.ToSnapshot(old(State()), id, now), Spec.PointAward(ledger, user, id))
      ensures idempotency == old(idempotency)[(user, key) := Spec.Stored(Spec.SubmitOf(id), reply)]
    {
      hide OneEntryPerAttempt, Spec.ToSnapshot, Spec.PointAward;
      var award := FindPointAward(user, id);
      reply := Spec.Graded(Spec.ToSnapshot(State(), id, now), award);
      idempotency := idempotency[(user, key) := Spec.Stored(Spec.SubmitOf(id), reply)];
    }

    method SettleAttempt(user: Uuid, id: Uuid, now: int, newEntry: Uuid) returns (error: Option<Spec.Error>)
      requires Spec.Owns(attempts, user, id)
      modifies this`attempts, this`answers, this`ledger
      ensures
        var g := Spec.Settle(old(State()), user, id, now, newEntry);
        && (error.Some? <==> g.Err?) && (error.Some? ==> error.value == g.error)
        && State() == if g.Ok? then g.value else old(State())
      ensures id in attempts
    {
      hide Spec.GradeAttempt;
      var status := attempts[id].status;
      if status.Expired? { return Some(Spec.AttemptExpired); }
      if status.Passed? || status.NotPassed? { return None; }
      GradeKeepsOwner(State(), user, id, now, newEntry);
      error := GradeAnswers(user, id, now, newEntry);
    }

    /** Grades the answers, records the result and, on a pass, the reward; an error leaves the tables alone. */
    method GradeAnswers(user: Uuid, id: Uuid, now: int, newEntry: Uuid) returns (error: Option<Spec.Error>)
      requires Spec.Owns(attempts, user, id)
      modifies this`attempts, this`answers, this`ledger
      ensures
        var g := Spec.GradeAttempt(old(State()), user, id, now, newEntry);
        && (error.Some? <==> g.Err?) && (error.Some? ==> error.value == g.error)
        && State() == if g.Ok? then g.value else old(State())
    {
      hide Spec.Playable, Spec.Grade, Spec.CorrectRows, Spec.AnsweredQuestions;
      var a := attempts[id];
      if !a.status.InProgress? { return Some(Spec.NotEditable); }
      if a.quest !in quests || !Spec.Playable(quests[a.quest]) { return Some(Spec.InvalidPublishedQuest); }
      var q := quests[a.quest];
      if |Spec.AnsweredQuestions(answers, id, q)| != |q.questions| { return Some(Spec.AttemptIncomplete); }
      if now < a.startedAt { return Some(Spec.CheckViolation); }
      NotEmpty(q);
      var correct := |Spec.CorrectRows(answers, id, q)|;
      answers := Spec.Grade(answers, id, q);
      var score := correct * 100 / |q.questions|;
      attempts := attempts[id := Spec.GradedRow(a, q, score, now)];
      if score >= q.passScore {
        ledger := ledger[newEntry := Spec.Entry(user, a.quest, id, q.rewardPoints, now)];
      }
      return None;
    }
  }

  lemma NothingDue(db: Spec.Db, id: Uuid, now: int)
    requires id in db.attempts && !Spec.NeedsExpiry(db.sessions, db.attempts[id], now)
    ensures Spec.Touch(db, id, now) == Some(db)
  {
    var r := Spec.ExpireWhere(db.sessions, db.attempts, Spec.TouchScope(db, id, now));
    assert r.Some? && r.value == db.attempts;
  }

  lemma GradeKeepsOwner(db: Spec.Db, user: Uuid, id: Uuid, now: int, newEntry: Uuid)
    requires Spec.Owns(db.attempts, user, id)
    ensures
      var g := Spec.GradeAttempt(db, user, id, now, newEntry);
      g.Ok? ==> Spec.Owns(g.value.attempts, user, id) && g.value.idempotency == db.idempotency
  {
    hide Spec.Grade, Spec.CorrectRows, Spec.AnsweredQuestions, Spec.Playable;
  }

  /** At the point where the award is looked up the ledger has one entry per attempt. */
  lemma SubmitLedgers(db: Spec.Db, user: Uuid, id: Uuid, now: int, newEntry: Uuid)
    requires Inv(db) && newEntry !in db.ledger
    ensures
      var touched := Spec.Touch(db, id, now);
      touched.Some? ==>
        && OneEntryPerAttempt(touched.value.ledger)
        && (Spec.Owns(touched.value.attempts, user, id) ==>
              var g := Spec.Settle(touched.value, user, id, now, newEntry);
              g.Ok? ==> OneEntryPerAttempt(g.value.ledger))
  {
    TouchKeeps(db, id, now);
    TouchFrame(db, id, now);
    hide Spec.Touch, Spec.GradeAttempt;
    var touched := Spec.Touch(db, id, now);
    if touched.Some? && Spec.Owns(touched.value.attempts, user, id) {
      GradeKeeps(touched.value, user, id, now, newEntry);
    }
  }

  lemma NotEmpty(q: Spec.Quest)
    requires Spec.Playable(q)
    ensures |q.questions| > 0
  {
    assert q.questions.Keys != {};
  }

  // ---- The recovery job ----

  datatype RecoveryResult = RecoveryResult(skipped: bool, failed: bool, attemptsExpired: nat)

  /** The rows that meet the condition of the job's statement are the rows that it changes. */
  lemma DueRowsChange(db: Spec.Db, clock: nat)
    ensures Spec.ExpireWhere(db.sessions, db.attempts, Spec.JobScope(db, clock)).Some? ==>
      var after := Spec.RunJob(db, clock).attempts;
      && after.Keys == db.attempts.Keys
      && Spec.JobScope(db, clock) == set id | id in db.attempts && after[id] != db.attempts[id]
  {}

  /** The recovery job of one process. */
  class Recovery {
    const service: Service
    var running: bool

    constructor (service: Service)
      ensures this.service == service && !running
    {
      this.service := service;
      running := false;
    }

    /** One run of the job. It is skipped while another run of this process has not finished, or when
        another process holds the lock; a failing statement changes nothing and is not reported. */
    method RunCleanup(clock: nat, locked: bool) returns (r: RecoveryResult)
      modifies this`running, service`attempts
      ensures running == old(running)
      ensures r.skipped <==> old(running) || !locked
      ensures service.State() == if r.skipped then old(service.State()) else Spec.RunJob(old(service.State()), clock)
      ensures
        var expired := Spec.ExpireWhere(old(service.sessions), old(service.attempts),
          Spec.JobScope(old(service.State()), clock));
        r.failed <==> !r.skipped && expired.None?
      ensures r.skipped || r.failed ==> r.attemptsExpired == 0
      ensures !r.skipped && !r.failed ==>
        var was := old(service.attempts);
        && service.attempts.Keys == was.Keys
        && r.attemptsExpired == |set id | id in was && service.attempts[id] != was[id]|
    {
      if running { return RecoveryResult(true, false, 0); }
      running := true;
      if !locked {
        running := false;
        return RecoveryResult(true, false, 0);
      }
      DueRowsChange(service.State(), clock);
      hide Spec.ExpireWhere;
      var due := set id | id in service.attempts && Spec.JobExpires(service.sessions, service.attempts[id], clock);
      var ok := service.ExpireRows(due);
      running := false;
      return RecoveryResult(false, !ok, if ok then |due| else 0);
    }
  }
}
