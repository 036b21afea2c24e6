/**
 When an attempt can get stuck. Its session's end may turn out to lie more than
 the grace period before the attempt began; at every moment from the start on, a
 condition on the state decides exactly whether that can still happen, in runs of
 both services.
 */
module QuestTiming {
  import opened Wrappers
  import opened Ordering
  import opened SessionRows
  import opened JointRuns
  import S = SessionSteps
  import SI = SessionInvariants
  import R = SessionRuns
  import T = SessionTiming
  import Q = QuestSteps
  import QI = QuestInvariants
  import QR = QuestRuns
  import QE = QuestExpiry
  import QS = QuestSettled

  /** The steps of the session service, which are the ones that can end a session, come at or after the moment. */
  ghost predicate OnwardRun(j: State, actions: seq<Action>, from: int)
    requires Inv(j) && Runnable(j, actions)
    decreases |actions|
  {
    actions == [] ||
    ((actions[0].OnSessions? ==> T.Onward(j.sessions, actions[0].session, from)) &&
     (StepKeeps(j, actions[0]); OnwardRun(Step(j, actions[0]), actions[1..], from)))
  }

  ghost predicate TimelyAttempt(j: State, id: Uuid, from: int) {
    id in j.quests.attempts
      && T.Timely(j.sessions, j.quests.attempts[id].session, j.quests.attempts[id].startedAt, from)
  }

  /** Some run that goes on from the moment gets it stuck. */
  ghost predicate CanGetStuck(j: State, id: Uuid, from: int)
    requires Inv(j)
  {
    exists more :: Runnable(j, more) && OnwardRun(j, more, from) && QE.StartedTooLate(Run(j, more).quests, id)
  }

  lemma {:induction false} TimelyRun(j: State, actions: seq<Action>, sid: Uuid, at: int, from: int)
    requires Inv(j) && Runnable(j, actions) && OnwardRun(j, actions, from) && at <= from
    requires T.Timely(j.sessions, sid, at, from)
    ensures Inv(Run(j, actions)) && T.Timely(Run(j, actions).sessions, sid, at, from)
    decreases |actions|
  {
    hide SI.Inv, QI.Inv, Step, Allowed, T.Onward, T.Timely, QR.Allowed, QR.Step, R.Step, R.FreshFor;
    if actions != [] {
      StepKeeps(j, actions[0]);
      StepProjects(j, actions[0]);
      if actions[0].OnSessions? {
        T.StepKeepsTimely(j.sessions, actions[0].session, sid, at, from);
      }
      TimelyRun(Step(j, actions[0]), actions[1..], sid, at, from);
    }
  }

  /** An attempt keeps its identity in a joint run. */
  lemma AttemptKept(j: State, actions: seq<Action>, id: Uuid)
    requires Inv(j) && Runnable(j, actions) && id in j.quests.attempts
    ensures
      var after := Run(j, actions).quests;
      && id in after.attempts && after.attempts[id].session == j.quests.attempts[id].session
      && after.attempts[id].startedAt == j.quests.attempts[id].startedAt
  {
    var view := RunProjects(j, actions);
    QS.RunSettles(j.quests, view);
    assert QS.RowEvolves(j.quests.attempts[id], QR.Run(j.quests, view).attempts[id]);
  }

  /** A session run, as a joint run with the quests standing by. */
  function Lifted(actions: seq<R.Action>): (lifted: seq<Action>)
    ensures |lifted| == |actions|
  {
    if actions == [] then [] else [OnSessions(actions[0])] + Lifted(actions[1..])
  }

  predicate Keyless(a: R.Action) { a.Deliver? || a.Recover? || (a.Outside? && a.foreignKeys == {}) }

  lemma {:induction false} LiftedRun(j: State, actions: seq<R.Action>, from: int)
    requires Inv(j) && R.Runnable(j.sessions, actions) && T.OnwardRun(j.sessions, actions, from)
    requires forall i | 0 <= i < |actions| :: Keyless(actions[i])
    ensures Runnable(j, Lifted(actions)) && OnwardRun(j, Lifted(actions), from)
    ensures Run(j, Lifted(actions)).sessions == R.Run(j.sessions, actions)
    ensures Run(j, Lifted(actions)).quests == j.quests.(sessions := R.Run(j.sessions, actions).sessions)
    decreases |actions|
  {
    if actions != [] {
      hide SI.Inv, QI.Inv, R.Step, R.FreshFor, T.Onward, QR.Allowed;
      var a := OnSessions(actions[0]);
      assert Allowed(j, a) && Lifted(actions)[0] == a && Lifted(actions)[1..] == Lifted(actions[1..]);
      StepKeeps(j, a);
      StepProjects(j, a);
      R.StepKeeps(j.sessions, actions[0]);
      forall i | 0 <= i < |actions[1..]| ensures Keyless(actions[1..][i]) { assert actions[1..][i] == actions[i + 1]; }
      LiftedRun(Step(j, a), actions[1..], from);
    }
  }

  /** The exact condition, at any moment from the start on: an attempt in progress can still get stuck if and
      only if its session is not timely for the attempt's start. */
  lemma StuckIffUntimely(j: State, id: Uuid, from: int)
    requires Inv(j) && id in j.quests.attempts && j.quests.attempts[id].status.InProgress?
    requires j.quests.attempts[id].startedAt <= from
    ensures CanGetStuck(j, id, from) <==> !TimelyAttempt(j, id, from)
  {
    if TimelyAttempt(j, id, from) {
      forall more | Runnable(j, more) && OnwardRun(j, more, from) ensures !QE.StartedTooLate(Run(j, more).quests, id) {
        TimelyNeverStuck(j, id, more, from);
      }
    } else {
      UntimelyGetsStuck(j, id, from);
    }
  }

  lemma TimelyNeverStuck(j: State, id: Uuid, more: seq<Action>, from: int)
    requires Inv(j) && TimelyAttempt(j, id, from) && j.quests.attempts[id].startedAt <= from
    requires Runnable(j, more) && OnwardRun(j, more, from)
    ensures !QE.StartedTooLate(Run(j, more).quests, id)
  {
    var sid, at := j.quests.attempts[id].session, j.quests.attempts[id].startedAt;
    AttemptKept(j, more, id);
    TimelyRun(j, more, sid, at, from);
    var end := Run(j, more);
    AttemptHasSession(end, id);
    TimelyNotTooEarly(end.sessions, sid, at, from);
    hide *;
    NotTooLate(end.quests, id);
  }

  lemma NotTooLate(db: Q.Db, id: Uuid)
    ensures id in db.attempts && db.attempts[id].session in db.sessions ==>
      (QE.StartedTooLate(db, id) <==>
         && db.attempts[id].status.InProgress?
         && T.EndedTooEarly(db.sessions[db.attempts[id].session], db.attempts[id].startedAt))
  {}

  lemma TimelyNotTooEarly(db: S.Db, sid: Uuid, at: int, from: int)
    requires SI.Inv(db) && T.Timely(db, sid, at, from)
    ensures sid in db.sessions && !T.EndedTooEarly(db.sessions[sid], at)
  {
    assert RowOk(db.sessions[sid]);
  }

  lemma UntimelyGetsStuck(j: State, id: Uuid, from: int)
    requires Inv(j) && id in j.quests.attempts && j.quests.attempts[id].status.InProgress?
    requires !TimelyAttempt(j, id, from)
    requires j.quests.attempts[id].startedAt <= from
    ensures CanGetStuck(j, id, from)
  {
    var sid, at := j.quests.attempts[id].session, j.quests.attempts[id].startedAt;
    AttemptHasSession(j, id);
    assert !T.Timely(j.sessions, sid, at, from);
    hide *;
    T.UntimelyCanEndTooEarly(j.sessions, sid, at, from);
    var actions :| T.EndsTooEarlyAfter(j.sessions, actions, sid, at, from);
    LiftsToStuck(j, id, actions, from);
  }

  lemma LiftsToStuck(j: State, id: Uuid, actions: seq<R.Action>, from: int)
    requires Inv(j) && id in j.quests.attempts && j.quests.attempts[id].status.InProgress?
    requires T.EndsTooEarlyAfter(j.sessions, actions, j.quests.attempts[id].session, j.quests.attempts[id].startedAt,
      from)
    ensures CanGetStuck(j, id, from)
  {
    hide Inv, Runnable, Run, OnwardRun, R.Runnable, R.Run, T.OnwardRun, T.EndedTooEarly, QE.StartedTooLate;
    LiftedRun(j, actions, from);
    NotTooLate(Run(j, Lifted(actions)).quests, id);
  }

  lemma AttemptHasSession(j: State, id: Uuid)
    requires Inv(j) && id in j.quests.attempts
    ensures SI.Inv(j.sessions) && j.quests.sessions == j.sessions.sessions
    ensures j.quests.attempts[id].session in j.sessions.sessions
  {
    assert QI.RefersOk(j.quests, j.quests.attempts[id]);
  }

  // ---- Both differences do occur: two runs of the servers from the empty database ----

  const QUEST := Q.Quest("q", true, 100, 10, true, map[1 := map[1 := true, 2 := false]])
  const DEVICE := S.Device(1, false, 10_000_000, 0, None)
  const PROMPT := S.EventCall(
    S.DeviceAuth(7, 1),
    S.Dto(1, None, Some(UserPromptSubmit), "k", Some("t"), S.Timestamp("", 0), Context(None, None), None), 0, 0, 1, 1)

  /** A device is linked, a turn starts, a quest is published; the quest is started a quarter of an hour
      later without a sign of life in between, and only then the recovery job looks. */
  function LateRecovery(): seq<Action> {
    [OnSessions(R.Outside(map[7 := DEVICE], {}, {})), OnSessions(R.Deliver(PROMPT)),
      OnQuests(QR.QuestsMove(map[1 := QUEST])),
     OnQuests(QR.Begin(1, "q", 1, 1_000_000_000, 1)), OnSessions(R.Recover(1_000_000))]
  }

  /** A manual session starts, a quest is published and started, and the session ends at once. */
  function EndedAtOnce(): seq<Action> {
    [OnSessions(R.BeginManual(1, 1, 0, 1)), OnQuests(QR.QuestsMove(map[1 := QUEST])),
     OnQuests(QR.Begin(1, "q", 2, 0, 1)), OnSessions(R.Finish(1, 1, EndCompleted, 3, 0))]
  }

  lemma QuestFound(quests: map<Uuid, Q.Quest>)
    requires quests == map[1 := QUEST]
    ensures Q.FindQuest(quests, "q") == Some(1)
  {
    var o: Q.Options := map[1 := true, 2 := false];
    assert Q.CorrectOptions(o) == {1};
    assert |o| == 2 by { assert o.Keys == {1, 2}; }
    assert Q.WellPosed(o);
    assert 1 in QUEST.questions;
    assert Q.Playable(QUEST);
  }

  lemma NoAttempts(db: Q.Db, user: Uuid, quest: Uuid, now: int)
    requires db.attempts == map[]
    ensures Q.ExpireWhere(db.sessions, db.attempts, Q.BatchScope(db, user, quest, now)) == Some(map[])
    ensures Q.ActiveAttempt(map[], user, quest).None? && Q.LatestAttempt(map[], user, quest).None?
    ensures !Q.HasPassed(map[], user, quest)
  {
    assert Q.BatchScope(db, user, quest, now) == {};
  }

  lemma FirstAttempt(db: Q.Db, key: Uuid, clock: nat)
    requires 1 in db.sessions && db.sessions.Keys == {1} && db.sessions[1].user == 1 && Active(db.sessions[1])
    requires db.quests == map[1 := QUEST] && db.attempts == map[] && db.idempotency == map[]
    ensures
      var after := Q.Start(db, 1, "q", key, clock, 1).0;
      && after == db.(attempts := after.attempts, idempotency := after.idempotency)
      && after.attempts == map[1 := Q.Attempt(1, 1, 1, Q.InProgress, clock / 1000, None, None, None, None, None)]
      && after.idempotency.Keys == {(1, key)}
  {
    assert Q.IsLatestActive(db.sessions, 1, 1);
    assert Q.LatestActiveSession(db.sessions, 1) == Some(1);
    QuestFound(db.quests);
    NoAttempts(db, 1, 1, clock / 1000);
    hide Q.LatestActiveSession, Q.FindQuest, Q.ActiveAttempt, Q.LatestAttempt, Q.HasPassed, Q.ExpireWhere, Q.BatchScope,
         Q.ToSnapshot;
  }

  lemma PromptStartsTurn(db: S.Db)
    requires db == S.Db(map[], map[], map[7 := DEVICE], {}, map[])
    ensures S.DeferredAreTurnEvents(db.events)
    ensures
      var after := S.ProcessEvent(db, PROMPT).0;
      && after.sessions == map[1 := NewHook(1, "k", "t", 0, Context(None, None))]
      && after.idempotency == map[] && after.deletedUsers == {}
  {
    assert S.TurnEvents(db.events, 1, "t") == {};
    assert S.FindStored(db.events, 7, 1).None?;
    assert SI.Acceptable(db, PROMPT);
    SI.ProcessEventCases(db, PROMPT);
    assert S.DeferredEvents(db.events, 1, "t") == {};
    EmptyElements(S.ReplayList(db.events, 1, "t"));
    hide S.ProcessEvent, S.FindStored, S.TurnEvents, SI.Acceptable, S.ReplayList;
  }

  /** One more step of a run from the empty database. */
  lemma Onwards(actions: seq<Action>, j: State, a: Action)
    requires Inv(EMPTY) && Runnable(EMPTY, actions) && Run(EMPTY, actions) == j && Allowed(j, a)
    ensures Inv(j) && Inv(Step(j, a))
    ensures Runnable(EMPTY, actions + [a]) && Run(EMPTY, actions + [a]) == Step(j, a)
  {
    hide Inv, Step, Allowed;
    OneMore(EMPTY, actions, a);
    JointRuns.StepKeeps(j, a);
  }

  lemma Publishes(j: State)
    requires Inv(j) && j.quests.quests == map[]
    ensures
      var publish := OnQuests(QR.QuestsMove(map[1 := QUEST]));
      Allowed(j, publish) && Step(j, publish) == State(j.sessions, j.quests.(quests := map[1 := QUEST]))
  {}

  lemma NothingRun()
    ensures Inv(EMPTY) && Runnable(EMPTY, []) && Run(EMPTY, []) == EMPTY
  {
    EmptyInv();
    hide Inv;
  }

  lemma Links()
    requires Inv(EMPTY)
    ensures
      var link := LateRecovery()[0];
      && Allowed(EMPTY, link)
      && Step(EMPTY, link) == State(S.Db(map[], map[], map[7 := DEVICE], {}, map[]), QR.EMPTY)
  {
    hide Inv;
  }

  lemma Prompts(j: State)
    requires Inv(j) && j == State(S.Db(map[], map[], map[7 := DEVICE], {}, map[]), QR.EMPTY)
    ensures
      var prompt := LateRecovery()[1];
      var after := Step(j, prompt);
      && Allowed(j, prompt)
      && after.sessions.sessions == map[1 := NewHook(1, "k", "t", 0, Context(None, None))]
      && after.sessions.idempotency == map[]
      && after.quests == QR.EMPTY.(sessions := after.sessions.sessions)
  {
    PromptStartsTurn(j.sessions);
    hide Inv, S.ProcessEvent;
  }

  /** What the first three steps of the run leave. */
  ghost predicate StartedTurn(actions: seq<Action>, j: State) {
    && Inv(EMPTY) && Runnable(EMPTY, actions) && Run(EMPTY, actions) == j && Inv(j)
    && actions == LateRecovery()[..3]
    && j.sessions.sessions == map[1 := NewHook(1, "k", "t", 0, Context(None, None))]
    && j.sessions.idempotency == map[]
    && j.quests == QR.EMPTY.(sessions := j.sessions.sessions, quests := map[1 := QUEST])
  }

  lemma TurnHasStarted()
    ensures exists actions, j :: StartedTurn(actions, j)
  {
    hide Inv, Step, Allowed, Runnable, Run;
    var link, prompt, publish := LateRecovery()[0], LateRecovery()[1], LateRecovery()[2];
    assert [] + [link] == [link] && [link] + [prompt] == [link, prompt];
    NothingRun();
    Links();
    Onwards([], EMPTY, link);
    var j1 := Step(EMPTY, link);
    Prompts(j1);
    Onwards([link], j1, prompt);
    var j2 := Step(j1, prompt);
    Publishes(j2);
    Onwards([link, prompt], j2, publish);
    var actions := [link, prompt, publish];
    assert [link, prompt] + [publish] == actions;
    assert StartedTurn(actions, Step(j2, publish));
  }

  /** One user with one session, who has started the published quest. */
  ghost predicate Begun(j: State, at: int) {
    && j.quests.sessions == j.sessions.sessions && j.sessions.sessions.Keys == {1}
    && j.quests.attempts == map[1 := Q.Attempt(1, 1, 1, Q.InProgress, at, None, None, None, None, None)]
  }

  lemma Begins(j: State, key: Uuid, clock: nat)
    requires Inv(j) && j.sessions.sessions.Keys == {1} && j.sessions.sessions[1].user == 1
    requires Active(j.sessions.sessions[1])
    requires j.quests == QR.EMPTY.(sessions := j.sessions.sessions, quests := map[1 := QUEST])
    requires (1, key) !in j.sessions.idempotency
    ensures
      var begin := OnQuests(QR.Begin(1, "q", key, clock, 1));
      && Allowed(j, begin) && Step(j, begin).sessions == j.sessions && Begun(Step(j, begin), clock / 1000)
      && Step(j, begin).quests.idempotency.Keys == {(1, key)}
  {
    hide Inv, Q.Start, Active;
    FirstAttempt(j.quests, key, clock);
  }

  lemma TimesOut(db: S.Db, now: int)
    requires db.sessions == map[1 := NewHook(1, "k", "t", 0, Context(None, None))] && now >= HEARTBEAT_TIMEOUT_MS
    ensures S.Cleanup(db, now).sessions == map[1 := TimeOutHeartbeat(NewHook(1, "k", "t", 0, Context(None, None)))]
  {
    hide S.IgnoreOrphans;
    var after := S.Cleanup(db, now).sessions;
    assert after.Keys == db.sessions.Keys && after[1] == TimeOutHeartbeat(db.sessions[1]);
  }

  lemma RecoversLate(j: State)
    requires Inv(j) && Begun(j, 1_000_000) && j.sessions.sessions[1] == NewHook(1, "k", "t", 0, Context(None, None))
    ensures
      var recover := OnSessions(R.Recover(1_000_000));
      && Allowed(j, recover)
      && QE.StartedTooLate(Step(j, recover).quests, 1)
      && Step(j, recover).sessions.sessions.Keys == {1}
      && Step(j, recover).sessions.sessions[1].reason == Some(HeartbeatTimeout)
  {
    hide Inv, S.Cleanup;
    assert j.sessions.sessions == map[1 := NewHook(1, "k", "t", 0, Context(None, None))];
    TimesOut(j.sessions, 1_000_000);
  }

  lemma EndsAtOnce(j: State)
    requires Inv(j) && Begun(j, 0) && j.sessions.sessions[1] == NewManual(1, 0)
    requires (1, 3) !in j.sessions.idempotency && (1, 3) !in j.quests.idempotency
    ensures
      var finish := OnSessions(R.Finish(1, 1, EndCompleted, 3, 0));
      && Allowed(j, finish) && Begun(Step(j, finish), 0)
      && Step(j, finish).sessions.sessions[1] == EndManually(NewManual(1, 0), EndCompleted, 0)
  {
    hide SI.Inv, QI.Inv;
  }

  /** An attempt does get stuck: the recovery job ends its turn, by heartbeat timeout, as of two minutes
      after the prompt, long before the attempt began. */
  lemma StuckIsReachable()
    ensures Inv(EMPTY) && Runnable(EMPTY, LateRecovery())
    ensures
      var end := Run(EMPTY, LateRecovery());
      && QE.StartedTooLate(end.quests, 1)
      && end.sessions.sessions.Keys == {1} && end.sessions.sessions[1].reason == Some(HeartbeatTimeout)
  {
    hide Inv, Step, Allowed, Runnable, Run, Begun, QE.StartedTooLate;
    TurnHasStarted();
    var actions, j :| StartedTurn(actions, j);
    var begin, recover := LateRecovery()[3], LateRecovery()[4];
    Begins(j, 1, 1_000_000_000);
    Onwards(actions, j, begin);
    RecoversLate(Step(j, begin));
    Onwards(actions + [begin], Step(j, begin), recover);
    assert actions + [begin] + [recover] == LateRecovery();
  }

  lemma StartsManually()
    requires Inv(EMPTY)
    ensures
      var manual := EndedAtOnce()[0];
      var after := Step(EMPTY, manual);
      && Allowed(EMPTY, manual)
      && after.sessions.sessions == map[1 := NewManual(1, 0)] && after.sessions.idempotency.Keys == {(1, 1)}
      && after.quests == QR.EMPTY.(sessions := after.sessions.sessions)
  {
    assert S.FindActiveManual(map[], 1).None?;
    hide Inv, S.FindActiveManual;
  }

  lemma ManualHasStarted() returns (j: State)
    ensures Inv(EMPTY) && Runnable(EMPTY, EndedAtOnce()[..2]) && Run(EMPTY, EndedAtOnce()[..2]) == j && Inv(j)
    ensures j.sessions.sessions == map[1 := NewManual(1, 0)] && j.sessions.idempotency.Keys == {(1, 1)}
    ensures j.quests == QR.EMPTY.(sessions := j.sessions.sessions, quests := map[1 := QUEST])
  {
    hide Inv, Step, Allowed, Runnable, Run;
    var manual, publish := EndedAtOnce()[0], EndedAtOnce()[1];
    assert [] + [manual] == [manual];
    NothingRun();
    StartsManually();
    Onwards([], EMPTY, manual);
    var j1 := Step(EMPTY, manual);
    Publishes(j1);
    Onwards([manual], j1, publish);
    j := Step(j1, publish);
    assert [manual] + [publish] == EndedAtOnce()[..2];
  }

  /** And the background job is earlier: in this state, a microsecond after the deadline, it expires the
      attempt that the service itself still leaves in progress. */
  lemma JobIsEarlier()
    ensures Inv(EMPTY) && Runnable(EMPTY, EndedAtOnce())
    ensures
      var db := Run(EMPTY, EndedAtOnce()).quests;
      && 1 in db.attempts && db.attempts[1].status.InProgress?
      && Q.Touch(db, 1, 300_000_001 / 1000) == Some(db)
      && 1 in Q.RunJob(db, 300_000_001).attempts && Q.RunJob(db, 300_000_001).attempts[1].status.Expired?
  {
    hide Inv, Step, Allowed, Runnable, Run, Q.Touch, Q.RunJob;
    var j := ManualHasStarted();
    var begin, finish := EndedAtOnce()[2], EndedAtOnce()[3];
    Begins(j, 2, 0);
    Onwards(EndedAtOnce()[..2], j, begin);
    EndsAtOnce(Step(j, begin));
    Onwards(EndedAtOnce()[..2] + [begin], Step(j, begin), finish);
    assert EndedAtOnce()[..2] + [begin] + [finish] == EndedAtOnce();
    OnlyJobSees(Step(Step(j, begin), finish).quests);
  }

  lemma OnlyJobSees(db: Q.Db)
    requires 1 in db.sessions && db.sessions[1] == EndManually(NewManual(1, 0), EndCompleted, 0)
    requires db.attempts == map[1 := Q.Attempt(1, 1, 1, Q.InProgress, 0, None, None, None, None, None)]
    ensures Q.Touch(db, 1, 300_000_001 / 1000) == Some(db)
    ensures 1 in Q.RunJob(db, 300_000_001).attempts && Q.RunJob(db, 300_000_001).attempts[1].status.Expired?
  {
    var kept := Q.ExpireWhere(db.sessions, db.attempts, Q.TouchScope(db, 1, 300_000));
    assert kept.Some? && kept.value == db.attempts;
    assert Q.JobScope(db, 300_000_001) == {1};
  }
}
