/**
 The session service and the quest service on one database: runs in which the
 sessions under the quests move by session transactions only, and in no other
 way. What is shown to be reachable here is reached by the servers' own steps.
 */
module JointRuns {
  import opened Wrappers
  import opened SessionRows
  import S = SessionSteps
  import SI = SessionInvariants
  import R = SessionRuns
  import Q = QuestSteps
  import QI = QuestInvariants
  import QR = QuestRuns

  /** Both services; the sessions the quests see are the session service's. */
  datatype State = State(sessions: S.Db, quests: Q.Db)

  datatype Action = OnSessions(session: R.Action) | OnQuests(quest: QR.Action)

  ghost predicate Inv(j: State) {
    SI.Inv(j.sessions) && QI.Inv(j.quests) && j.quests.sessions == j.sessions.sessions
  }

  /** A key another service has used is refused without a change, so such requests are left out. */
  predicate KeysApart(j: State, a: Action) {
    match a
    case OnSessions(BeginManual(user, key, _, _)) => (user, key) !in j.quests.idempotency
    case OnSessions(Finish(user, _, _, key, _)) => (user, key) !in j.quests.idempotency
    case OnSessions(Outside(_, _, foreign)) => foreign !! j.quests.idempotency.Keys
    case OnQuests(Begin(user, _, key, _, _)) => (user, key) !in j.sessions.idempotency
    case OnQuests(HandIn(user, _, key, _, _, _)) => (user, key) !in j.sessions.idempotency
    case _ => true
  }

  ghost predicate Allowed(j: State, a: Action) {
    && KeysApart(j, a)
    && match a
       case OnSessions(s) => R.FreshFor(j.sessions, s)
       case OnQuests(q) => !q.SessionsMove? && QR.Allowed(j.quests, q)
  }

  ghost function Step(j: State, a: Action): State
    requires Inv(j)
  {
    SI.FitsAreTurnEvents(j.sessions.sessions, j.sessions.events);
    match a
    case OnSessions(s) =>
      var after := R.Step(j.sessions, s);
      State(after, j.quests.(sessions := after.sessions))
    case OnQuests(q) => State(j.sessions, QR.Step(j.quests, q))
  }

  /** The step as the quests see it. */
  ghost function QuestView(j: State, a: Action): QR.Action
    requires Inv(j)
  {
    if a.OnQuests? then a.quest else QR.SessionsMove(Step(j, a).sessions.sessions)
  }

  /** A joint step is a step of both machines. */
  lemma StepProjects(j: State, a: Action)
    requires Inv(j) && Allowed(j, a)
    ensures QR.Allowed(j.quests, QuestView(j, a)) && Step(j, a).quests == QR.Step(j.quests, QuestView(j, a))
    ensures a.OnSessions? ==>
      && R.FreshFor(j.sessions, a.session) && S.DeferredAreTurnEvents(j.sessions.events)
      && Step(j, a).sessions == R.Step(j.sessions, a.session)
    ensures a.OnQuests? ==> Step(j, a).sessions == j.sessions
  {
    if a.OnSessions? { QR.SessionTransactionsAreMoves(j.quests, j.sessions, a.session); }
    hide SI.Inv, QI.Inv;
  }

  lemma QuestStepKeepsSessions(db: Q.Db, a: QR.Action)
    requires !a.SessionsMove?
    ensures QR.Step(db, a).sessions == db.sessions
  {
    hide Q.ExpireWhere, Q.FindQuest, Q.LatestActiveSession, Q.HasPassed, Q.ActiveAttempt, Q.LatestAttempt, Q.ToSnapshot,
         Q.WithAnswers, Q.Grade, Q.CorrectRows, Q.AnsweredQuestions, Q.Playable, Q.ValidChoice, Q.PointAward;
  }

  lemma StepKeeps(j: State, a: Action)
    requires Inv(j) && Allowed(j, a)
    ensures Inv(Step(j, a))
  {
    StepProjects(j, a);
    QR.StepKeeps(j.quests, QuestView(j, a));
    if a.OnSessions? { R.StepKeeps(j.sessions, a.session); } else { QuestStepKeepsSessions(j.quests, a.quest); }
    hide SI.Inv, QI.Inv, QR.Step, R.Step, QR.Allowed;
  }

  ghost predicate Runnable(j: State, actions: seq<Action>)
    requires Inv(j)
    decreases |actions|
  {
    actions == [] || (Allowed(j, actions[0]) && (StepKeeps(j, actions[0]); Runnable(Step(j, actions[0]), actions[1..])))
  }

  ghost function Run(j: State, actions: seq<Action>): State
    requires Inv(j) && Runnable(j, actions)
    decreases |actions|
  {
    if actions == [] then j else
      StepKeeps(j, actions[0]);
      Run(Step(j, actions[0]), actions[1..])
  }

  /** A joint run keeps the invariants of both services, and its quest part is a run of the quest machine. */
  lemma {:induction false} RunProjects(j: State, actions: seq<Action>) returns (view: seq<QR.Action>)
    requires Inv(j) && Runnable(j, actions)
    ensures Inv(Run(j, actions))
    ensures QR.Runnable(j.quests, view) && QR.Run(j.quests, view) == Run(j, actions).quests
    decreases |actions|
  {
    hide Inv, Step, Allowed, QR.Step, QR.Allowed, QuestView;
    if actions == [] {
      view := [];
    } else {
      StepKeeps(j, actions[0]);
      StepProjects(j, actions[0]);
      var rest := RunProjects(Step(j, actions[0]), actions[1..]);
      view := [QuestView(j, actions[0])] + rest;
      assert view[1..] == rest;
    }
  }

  const EMPTY := State(R.EMPTY, QR.EMPTY)

  lemma EmptyInv()
    ensures Inv(EMPTY)
  {
    R.EmptyInv();
    QR.EmptyInv();
  }

  /** One more step at the end of a run. */
  lemma {:induction false} OneMore(j: State, actions: seq<Action>, a: Action)
    requires Inv(j) && Runnable(j, actions) && Allowed(Run(j, actions), a)
    ensures Inv(Run(j, actions))
    ensures Runnable(j, actions + [a]) && Run(j, actions + [a]) == Step(Run(j, actions), a)
    decreases |actions|
  {
    hide Inv, Step, Allowed;
    if actions == [] {
      assert actions + [a] == [a];
      StepKeeps(j, a);
      assert Runnable(Step(j, a), []) && Run(Step(j, a), []) == Step(j, a);
    } else {
      assert (actions + [a])[1..] == actions[1..] + [a];
      StepKeeps(j, actions[0]);
      OneMore(Step(j, actions[0]), actions[1..], a);
    }
  }
}
