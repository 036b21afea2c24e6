/**
 Whole runs of the session service: any interleaving of event deliveries,
 manual starts and ends, recovery jobs and outside changes to devices and users.
 Clocks are arbitrary: nothing here needs them to agree or to move forward.
 */
module SessionRuns {
  import opened Wrappers
  import opened SessionRows
  import opened SessionSteps
  import opened SessionInvariants

  datatype Action =
    | Deliver(call: EventCall)
    | BeginManual(user: Uuid, key: Uuid, now: int, newId: Uuid)
    | Finish(user: Uuid, session: Uuid, outcome: Outcome, key: Uuid, now: int)
    | Recover(now: int)
    /** Devices linked, rotated or revoked, users deleted, keys used by other services. */
    | Outside(devices: map<Uuid, Device>, deletedUsers: set<Uuid>, foreignKeys: set<(Uuid, Uuid)>)

  const EMPTY := Db(map[], map[], map[], {}, map[])

  /** Random uuids are new. */
  predicate FreshFor(db: Db, a: Action) {
    match a
    case Deliver(c) => c.newSession !in db.sessions && c.newEvent !in db.events
    case BeginManual(_, _, _, newId) => newId !in db.sessions
    case _ => true
  }

  function ChangeOutside(
    db: Db, devices: map<Uuid, Device>, deletedUsers: set<Uuid>, foreignKeys: set<(Uuid, Uuid)>): Db {
    var foreign: IdempotencyKeys := map k | k in foreignKeys :: Stored(Foreign(0), OtherResponse);
    db.(devices := devices, deletedUsers := deletedUsers, idempotency := foreign + db.idempotency)
  }

  ghost function Step(db: Db, a: Action): Db
    requires DeferredAreTurnEvents(db.events)
  {
    match a
    case Deliver(c) => ProcessEvent(db, c).0
    case BeginManual(user, key, now, newId) => StartManual(db, user, key, now, newId).0
    case Finish(user, session, outcome, key, now) => EndSession(db, user, session, outcome, key, now).0
    case Recover(now) => Cleanup(db, now)
    case Outside(devices, deletedUsers, foreignKeys) => ChangeOutside(db, devices, deletedUsers, foreignKeys)
  }

  /** One transaction keeps every invariant and moves every session along its life cycle. */
  lemma StepKeeps(db: Db, a: Action)
    requires Inv(db) && FreshFor(db, a)
    ensures DeferredAreTurnEvents(db.events)
    ensures Inv(Step(db, a)) && SessionsEvolve(db.sessions, Step(db, a).sessions)
  {
    FitsAreTurnEvents(db.sessions, db.events);
    match a
    case Deliver(c) => ProcessEventKeeps(db, c);
    case BeginManual(user, key, now, newId) => StartManualKeeps(db, user, key, now, newId);
    case Finish(user, session, outcome, key, now) => EndSessionKeeps(db, user, session, outcome, key, now);
    case Recover(now) => CleanupKeeps(db, now);
    case Outside(devices, deletedUsers, foreignKeys) =>
      SameTablesKeep(db, ChangeOutside(db, devices, deletedUsers, foreignKeys));
  }

  /** A run whose every random id is new when it is drawn. */
  ghost predicate Runnable(db: Db, actions: seq<Action>)
    requires Inv(db)
    decreases |actions|
  {
    actions == [] ||
    (FreshFor(db, actions[0]) &&
     (StepKeeps(db, actions[0]); Runnable(Step(db, actions[0]), actions[1..])))
  }

  ghost function Run(db: Db, actions: seq<Action>): Db
    requires Inv(db) && Runnable(db, actions)
    decreases |actions|
  {
    if actions == [] then db else
      StepKeeps(db, actions[0]);
      Run(Step(db, actions[0]), actions[1..])
  }

  lemma {:induction false} RunKeeps(db: Db, actions: seq<Action>)
    requires Inv(db) && Runnable(db, actions)
    ensures Inv(Run(db, actions)) && SessionsEvolve(db.sessions, Run(db, actions).sessions)
    decreases |actions|
  {
    if actions != [] {
      StepKeeps(db, actions[0]);
      var next := Step(db, actions[0]);
      RunKeeps(next, actions[1..]);
      forall id | id in db.sessions ensures Evolves(db.sessions[id], Run(db, actions).sessions[id]) {
        EvolvesTransitive(db.sessions[id], next.sessions[id], Run(db, actions).sessions[id]);
      }
    }
  }

  lemma EmptyInv()
    ensures Inv(EMPTY)
  {
    forall user, turn ensures |TurnEvents(EMPTY.events, user, turn)| <= MAX_EVENTS_PER_TURN {
      assert TurnEvents(EMPTY.events, user, turn) == {};
    }
  }

  ghost predicate Reachable(db: Db) {
    Inv(EMPTY) && exists actions :: Runnable(EMPTY, actions) && Run(EMPTY, actions) == db
  }

  lemma ReachableInv()
    ensures forall db | Reachable(db) :: Inv(db)
  {
    hide Inv;
    forall db | Reachable(db) ensures Inv(db) {
      var actions :| Runnable(EMPTY, actions) && Run(EMPTY, actions) == db;
      RunKeeps(EMPTY, actions);
    }
  }

  // ---- The promises, for every reachable state ----

  /** Every row constraint and unique index of ai_sessions holds without the database enforcing it. */
  lemma SessionConstraintsNeverHit(db: Db)
    requires Reachable(db)
    ensures forall id | id in db.sessions ::
      var s := db.sessions[id];
      && s.lastActivityAt >= s.startedAt && (s.endedAt.Some? ==> s.endedAt.value >= s.startedAt) && s.version > 0
      && (Active(s) ==> s.endedAt.None? && s.reason.None?)
      && (!Active(s) ==> s.endedAt.Some? && s.reason.Some? && s.status == ReasonStatus(s.reason.value))
      && (s.origin.Hook? ==> s.turnKey.Some? && s.sessionKey.Some?)
    ensures forall a, b | a in db.sessions && b in db.sessions && a != b
      && db.sessions[a].user == db.sessions[b].user ::
      var s, t := db.sessions[a], db.sessions[b];
      && !(s.turnKey.Some? && s.turnKey == t.turnKey)
      && (Active(s) && Active(t) ==>
            && !(s.origin.Manual? && t.origin.Manual?)
            && !(s.sessionKey.Some? && s.sessionKey == t.sessionKey))
  {
    ReachableInv();
    forall a, b | a in db.sessions && b in db.sessions && a != b && db.sessions[a].user == db.sessions[b].user
      ensures
        var s, t := db.sessions[a], db.sessions[b];
        && !(s.turnKey.Some? && s.turnKey == t.turnKey)
        && (Active(s) && Active(t) ==>
              && !(s.origin.Manual? && t.origin.Manual?)
              && !(s.sessionKey.Some? && s.sessionKey == t.sessionKey))
    {
      var s, t := db.sessions[a], db.sessions[b];
      if s.turnKey.Some? { assert OwnsTurn(s, s.user, s.turnKey.value); }
      if s.sessionKey.Some? && Active(s) { assert ActiveWithKey(s, s.user, s.sessionKey.value); }
      if s.origin.Manual? && Active(s) { assert ActiveManual(s, s.user); }
    }
  }

  /** No event stays DEFERRED once its turn has a session. */
  lemma DeferredNeverStranded(db: Db, id: Uuid, sid: Uuid)
    requires Reachable(db) && id in db.events && sid in db.sessions
    requires db.events[id].request.turnKey.Some?
    requires OwnsTurn(db.sessions[sid], db.events[id].user, db.events[id].request.turnKey.value)
    ensures !db.events[id].result.Deferred?
  {
    ReachableInv();
  }

  /** A device uses a sequence number and an event id once; a turn stores at most 500 events. */
  lemma EventKeysNeverReused(db: Db)
    requires Reachable(db)
    ensures forall a, b | a in db.events && b in db.events && a != b && db.events[a].device == db.events[b].device ::
      && db.events[a].request.eventId != db.events[b].request.eventId
      && (db.events[a].request.sequence.Some? ==> db.events[a].request.sequence != db.events[b].request.sequence)
    ensures forall user, turn :: |TurnEvents(db.events, user, turn)| <= 500
  {
    ReachableInv();
  }

  /** A session that a Stop ended has exactly one applied Stop, any other session has none; and its
      version counts its insertion, its applied events and its other ending. */
  lemma VersionAndStopAudit(db: Db, sid: Uuid)
    requires Reachable(db) && sid in db.sessions
    ensures
      var s := db.sessions[sid];
      && |Stops(db.events, sid)| == (if EndedByStop(s) then 1 else 0)
      && s.version == 1 + |Writes(db.events, sid, s.origin)| + OtherEndings(s)
  {
    ReachableInv();
    assert Audited(db.sessions[sid], sid, db.events, 0);
  }

  /** COMPLETED and FAILED are absorbing, ABANDONED leaves only through a late Stop after a heartbeat
      timeout, and neither an end time nor a turn key ever changes once written. */
  lemma LifeCycle(db: Db, more: seq<Action>, sid: Uuid)
    requires Reachable(db) && sid in db.sessions
    ensures Inv(db)
    ensures Runnable(db, more) ==> sid in Run(db, more).sessions
    ensures Runnable(db, more) ==>
      (var s, t := db.sessions[sid], Run(db, more).sessions[sid];
       && (s.status.Completed? || s.status.Failed? ==> t == s)
       && (s.status.Abandoned? && t != s ==>
             && s.reason == Some(HeartbeatTimeout)
             && t.status.Completed? && t.reason == Some(RecoveredLateStop) && t.version == s.version + 1)
       && (s.endedAt.Some? ==> t.endedAt == s.endedAt)
       && (s.turnKey.Some? ==> t.turnKey == s.turnKey && t.sessionKey == s.sessionKey)
       && t.version >= s.version && (t.version == s.version ==> t == s))
  {
    ReachableInv();
    if Runnable(db, more) { RunKeeps(db, more); }
  }
}
