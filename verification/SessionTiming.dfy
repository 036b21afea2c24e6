/**
 How far in the past a session can turn out to have ended. A session that ends is
 mostly ended at the moment of the step that ends it; only a timeout noticed late
 and a Stop that waited for its turn date the end back.
 */
module SessionTiming {
  import opened Wrappers
  import opened Ordering
  import opened SessionRows
  import opened SessionSteps
  import opened SessionInvariants
  import opened SessionRuns

  const GRACE_MS := 300_000

  /** The session ended so early that even the grace period was over at the time. */
  predicate EndedTooEarly(s: Session, at: int) { s.endedAt.Some? && s.endedAt.value + GRACE_MS < at }

  /** A deferred Stop that would end an adopted session too early for the time: received too early for it,
      still to be replayed from now on, and of a turn that can still start. */
  predicate StopWaits(events: Events, id: Uuid, user: Uuid, at: int, from: int) {
    && id in events && events[id].user == user && events[id].result.Deferred?
    && events[id].request.event == Some(Stop) && events[id].request.turnKey.Some?
    && events[id].receivedAt + GRACE_MS < at && from - events[id].receivedAt <= DEFERRED_EVENT_TTL_MS
    && |TurnEvents(events, user, events[id].request.turnKey.value)| < MAX_EVENTS_PER_TURN
  }

  /** No such Stop waits; of a deleted account no event is accepted any more. */
  ghost predicate NoStopWaits(db: Db, user: Uuid, at: int, from: int) {
    user in db.deletedUsers || forall id | id in db.events :: !StopWaits(db.events, id, user, at, from)
  }

  /** A session that runs a turn, or has ended: it was active, or is over, late enough. */
  predicate TurnTimely(s: Session, at: int) {
    if Active(s) then s.turnKey.Some? && at <= s.lastActivityAt + HEARTBEAT_TIMEOUT_MS + GRACE_MS
    else s.endedAt.Some? && !EndedTooEarly(s, at)
  }

  /** The condition on a state, for a time and for clocks from a later moment on: the last sign of life of a
      turn came at most seven minutes before the time; a manual session began at most twelve hours and five
      minutes before it and, if more than five minutes before it, no early Stop waits that an adoption from
      that moment on would replay. */
  ghost predicate Timely(db: Db, sid: Uuid, at: int, from: int) {
    && sid in db.sessions
    && var s := db.sessions[sid];
       if Active(s) && s.turnKey.None?
       then
         && at <= s.startedAt + MANUAL_TIMEOUT_MS + GRACE_MS
         && (at <= s.startedAt + GRACE_MS || NoStopWaits(db, s.user, at, from))
       else TurnTimely(s, at)
  }

  /** A step at or after the moment; a deleted account does not come back. */
  predicate Onward(db: Db, a: Action, from: int) {
    match a
    case Deliver(c) => from <= c.now
    case BeginManual(_, _, now, _) => from <= now
    case Finish(_, _, _, _, now) => from <= now
    case Recover(now) => from <= now
    case Outside(_, deleted, _) => db.deletedUsers <= deleted
  }

  // ---- One row ----

  lemma WritesKeepTimely(s: Session, at: int, now: int, received: int, o: Outcome, e: EventName, ctx: Context)
    requires RowOk(s) && TurnTimely(s, at) && at <= now
    ensures Active(s) ==>
      && TurnTimely(EndManually(s, o, now), at) && TurnTimely(Supersede(s, now), at)
      && TurnTimely(TimeOutHeartbeat(s), at)
      && ((e.Stop? ==> at <= Max(received, s.startedAt) + GRACE_MS) ==>
           TurnTimely(ApplyToActive(s, e, received, ctx), at))
    ensures Recoverable(s) ==> TurnTimely(RecoverLateStop(s, ctx), at)
  {}

  lemma ManualKeepsTimely(s: Session, at: int, now: int, o: Outcome, key: Key, turn: Key, ctx: Context)
    requires RowOk(s) && Active(s) && s.turnKey.None? && at <= now && at <= s.startedAt + MANUAL_TIMEOUT_MS + GRACE_MS
    ensures TurnTimely(EndManually(s, o, now), at) && TurnTimely(TimeOutManual(s), at)
    ensures TurnTimely(Adopt(s, key, turn, now, ctx), at) && Active(Adopt(s, key, turn, now, ctx))
  {}

  // ---- The events: what waits later waited before, or came in time ----

  ghost predicate EventsAge(before: Events, after: Events, from: int) {
    && (forall id | id in after && after[id].result.Deferred? ::
          || after[id].receivedAt >= from
          || (id in before && before[id].result.Deferred? && before[id].user == after[id].user
              && before[id].request == after[id].request && before[id].receivedAt == after[id].receivedAt))
    && (forall id | id in before ::
         id in after && after[id].user == before[id].user && after[id].request == before[id].request)
  }

  lemma StopsOnlyLeave(before: Events, after: Events, id: Uuid, user: Uuid, at: int, from: int)
    requires EventsAge(before, after, from) && StopWaits(after, id, user, at, from) && at <= from
    ensures StopWaits(before, id, user, at, from)
  {
    var turn := after[id].request.turnKey.value;
    SubsetSize(TurnEvents(before, user, turn), TurnEvents(after, user, turn));
  }

  lemma NoStopStartsWaiting(db: Db, after: Db, user: Uuid, at: int, from: int)
    requires at <= from && NoStopWaits(db, user, at, from)
    requires EventsAge(db.events, after.events, from) && db.deletedUsers <= after.deletedUsers
    ensures NoStopWaits(after, user, at, from)
  {
    if user !in after.deletedUsers {
      forall id | id in after.events ensures !StopWaits(after.events, id, user, at, from) {
        if StopWaits(after.events, id, user, at, from) { StopsOnlyLeave(db.events, after.events, id, user, at, from); }
      }
    }
  }

  /** The start of a turn and the replay it brings, as far as both tables go. */
  lemma StartReplays(db: Db, c: EventCall)
    requires Inv(db) && Acceptable(db, c) && FreshIds(db, c) && c.dto.event.value.UserPromptSubmit?
    ensures DeferredAreTurnEvents(db.events)
    ensures
      var a := Apply(db.sessions, db.events, c);
      var t := Tables(a.sessions, db.events);
      var ids := ReplayList(db.events, c.auth.user, c.dto.turnKey.value);
      && Opened(db.sessions, a, c.auth.user, c.dto.turnKey.value)
      && Replayable(t, a.session.value, ids)
      && ReplayKeeps(t, ApplyAndReplay(db.sessions, db.events, c), a.session.value, PendingStart(a))
      && ApplyAndReplay(db.sessions, db.events, c) == Replay(t, a.session.value, ids, c.now)
  {
    FitsAreTurnEvents(db.sessions, db.events);
    var user, turn := c.auth.user, c.dto.turnKey.value;
    var a := Apply(db.sessions, db.events, c);
    TurnStartOpens(db.sessions, user, c.dto.sessionKey, turn, c.now, c.dto.context, c.newSession);
    TurnStartKeepsAudit(db.sessions, db.events, user, c.dto.sessionKey, turn, c.now, c.dto.context, c.newSession);
    var t, ids := Tables(a.sessions, db.events), ReplayList(db.events, user, turn);
    forall id | id in ids ensures WaitsFor(t, a.session.value, id) {}
    ReplayKeepsCore(t, a.session.value, ids, c.now, PendingStart(a));
  }

  /** Replay only takes events off the waiting list. */
  ghost predicate EventsSettle(before: Events, after: Events) {
    && after.Keys == before.Keys
    && (forall id | id in after && after[id].result.Deferred? :: after[id] == before[id])
    && (forall id | id in before :: after[id].user == before[id].user && after[id].request == before[id].request)
  }

  lemma ReplaySettles(db: Db, c: EventCall)
    requires Inv(db) && Acceptable(db, c) && FreshIds(db, c)
    ensures DeferredAreTurnEvents(db.events)
    ensures EventsSettle(db.events, ApplyAndReplay(db.sessions, db.events, c).events)
  {
    FitsAreTurnEvents(db.sessions, db.events);
    if c.dto.event.value.UserPromptSubmit? {
      StartReplays(db, c);
      var a := Apply(db.sessions, db.events, c);
      SettledOnlyChange(a.sessions, db.events, ReplayList(db.events, c.auth.user, c.dto.turnKey.value),
        a.session.value, c.now);
    }
    hide Inv, Apply, Replay, ReplayList, Core;
  }

  lemma {:induction false} SettledOnlyChange(
    sessions: Sessions, events: Events, ids: seq<Uuid>, sid: Uuid, startAt: int)
    requires Replayable(Tables(sessions, events), sid, ids)
    ensures EventsSettle(events, Replay(Tables(sessions, events), sid, ids, startAt).events)
    decreases |ids|
  {
    if ids != [] {
      var one := ReplayOne(Tables(sessions, events), sid, ids[0], startAt);
      SettledOnlyChange(one.sessions, one.events, ids[1..], sid, startAt);
      assert EventsSettle(events, one.events);
    }
  }

  lemma AcceptAges(db: Db, c: EventCall, from: int)
    requires Inv(db) && Acceptable(db, c) && FreshIds(db, c) && from <= c.now
    ensures DeferredAreTurnEvents(db.events) && EventsAge(db.events, Accept(db, c).0.events, from)
  {
    ReplaySettles(db, c);
    hide Inv, Acceptable, ApplyAndReplay, Apply, EventsSettle, EventsAge;
    var t := ApplyAndReplay(db.sessions, db.events, c);
    StoredAges(db.events, t.events, c.newEvent, NewRow(Apply(db.sessions, db.events, c), t.sessions, c), from);
  }

  lemma StoredAges(before: Events, settled: Events, id: Uuid, row: EventRow, from: int)
    ensures EventsSettle(before, settled) && id !in before && from <= row.receivedAt ==>
      EventsAge(before, settled[id := row], from)
  {}

  lemma StepAges(db: Db, a: Action, from: int)
    requires Inv(db) && FreshFor(db, a) && Onward(db, a, from)
    ensures DeferredAreTurnEvents(db.events) && EventsAge(db.events, Step(db, a).events, from)
    ensures db.deletedUsers <= Step(db, a).deletedUsers
  {
    hide Inv, ProcessEvent, StartManual, EventsAge;
    InvTurnEvents(db);
    SameEventsAge(db.events, from);
    match a
    case Deliver(c) => DeliverAges(db, c, from);
    case BeginManual(user, key, now, newId) => StartManualEvents(db, user, key, now, newId);
    case Finish(_, _, _, _, _) =>
    case Recover(now) => OrphansAge(db.events, now, from);
    case Outside(_, _, _) =>
  }

  lemma InvTurnEvents(db: Db)
    requires Inv(db)
    ensures DeferredAreTurnEvents(db.events)
  {
    FitsAreTurnEvents(db.sessions, db.events);
  }

  lemma SameEventsAge(events: Events, from: int)
    ensures EventsAge(events, events, from)
  {}

  lemma OrphansAge(events: Events, now: int, from: int)
    ensures EventsAge(events, IgnoreOrphans(events, now), from)
  {}

  lemma DeliverAges(db: Db, c: EventCall, from: int)
    requires Inv(db) && FreshIds(db, c) && from <= c.now
    ensures DeferredAreTurnEvents(db.events) && EventsAge(db.events, ProcessEvent(db, c).0.events, from)
    ensures ProcessEvent(db, c).0.deletedUsers == db.deletedUsers
  {
    hide Inv, Acceptable, Accept, ProcessEvent, EventsAge;
    InvTurnEvents(db);
    ProcessEventCases(db, c);
    DeletedStay(db, c);
    if Acceptable(db, c) { AcceptAges(db, c, from); } else { SameEventsAge(db.events, from); }
  }

  lemma DeletedStay(db: Db, c: EventCall)
    ensures DeferredAreTurnEvents(db.events) ==> ProcessEvent(db, c).0.deletedUsers == db.deletedUsers
  {}

  lemma StartManualEvents(db: Db, user: Uuid, key: Uuid, now: int, newId: Uuid)
    ensures
      var after := StartManual(db, user, key, now, newId).0;
      after.events == db.events && after.deletedUsers == db.deletedUsers
  {}

  // ---- Replaying into the session ----

  lemma {:induction false} ReplayKeepsTimely(t: Tables, sid: Uuid, ids: seq<Uuid>, startAt: int, at: int)
    requires Replayable(t, sid, ids) && RowOk(t.sessions[sid]) && TurnTimely(t.sessions[sid], at)
    requires forall i, j | 0 <= i < j < |ids| :: ids[i] != ids[j]
    requires forall id | id in ids && t.events[id].request.event == Some(Stop)
      && startAt - t.events[id].receivedAt <= DEFERRED_EVENT_TTL_MS ::
               at <= Max(t.events[id].receivedAt, t.sessions[sid].startedAt) + GRACE_MS
    ensures TurnTimely(Replay(t, sid, ids, startAt).sessions[sid], at)
    decreases |ids|
  {
    if ids != [] {
      var id, one := ids[0], ReplayOne(t, sid, ids[0], startAt);
      var row := t.events[id];
      WritesKeepTimely(t.sessions[sid], at, at, row.receivedAt, EndCompleted, row.request.event.value,
        row.request.context);
      WritesKeepRow(t.sessions[sid], row.receivedAt, EndCompleted, row.request.event.value,
        row.request.context, "", "");
      ReplayRow(t, sid, id, startAt);
      forall i, j | 0 <= i < j < |ids[1..]| ensures ids[1..][i] != ids[1..][j] { assert ids[i + 1] != ids[j + 1]; }
      forall k | k in ids[1..] ensures one.events[k] == t.events[k] { var i :| 0 < i < |ids| && ids[i] == k; }
      ReplayKeepsTimely(one, sid, ids[1..], startAt, at);
    }
  }

  /** What one replayed event may do to the session. */
  lemma ReplayRow(t: Tables, sid: Uuid, id: Uuid, startAt: int)
    requires sid in t.sessions && id in t.events && t.events[id].request.event.Some?
    ensures
      var row, s, r := t.events[id], t.sessions[sid], ReplayOne(t, sid, id, startAt).sessions[sid];
      var e := row.request.event.value;
      && (startAt - row.receivedAt > DEFERRED_EVENT_TTL_MS ==> r == s)
      && (startAt - row.receivedAt <= DEFERRED_EVENT_TTL_MS && Active(s) ==>
           r == ApplyToActive(s, e, row.receivedAt, row.request.context))
      && (!Active(s) ==> r == s || (Recoverable(s) && r == RecoverLateStop(s, row.request.context)))
  {}

  // ---- One step ----

  /** What an event other than a start does to one session. */
  lemma TurnEventRow(db: Db, c: EventCall, sid: Uuid)
    requires Acceptable(db, c) && !c.dto.event.value.UserPromptSubmit?
    requires sid in db.sessions && RowOk(db.sessions[sid]) && DeferredAreTurnEvents(db.events)
    ensures
      var s, t := db.sessions[sid], Accept(db, c).0.sessions;
      sid in t && (t[sid] == s
        || (s.turnKey.Some? && Active(s) && t[sid] == ApplyToActive(s, c.dto.event.value, c.now, c.dto.context))
        || (s.turnKey.Some? && Recoverable(s) && t[sid] == RecoverLateStop(s, c.dto.context)))
  {
    hide ApplyToActive, RecoverLateStop, TurnEvents, OverTurnLimit, SequenceUsed, FindStored, SnapshotOf, HasEventFrom;
    assert RowOk(db.sessions[sid]);
  }

  lemma TurnEventKeepsTimely(db: Db, c: EventCall, sid: Uuid, at: int)
    requires Inv(db) && Acceptable(db, c) && at <= c.now && !c.dto.event.value.UserPromptSubmit?
    requires sid in db.sessions && DeferredAreTurnEvents(db.events)
    ensures
      var s, t := db.sessions[sid], Accept(db, c).0.sessions;
      sid in t && (t[sid] == s || (s.turnKey.Some? && (TurnTimely(s, at) ==> TurnTimely(t[sid], at))))
  {
    var e := c.dto.event.value;
    hide Inv, Acceptable, Accept;
    SessionRowOk(db, sid);
    TurnEventRow(db, c, sid);
    var s := db.sessions[sid];
    if TurnTimely(s, at) { WritesKeepTimely(s, at, c.now, c.now, EndCompleted, e, c.dto.context); }
  }

  /** A start that finds its turn replays nothing. */
  lemma KnownTurnReplaysNothing(db: Db, c: EventCall)
    requires Inv(db) && Acceptable(db, c) && c.dto.event.value.UserPromptSubmit? && DeferredAreTurnEvents(db.events)
    requires FindByTurn(db.sessions, c.auth.user, c.dto.turnKey.value).Some?
    ensures Accept(db, c).0.sessions == db.sessions
  {
    var user, turn := c.auth.user, c.dto.turnKey.value;
    var sid := FindByTurn(db.sessions, user, turn).value;
    forall id | id in db.events ensures !IsDeferredFor(db.events[id], user, turn) {}
    assert DeferredEvents(db.events, user, turn) == {};
    EmptyElements(ReplayList(db.events, user, turn));
    hide Inv;
  }

  /** What the start of a new turn does to one session. */
  ghost predicate StartedOver(s: Session, t: Session, own: bool, c: EventCall)
    requires c.dto.turnKey.Some?
  {
    if own then
      && Active(s) && s.turnKey.None? && s.user == c.auth.user
      && t == Adopt(s, c.dto.sessionKey, c.dto.turnKey.value, c.now, c.dto.context)
    else
      t == s || (Active(s) && s.turnKey.Some? && t == Supersede(s, c.now))
  }

  lemma NewTurnRow(db: Db, c: EventCall, sid: Uuid)
    requires Inv(db) && Validate(c.dto, c.appNow).None? && FreshIds(db, c) && c.dto.event.value.UserPromptSubmit?
    requires sid in db.sessions
    requires FindByTurn(db.sessions, c.auth.user, c.dto.turnKey.value).None?
    ensures
      var a := Apply(db.sessions, db.events, c);
      && a.session.Some? && sid in a.sessions
      && StartedOver(db.sessions[sid], a.sessions[sid], a.session == Some(sid), c)
  {
    assert RowOk(db.sessions[sid]);
    hide EventsOk, AllAudited, Core, NoStrandedEvents, OneSessionPerTurn, OneActivePerKey, OneActiveManual;
  }

  lemma StartKeepsOthers(db: Db, c: EventCall, sid: Uuid)
    requires Inv(db) && Acceptable(db, c) && FreshIds(db, c) && c.dto.event.value.UserPromptSubmit?
    requires sid in db.sessions
    requires DeferredAreTurnEvents(db.events)
    ensures
      var a := Apply(db.sessions, db.events, c);
      && sid in Accept(db, c).0.sessions && a.session.Some?
      && (a.session != Some(sid) && sid in a.sessions ==> Accept(db, c).0.sessions[sid] == a.sessions[sid])
  {
    StartReplays(db, c);
    hide Inv, Core, Acceptable, Replay, ReplayList, Apply;
  }

  lemma StartKeepsTimely(db: Db, c: EventCall, sid: Uuid, at: int, from: int)
    requires Inv(db) && Acceptable(db, c) && FreshIds(db, c) && at <= from <= c.now
    requires c.dto.event.value.UserPromptSubmit?
    requires Timely(db, sid, at, from) && DeferredAreTurnEvents(db.events)
    requires FindByTurn(db.sessions, c.auth.user, c.dto.turnKey.value).None?
    ensures
      var s, t := db.sessions[sid], Accept(db, c).0.sessions;
      sid in t && (t[sid] == s || TurnTimely(t[sid], at))
  {
    StartKeepsOthers(db, c, sid);
    NewTurnRow(db, c, sid);
    var s, a := db.sessions[sid], Apply(db.sessions, db.events, c);
    assert RowOk(s);
    if a.session == Some(sid) {
      AdoptionKeepsTimely(db, c, sid, at, from);
    } else if a.sessions[sid] != s {
      WritesKeepTimely(s, at, c.now, c.now, EndCompleted, Stop, c.dto.context);
    }
    hide Inv, Acceptable, Accept, Apply;
  }

  /** No Stop that the adoption replays dates the end too far back. */
  lemma ReplayedStopsAreTimely(db: Db, c: EventCall, s: Session, at: int, from: int)
    requires Acceptable(db, c) && at <= from <= c.now && c.dto.event.value.UserPromptSubmit? && s.user == c.auth.user
    requires at <= s.startedAt + GRACE_MS || NoStopWaits(db, s.user, at, from)
    ensures forall id | id in ReplayList(db.events, c.auth.user, c.dto.turnKey.value)
              && db.events[id].request.event == Some(Stop)
              && c.now - db.events[id].receivedAt <= DEFERRED_EVENT_TTL_MS ::
              at <= Max(db.events[id].receivedAt, s.startedAt) + GRACE_MS
  {
    var user, turn := c.auth.user, c.dto.turnKey.value;
    forall id | id in ReplayList(db.events, user, turn)
        && db.events[id].request.event == Some(Stop) && c.now - db.events[id].receivedAt <= DEFERRED_EVENT_TTL_MS
      ensures at <= Max(db.events[id].receivedAt, s.startedAt) + GRACE_MS
    {
      assert IsDeferredFor(db.events[id], user, turn);
      if s.startedAt + GRACE_MS < at { assert !StopWaits(db.events, id, user, at, from); }
    }
  }

  lemma AdoptionKeepsTimely(db: Db, c: EventCall, sid: Uuid, at: int, from: int)
    requires Inv(db) && Acceptable(db, c) && FreshIds(db, c) && at <= from <= c.now
    requires c.dto.event.value.UserPromptSubmit?
    requires Timely(db, sid, at, from) && DeferredAreTurnEvents(db.events)
    requires Apply(db.sessions, db.events, c).session == Some(sid)
    requires FindByTurn(db.sessions, c.auth.user, c.dto.turnKey.value).None?
    ensures sid in Accept(db, c).0.sessions && TurnTimely(Accept(db, c).0.sessions[sid], at)
  {
    StartReplays(db, c);
    NewTurnRow(db, c, sid);
    var turn, s, a := c.dto.turnKey.value, db.sessions[sid], Apply(db.sessions, db.events, c);
    assert RowOk(s);
    ReplayedStopsAreTimely(db, c, s, at, from);
    WritesKeepRow(s, c.now, EndCompleted, Stop, c.dto.context, c.dto.sessionKey, turn);
    ManualKeepsTimely(s, at, c.now, EndCompleted, c.dto.sessionKey, turn, c.dto.context);
    hide Inv, Core, Acceptable, Apply, NoStopWaits, TurnTimely;
    ReplayKeepsTimely(Tables(a.sessions, db.events), sid, ReplayList(db.events, c.auth.user, turn), c.now, at);
  }

  lemma DeliverKeepsTimely(db: Db, c: EventCall, sid: Uuid, at: int, from: int)
    requires Inv(db) && FreshIds(db, c) && at <= from <= c.now && Timely(db, sid, at, from)
    ensures DeferredAreTurnEvents(db.events)
    ensures
      var s, t := db.sessions[sid], ProcessEvent(db, c).0.sessions;
      sid in t && (t[sid] == s || TurnTimely(t[sid], at))
  {
    FitsAreTurnEvents(db.sessions, db.events);
    ProcessEventCases(db, c);
    if Acceptable(db, c) {
      if !c.dto.event.value.UserPromptSubmit? { TurnEventKeepsTimely(db, c, sid, at); }
      else if FindByTurn(db.sessions, c.auth.user, c.dto.turnKey.value).Some? { KnownTurnReplaysNothing(db, c); }
      else { StartKeepsTimely(db, c, sid, at, from); }
    }
    hide Inv, Acceptable, Accept, ProcessEvent;
  }

  lemma RecoverKeepsTimely(db: Db, now: int, sid: Uuid, at: int, from: int)
    requires Inv(db) && at <= now && Timely(db, sid, at, from)
    ensures
      var s, t := db.sessions[sid], Cleanup(db, now).sessions;
      sid in t && (t[sid] == s || TurnTimely(t[sid], at))
  {
    hide Inv, NoStopWaits, IgnoreOrphans;
    SessionRowOk(db, sid);
    var s := db.sessions[sid];
    if Active(s) && s.turnKey.None? { ManualKeepsTimely(s, at, now, EndCompleted, "", "", Context(None, None)); }
    else { WritesKeepTimely(s, at, now, now, EndCompleted, Stop, Context(None, None)); }
  }

  lemma FinishKeepsTimely(
    db: Db, user: Uuid, target: Uuid, o: Outcome, key: Uuid, now: int, sid: Uuid, at: int, from: int)
    requires Inv(db) && at <= now && Timely(db, sid, at, from)
    ensures
      var s, t := db.sessions[sid], EndSession(db, user, target, o, key, now).0.sessions;
      sid in t && (t[sid] == s || TurnTimely(t[sid], at))
  {
    hide Inv, EndManually, SessionRows.ToSnapshot, NoStopWaits;
    SessionRowOk(db, sid);
    var s := db.sessions[sid];
    if Active(s) && s.turnKey.None? { ManualKeepsTimely(s, at, now, o, "", "", Context(None, None)); }
    else { WritesKeepTimely(s, at, now, now, o, Stop, Context(None, None)); }
  }

  lemma ManualStartKeepsOthers(db: Db, user: Uuid, key: Uuid, now: int, newId: Uuid, sid: Uuid)
    requires sid in db.sessions && newId !in db.sessions
    ensures
      var after := StartManual(db, user, key, now, newId).0.sessions;
      sid in after && after[sid] == db.sessions[sid]
  {
    hide SessionRows.ToSnapshot, FindActiveManual;
  }

  lemma StepRow(db: Db, a: Action, sid: Uuid, at: int, from: int)
    requires Inv(db) && FreshFor(db, a) && at <= from && Onward(db, a, from) && Timely(db, sid, at, from)
    requires DeferredAreTurnEvents(db.events)
    ensures
      var s, after := db.sessions[sid], Step(db, a).sessions;
      sid in after && (after[sid] == s || TurnTimely(after[sid], at))
  {
    hide Inv, ProcessEvent, StartManual, EndSession, Cleanup, TurnTimely, NoStopWaits;
    match a
    case Deliver(c) => DeliverKeepsTimely(db, c, sid, at, from);
    case BeginManual(user, key, now, newId) => ManualStartKeepsOthers(db, user, key, now, newId, sid);
    case Finish(user, target, o, key, now) => FinishKeepsTimely(db, user, target, o, key, now, sid, at, from);
    case Recover(now) => RecoverKeepsTimely(db, now, sid, at, from);
    case Outside(_, _, _) =>
  }

  lemma StepKeepsTimely(db: Db, a: Action, sid: Uuid, at: int, from: int)
    requires Inv(db) && FreshFor(db, a) && at <= from && Onward(db, a, from) && Timely(db, sid, at, from)
    ensures DeferredAreTurnEvents(db.events) && Timely(Step(db, a), sid, at, from)
  {
    hide Inv, Step, FreshFor, Onward, NoStopWaits;
    StepAges(db, a, from);
    StepRow(db, a, sid, at, from);
    var s, after := db.sessions[sid], Step(db, a);
    if after.sessions[sid] == s && Active(s) && s.turnKey.None? && at > s.startedAt + GRACE_MS {
      NoStopStartsWaiting(db, after, s.user, at, from);
    }
  }

  // ---- Runs ----

  /** Every step of a run comes at or after the moment. */
  ghost predicate OnwardRun(db: Db, actions: seq<Action>, from: int)
    requires Inv(db) && Runnable(db, actions)
    decreases |actions|
  {
    actions == [] ||
    (Onward(db, actions[0], from) &&
     (SessionRuns.StepKeeps(db, actions[0]); OnwardRun(Step(db, actions[0]), actions[1..], from)))
  }

  /** A timely session never turns out to have ended too early, whatever happens from then on. */
  lemma {:induction false} TimelyStays(db: Db, actions: seq<Action>, sid: Uuid, at: int, from: int)
    requires Inv(db) && Runnable(db, actions) && OnwardRun(db, actions, from) && at <= from && Timely(db, sid, at, from)
    ensures Timely(Run(db, actions), sid, at, from) && !EndedTooEarly(Run(db, actions).sessions[sid], at)
    decreases |actions|
  {
    if actions == [] {
      assert RowOk(db.sessions[sid]);
    } else {
      hide Inv, Step, FreshFor, Onward, Timely;
      SessionRuns.StepKeeps(db, actions[0]);
      StepKeepsTimely(db, actions[0], sid, at, from);
      TimelyStays(Step(db, actions[0]), actions[1..], sid, at, from);
    }
  }

  // ---- The condition is exact: a session that is not timely can still end too early ----

  lemma OneStepRun(db: Db, a: Action, from: int)
    requires Inv(db) && FreshFor(db, a) && Onward(db, a, from)
    ensures DeferredAreTurnEvents(db.events) && Runnable(db, [a]) && Run(db, [a]) == Step(db, a)
    ensures OnwardRun(db, [a], from)
  {
    hide Inv, Step, FreshFor, Onward;
    SessionRuns.StepKeeps(db, a);
    assert [a][1..] == [];
    assert Runnable(Step(db, a), []) && Run(Step(db, a), []) == Step(db, a) && OnwardRun(Step(db, a), [], from);
  }

  lemma TwoStepRun(db: Db, a: Action, b: Action, from: int)
    requires Inv(db) && FreshFor(db, a) && Onward(db, a, from)
    requires DeferredAreTurnEvents(db.events) && Inv(Step(db, a)) && FreshFor(Step(db, a), b)
    requires Onward(Step(db, a), b, from)
    ensures DeferredAreTurnEvents(Step(db, a).events)
    ensures Runnable(db, [a, b]) && Run(db, [a, b]) == Step(Step(db, a), b) && OnwardRun(db, [a, b], from)
  {
    hide Inv, Step, FreshFor, Onward;
    OneStepRun(Step(db, a), b, from);
    assert [a, b][1..] == [b];
  }

  /** A timeout that is overdue for the time. */
  lemma LateTimeoutEndsTooEarly(db: Db, sid: Uuid, at: int, now: int)
    requires Inv(db) && sid in db.sessions && Active(db.sessions[sid]) && at <= now
    requires
      var s := db.sessions[sid];
      if s.turnKey.Some? then s.lastActivityAt + HEARTBEAT_TIMEOUT_MS + GRACE_MS < at
        else s.startedAt + MANUAL_TIMEOUT_MS + GRACE_MS < at
    ensures DeferredAreTurnEvents(db.events)
    ensures
      var after := Step(db, Recover(now)).sessions;
      sid in after && EndedTooEarly(after[sid], at)
  {
    InvTurnEvents(db);
    hide Inv, IgnoreOrphans;
  }

  lemma {:induction false} FreshNat(used: set<nat>) returns (n: nat)
    ensures forall u | u in used :: u < n
    decreases |used|
  {
    if used == {} {
      n := 0;
    } else {
      var u :| u in used;
      var m := FreshNat(used - {u});
      n := if m > u then m else u + 1;
      assert forall v | v in used :: v == u || v in used - {u};
    }
  }

  lemma {:induction false} FreshKey(used: set<Key>) returns (k: Key)
    ensures forall u | u in used :: |u| < |k|
    decreases |used|
  {
    if used == {} {
      k := "";
    } else {
      var u :| u in used;
      var m := FreshKey(used - {u});
      k := if |m| > |u| then m else u + "x";
      assert forall v | v in used :: v == u || v in used - {u};
    }
  }

  /** Replaying an early Stop, oldest first, ends the session too early: at that Stop or at an older one. */
  lemma {:induction false} ReplayEndsTooEarly(t: Tables, sid: Uuid, ids: seq<Uuid>, startAt: int, stop: Uuid, at: int)
    requires Replayable(t, sid, ids)
    requires forall i, j | 0 <= i < j < |ids| ::
      ids[i] != ids[j] && t.events[ids[i]].receivedAt <= t.events[ids[j]].receivedAt
    requires (EndedTooEarly(t.sessions[sid], at) && !Active(t.sessions[sid]))
      || (stop in ids && Active(t.sessions[sid]) && t.events[stop].request.event == Some(Stop)
          && t.sessions[sid].startedAt + GRACE_MS < at && t.events[stop].receivedAt + GRACE_MS < at
          && startAt - t.events[stop].receivedAt <= DEFERRED_EVENT_TTL_MS)
    ensures EndedTooEarly(Replay(t, sid, ids, startAt).sessions[sid], at)
    decreases |ids|
  {
    if ids != [] {
      var one, rest := ReplayOne(t, sid, ids[0], startAt), ids[1..];
      ReplayRow(t, sid, ids[0], startAt);
      assert stop in ids ==> stop == ids[0] || stop in rest;
      forall k | k in rest
        ensures one.events[k] == t.events[k] && t.events[ids[0]].receivedAt <= t.events[k].receivedAt
      {
        var i :| 0 < i < |ids| && ids[i] == k;
      }
      forall i, j | 0 <= i < j < |rest|
        ensures rest[i] != rest[j] && one.events[rest[i]].receivedAt <= one.events[rest[j]].receivedAt
      {
        assert rest[i] == ids[i + 1] && rest[j] == ids[j + 1] && rest[i] in rest && rest[j] in rest;
      }
      ReplayEndsTooEarly(one, sid, rest, startAt, stop, at);
    }
  }

  /** A linked device, and the start of the turn whose Stop waits. */
  function Link(db: Db, user: Uuid, device: Uuid, now: int): Action {
    Outside(db.devices[device := Device(user, false, now + 1, 0, None)], db.deletedUsers, {})
  }

  function LateStart(
    user: Uuid, device: Uuid, key: Key, turn: Key, now: int, newSession: Uuid, newEvent: Uuid): EventCall {
    EventCall(DeviceAuth(device, user),
              Dto(0, None, Some(UserPromptSubmit), key, Some(turn), Timestamp("", now), Context(None, None), None),
              now, now, newSession, newEvent)
  }

  lemma LateStartIsAcceptable(
    db: Db, user: Uuid, device: Uuid, key: Key, turn: Key, now: int, newSession: Uuid, newEvent: Uuid)
    requires user !in db.deletedUsers && device in db.devices
    requires db.devices[device] == Device(user, false, now + 1, 0, None)
    requires forall id | id in db.events :: db.events[id].device != device
    requires |TurnEvents(db.events, user, turn)| < MAX_EVENTS_PER_TURN
    ensures Acceptable(db, LateStart(user, device, key, turn, now, newSession, newEvent))
  {
    assert forall id | id in db.events :: !IsStoredAs(db.events[id], device, 0);
  }

  lemma LateStartAdopts(db: Db, sid: Uuid, c: EventCall)
    requires Inv(db) && sid in db.sessions && Active(db.sessions[sid]) && db.sessions[sid].turnKey.None?
    requires Validate(c.dto, c.appNow).None? && c.dto.event.value.UserPromptSubmit?
    requires c.auth.user == db.sessions[sid].user
    requires FindByTurn(db.sessions, c.auth.user, c.dto.turnKey.value).None?
    requires FindActiveByKey(db.sessions, c.auth.user, c.dto.sessionKey).None?
    ensures
      var a := Apply(db.sessions, db.events, c);
      a.session == Some(sid)
        && a.sessions == db.sessions[sid :=
           Adopt(db.sessions[sid], c.dto.sessionKey, c.dto.turnKey.value, c.now, c.dto.context)]
  {
    assert RowOk(db.sessions[sid]);
    assert ActiveManual(db.sessions[sid], c.auth.user);
    hide EventsOk, AllAudited, NoStrandedEvents, OneSessionPerTurn, OneActivePerKey;
  }

  /** Starting the turn adopts the session and ends it at the early Stop. */
  lemma WaitingStopEndsTooEarly(db: Db, sid: Uuid, stop: Uuid, c: EventCall, at: int)
    requires Inv(db) && sid in db.sessions && Active(db.sessions[sid]) && db.sessions[sid].turnKey.None?
    requires db.sessions[sid].startedAt + GRACE_MS < at && StopWaits(db.events, stop, db.sessions[sid].user, at, c.now)
    requires Acceptable(db, c) && FreshIds(db, c) && c.dto.event.value.UserPromptSubmit?
    requires c.auth.user == db.sessions[sid].user && c.dto.turnKey == db.events[stop].request.turnKey
    requires FindActiveByKey(db.sessions, c.auth.user, c.dto.sessionKey).None?
    ensures DeferredAreTurnEvents(db.events)
    ensures sid in ProcessEvent(db, c).0.sessions && EndedTooEarly(ProcessEvent(db, c).0.sessions[sid], at)
  {
    var user, turn := c.auth.user, c.dto.turnKey.value;
    assert Validate(c.dto, c.appNow).None? && c.auth.device in db.devices;
    hide Inv, Core, Acceptable, Apply, ReplayList, Opened, ReplayKeeps, FindByTurn, FindActiveByKey, Replay,
         ProcessEvent;
    StartReplays(db, c);
    ProcessEventCases(db, c);
    TurnIsNew(db, stop, user, turn);
    LateStartAdopts(db, sid, c);
    var ids, a := ReplayList(db.events, user, turn), Apply(db.sessions, db.events, c);
    StopIsReplayed(db.events, stop, user, turn);
    InReceiptOrder(db.events, user, turn);
    ReplayEndsTooEarly(Tables(a.sessions, db.events), sid, ids, c.now, stop, at);
  }

  /** The turn of a deferred event has no session yet. */
  lemma TurnIsNew(db: Db, stop: Uuid, user: Uuid, turn: Key)
    requires Inv(db) && stop in db.events && IsDeferredFor(db.events[stop], user, turn)
    ensures FindByTurn(db.sessions, user, turn).None?
  {
    forall id | id in db.sessions ensures !OwnsTurn(db.sessions[id], user, turn) {}
  }

  lemma StopIsReplayed(events: Events, stop: Uuid, user: Uuid, turn: Key)
    requires stop in events && IsDeferredFor(events[stop], user, turn)
    ensures stop in ReplayList(events, user, turn)
  {
    assert stop in DeferredEvents(events, user, turn);
    assert stop in Elements(ReplayList(events, user, turn));
    hide ReplayList;
  }

  lemma InReceiptOrder(events: Events, user: Uuid, turn: Key)
    ensures
      var ids := ReplayList(events, user, turn);
      forall i, j | 0 <= i < j < |ids| :: ids[i] != ids[j] && events[ids[i]].receivedAt <= events[ids[j]].receivedAt
  {
    var ids := ReplayList(events, user, turn);
    assert StrictlySorted(ids, ReplayOrder(events));
    forall i, j | 0 <= i < j < |ids|
      ensures ids[i] != ids[j] && events[ids[i]].receivedAt <= events[ids[j]].receivedAt
    {
      assert ReplayOrder(events)(ids[i], ids[j]);
    }
  }

  /** Names not in use yet: a device, a session key and two row ids. */
  ghost predicate AreNew(db: Db, device: Uuid, key: Key, newSession: Uuid, newEvent: Uuid) {
    && device !in db.devices && (forall id | id in db.events :: db.events[id].device != device)
    && (forall id | id in db.sessions :: db.sessions[id].sessionKey != Some(key))
    && newSession !in db.sessions && newEvent !in db.events
  }

  lemma FreshNames(db: Db)
    ensures exists device, key, newSession, newEvent :: AreNew(db, device, key, newSession, newEvent)
  {
    var devices := set id | id in db.events :: db.events[id].device;
    var device := FreshNat(db.devices.Keys + devices);
    forall id | id in db.events ensures db.events[id].device != device {
      assert db.events[id].device in devices;
      assert db.events[id].device in db.devices.Keys + devices;
    }
    var keys := set id | id in db.sessions && db.sessions[id].sessionKey.Some? :: db.sessions[id].sessionKey.value;
    var key := FreshKey(keys);
    forall id | id in db.sessions ensures db.sessions[id].sessionKey != Some(key) {
      if db.sessions[id].sessionKey.Some? { assert db.sessions[id].sessionKey.value in keys; }
    }
    var newSession := FreshNat(db.sessions.Keys);
    var newEvent := FreshNat(db.events.Keys);
    assert AreNew(db, device, key, newSession, newEvent);
  }

  lemma LinkOnlyLinks(db: Db, user: Uuid, device: Uuid, now: int)
    requires Inv(db)
    ensures DeferredAreTurnEvents(db.events) && FreshFor(db, Link(db, user, device, now))
    ensures Onward(db, Link(db, user, device, now), now)
    ensures
      var linked := Step(db, Link(db, user, device, now));
      && linked.sessions == db.sessions && linked.events == db.events && linked.deletedUsers == db.deletedUsers
      && device in linked.devices && linked.devices[device] == Device(user, false, now + 1, 0, None)
  {
    FitsAreTurnEvents(db.sessions, db.events);
  }

  /** A run of deliveries and recovery jobs from the moment on, between which devices are linked but no
      other service writes a key, after which the session has ended too early. */
  ghost predicate EndsTooEarlyAfter(db: Db, actions: seq<Action>, sid: Uuid, at: int, from: int)
    requires Inv(db)
  {
    && Runnable(db, actions) && OnwardRun(db, actions, from)
    && sid in Run(db, actions).sessions && EndedTooEarly(Run(db, actions).sessions[sid], at)
    && forall i | 0 <= i < |actions| ::
         actions[i].Deliver? || actions[i].Recover? || (actions[i].Outside? && actions[i].foreignKeys == {})
  }

  lemma StopCanBeReplayed(
    db: Db, sid: Uuid, stop: Uuid, at: int, from: int, device: Uuid, key: Key, newSession: Uuid, newEvent: Uuid)
    requires Inv(db) && sid in db.sessions && Active(db.sessions[sid]) && db.sessions[sid].turnKey.None?
    requires db.sessions[sid].startedAt + GRACE_MS < at && StopWaits(db.events, stop, db.sessions[sid].user, at, from)
    requires db.sessions[sid].user !in db.deletedUsers && AreNew(db, device, key, newSession, newEvent)
    ensures exists actions :: EndsTooEarlyAfter(db, actions, sid, at, from)
  {
    hide Inv, Step, Runnable, Run, OnwardRun, StopWaits, EndedTooEarly, Active, TurnEvents, FreshFor, Onward;
    LimitLeft(db.events, stop, db.sessions[sid].user, at, from);
    var user, turn := db.sessions[sid].user, db.events[stop].request.turnKey.value;
    var link, c := Link(db, user, device, from), LateStart(user, device, key, turn, from, newSession, newEvent);
    LinkOnlyLinks(db, user, device, from);
    SessionRuns.StepKeeps(db, link);
    var linked := Step(db, link);
    LateStartEndsTooEarly(linked, sid, stop, at, device, key, from, newSession, newEvent);
    TwoStepRun(db, link, Deliver(c), from);
    assert EndsTooEarlyAfter(db, [link, Deliver(c)], sid, at, from);
  }

  lemma LateStartEndsTooEarly(
    db: Db, sid: Uuid, stop: Uuid, at: int, device: Uuid, key: Key, now: int, newSession: Uuid, newEvent: Uuid)
    requires Inv(db) && sid in db.sessions && Active(db.sessions[sid]) && db.sessions[sid].turnKey.None?
    requires db.sessions[sid].startedAt + GRACE_MS < at && StopWaits(db.events, stop, db.sessions[sid].user, at, now)
    requires db.sessions[sid].user !in db.deletedUsers && device in db.devices
    requires db.devices[device] == Device(db.sessions[sid].user, false, now + 1, 0, None)
    requires forall id | id in db.events :: db.events[id].device != device
    requires forall id | id in db.sessions :: db.sessions[id].sessionKey != Some(key)
    requires newSession !in db.sessions && newEvent !in db.events
    ensures DeferredAreTurnEvents(db.events)
    ensures
      var s, turn := db.sessions[sid], db.events[stop].request.turnKey.value;
      var start := Deliver(LateStart(s.user, device, key, turn, now, newSession, newEvent));
      && FreshFor(db, start) && Onward(db, start, now)
      && sid in Step(db, start).sessions && EndedTooEarly(Step(db, start).sessions[sid], at)
  {
    var user, turn := db.sessions[sid].user, db.events[stop].request.turnKey.value;
    hide Inv, Acceptable, ProcessEvent, TurnEvents, StopWaits, EndedTooEarly;
    LimitLeft(db.events, stop, user, at, now);
    LateStartIsAcceptable(db, user, device, key, turn, now, newSession, newEvent);
    assert FindActiveByKey(db.sessions, user, key).None?;
    WaitingStopEndsTooEarly(db, sid, stop, LateStart(user, device, key, turn, now, newSession, newEvent), at);
  }

  lemma LimitLeft(events: Events, stop: Uuid, user: Uuid, at: int, from: int)
    ensures StopWaits(events, stop, user, at, from) ==>
      && stop in events && events[stop].request.turnKey.Some?
      && |TurnEvents(events, user, events[stop].request.turnKey.value)| < MAX_EVENTS_PER_TURN
  {}

  /** A session that is not timely ends too early in some run that goes on from the moment: at once if it is
      over already, else by the recovery job, or by the start of the turn whose Stop waits. */
  lemma UntimelyCanEndTooEarly(db: Db, sid: Uuid, at: int, from: int)
    requires Inv(db) && sid in db.sessions && at <= from && !Timely(db, sid, at, from)
    ensures exists actions :: EndsTooEarlyAfter(db, actions, sid, at, from)
  {
    hide Inv, Runnable, Run, OnwardRun, Step, Cleanup, StopWaits;
    var s := db.sessions[sid];
    SessionRowOk(db, sid);
    if !Active(s) {
      NoStepRun(db, from);
      assert EndsTooEarlyAfter(db, [], sid, at, from);
    } else if s.turnKey.Some? || s.startedAt + MANUAL_TIMEOUT_MS + GRACE_MS < at {
      LateTimeoutEndsTooEarly(db, sid, at, from);
      OneStepRun(db, Recover(from), from);
      assert EndsTooEarlyAfter(db, [Recover(from)], sid, at, from);
    } else {
      var stop :| stop in db.events && StopWaits(db.events, stop, s.user, at, from);
      FreshNames(db);
      var device, key, newSession, newEvent :| AreNew(db, device, key, newSession, newEvent);
      StopCanBeReplayed(db, sid, stop, at, from, device, key, newSession, newEvent);
    }
  }

  lemma NoStepRun(db: Db, from: int)
    requires Inv(db)
    ensures Runnable(db, []) && Run(db, []) == db && OnwardRun(db, [], from)
  {}
}
