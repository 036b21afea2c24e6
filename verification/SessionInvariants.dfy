/**
 What every transaction of the session service keeps: the constraints and
 unique indexes of both tables, the fate of deferred events, and an audit of
 every row's version and Stop by the stored events.
 */
module SessionInvariants {
  import opened Wrappers
  import opened Ordering
  import opened SessionRows
  import opened SessionSteps

  // ---- The session table ----

  ghost predicate OneSessionPerTurn(sessions: Sessions) {
    forall a, b, user, turn | a in sessions && b in sessions ::
      OwnsTurn(sessions[a], user, turn) && OwnsTurn(sessions[b], user, turn) ==> a == b
  }

  ghost predicate OneActivePerKey(sessions: Sessions) {
    forall a, b, user, key | a in sessions && b in sessions ::
      ActiveWithKey(sessions[a], user, key) && ActiveWithKey(sessions[b], user, key) ==> a == b
  }

  ghost predicate OneActiveManual(sessions: Sessions) {
    forall a, b, user | a in sessions && b in sessions ::
      ActiveManual(sessions[a], user) && ActiveManual(sessions[b], user) ==> a == b
  }

  ghost predicate SessionsOk(sessions: Sessions) {
    && (forall id | id in sessions :: RowOk(sessions[id]))
    && OneSessionPerTurn(sessions) && OneActivePerKey(sessions) && OneActiveManual(sessions)
  }

  /** No row is lost and every row follows the life cycle. */
  ghost predicate SessionsEvolve(before: Sessions, after: Sessions) {
    forall id | id in before :: id in after && Evolves(before[id], after[id])
  }

  // ---- The event table ----

  predicate RowFits(e: EventRow, sessions: Sessions) {
    && e.request.event.Some?
    && (!e.request.event.value.SessionStart? ==> e.request.turnKey.Some?)
    && (e.result.Deferred? ==> IsTurnEvent(e.request.event.value) && e.session.None?)
    && (e.result.Applied? && !e.request.event.value.SessionStart? ==> e.session.Some?)
    && (e.session.Some? ==>
          && e.session.value in sessions && !e.request.event.value.SessionStart?
          && e.user == sessions[e.session.value].user
          && e.request.turnKey == sessions[e.session.value].turnKey)
    && e.response.eventId == e.request.eventId && e.response.result == e.result
  }

  ghost predicate UniqueKeys(events: Events) {
    forall a, b | a in events && b in events && a != b && events[a].device == events[b].device ::
      && events[a].request.eventId != events[b].request.eventId
      && (events[a].request.sequence.Some? ==> events[a].request.sequence != events[b].request.sequence)
  }

  ghost predicate TurnsWithinLimit(events: Events) {
    forall user, turn :: |TurnEvents(events, user, turn)| <= MAX_EVENTS_PER_TURN
  }

  ghost predicate EventsOk(sessions: Sessions, events: Events) {
    && (forall id | id in events :: RowFits(events[id], sessions))
    && UniqueKeys(events) && TurnsWithinLimit(events)
  }

  /** A deferred event waits only for a turn that has not started. */
  ghost predicate NoStrandedEvents(sessions: Sessions, events: Events) {
    forall id, sid | id in events && sid in sessions && events[id].result.Deferred? ::
      !(sessions[sid].user == events[id].user && sessions[sid].turnKey == events[id].request.turnKey)
  }

  // ---- The audit ----

  predicate IsStop(e: EventRow, sid: Uuid) {
    e.session == Some(sid) && e.result.Applied? && e.request.event == Some(Stop)
  }

  /** An event whose application was an UPDATE of the session: every applied turn event,
      and the start that adopted a manual session. */
  predicate IsWrite(e: EventRow, sid: Uuid, origin: Origin) {
    e.session == Some(sid) && e.result.Applied? && e.request.event.Some?
    && (IsTurnEvent(e.request.event.value) || origin.Manual?)
  }

  function Stops(events: Events, sid: Uuid): set<Uuid> {
    set id | id in events && IsStop(events[id], sid)
  }

  function Writes(events: Events, sid: Uuid, origin: Origin): set<Uuid> {
    set id | id in events && IsWrite(events[id], sid, origin)
  }

  predicate EndedByStop(s: Session) { s.reason == Some(HookStop) || s.reason == Some(RecoveredLateStop) }

  /** Endings that no event accounts for: the user, a timeout or a newer turn. */
  function OtherEndings(s: Session): nat { if s.reason.None? || s.reason == Some(HookStop) then 0 else 1 }

  /** Version and Stop of one row are what its stored events account for; extra counts an adopting
      start that is applied but not stored yet. */
  ghost predicate Audited(s: Session, sid: Uuid, events: Events, extra: nat) {
    && s.version == 1 + |Writes(events, sid, s.origin)| + OtherEndings(s) + extra
    && |Stops(events, sid)| == (if EndedByStop(s) then 1 else 0)
  }

  ghost predicate AllAudited(sessions: Sessions, events: Events, pending: Option<Uuid>) {
    forall sid | sid in sessions :: Audited(sessions[sid], sid, events, if pending == Some(sid) then 1 else 0)
  }

  /** Everything that also holds between the statements of one transaction. */
  ghost predicate Core(sessions: Sessions, events: Events, pending: Option<Uuid>) {
    SessionsOk(sessions) && EventsOk(sessions, events) && AllAudited(sessions, events, pending)
  }

  ghost predicate Inv(db: Db) {
    Core(db.sessions, db.events, None) && NoStrandedEvents(db.sessions, db.events)
  }

  lemma SessionRowOk(db: Db, sid: Uuid)
    ensures Inv(db) && sid in db.sessions ==> RowOk(db.sessions[sid])
  {}

  lemma FitsAreTurnEvents(sessions: Sessions, events: Events)
    requires EventsOk(sessions, events)
    ensures DeferredAreTurnEvents(events)
  {}

  // ---- Applying one event to its session and recording it ----

  lemma SessionUpdateKeeps(sessions: Sessions, sid: Uuid, t: Session)
    requires SessionsOk(sessions) && sid in sessions && RowOk(t) && Evolves(sessions[sid], t)
    requires t.turnKey == sessions[sid].turnKey && t.sessionKey == sessions[sid].sessionKey
    requires Active(t) ==> Active(sessions[sid])
    ensures SessionsOk(sessions[sid := t]) && SessionsEvolve(sessions, sessions[sid := t])
  {}

  predicate RecordsApplying(row: EventRow, a: Applying, s: Session, e: EventName) {
    && row.session == a.session && row.result == a.result && row.request.event == Some(e)
    && row.user == s.user && row.request.turnKey == s.turnKey && row.request.turnKey.Some?
    && row.response.eventId == row.request.eventId && row.response.result == row.result
  }

  lemma ApplyingKeeps(sessions: Sessions, events: Events, sid: Uuid, device: Uuid, e: EventName, at: int, ctx: Context)
    requires SessionsOk(sessions) && sid in sessions
    ensures
      var a := ApplySessionEvent(sessions, events, sid, device, e, at, ctx);
      && a.session == Some(sid) && !a.result.Deferred?
      && a.sessions == sessions[sid := a.sessions[sid]]
      && SessionsOk(a.sessions) && SessionsEvolve(sessions, a.sessions)
      && a.sessions[sid].turnKey == sessions[sid].turnKey
  {
    var a := ApplySessionEvent(sessions, events, sid, device, e, at, ctx);
    SessionUpdateKeeps(sessions, sid, a.sessions[sid]);
  }

  /** Storing a row that was absent or deferred adds it to its own session's sets and to no other. */
  lemma RecordedSets(events: Events, id: Uuid, row: EventRow, k: Uuid, origin: Origin)
    requires id !in events || (events[id].result.Deferred?)
    ensures Writes(events[id := row], k, origin)
      == Writes(events, k, origin) + (if IsWrite(row, k, origin) then {id} else {})
    ensures Stops(events[id := row], k) == Stops(events, k) + (if IsStop(row, k) then {id} else {})
    ensures id !in Writes(events, k, origin) && id !in Stops(events, k)
  {}

  /** Applying an event is one UPDATE of one session or none at all. */
  lemma ApplyingDelta(sessions: Sessions, events: Events, sid: Uuid, device: Uuid, e: EventName, at: int, ctx: Context)
    requires sid in sessions && RowOk(sessions[sid]) && IsTurnEvent(e)
    ensures
      var a := ApplySessionEvent(sessions, events, sid, device, e, at, ctx);
      var s, t := sessions[sid], a.sessions[sid];
      && a.session == Some(sid) && a.sessions == sessions[sid := t] && t.origin == s.origin && t.user == s.user
      && (a.result.Applied? ==>
            && t.version == s.version + 1 && OtherEndings(t) == OtherEndings(s)
            && !EndedByStop(s) && (EndedByStop(t) <==> e.Stop?))
      && (!a.result.Applied? ==> t == s && a.result.IgnoredTerminal?)
  {}

  lemma RecordKeepsAudit(
    sessions: Sessions, events: Events, pending: Option<Uuid>,
    sid: Uuid, device: Uuid, e: EventName, at: int, ctx: Context, id: Uuid, row: EventRow)
    requires AllAudited(sessions, events, pending) && sid in sessions && RowOk(sessions[sid]) && IsTurnEvent(e)
    requires id !in events || (events[id].result.Deferred?)
    requires RecordsApplying(row, ApplySessionEvent(sessions, events, sid, device, e, at, ctx), sessions[sid], e)
    ensures AllAudited(ApplySessionEvent(sessions, events, sid, device, e, at, ctx).sessions,
      events[id := row], pending)
  {
    var after := ApplySessionEvent(sessions, events, sid, device, e, at, ctx).sessions;
    ApplyingDelta(sessions, events, sid, device, e, at, ctx);
    forall k | k in sessions
      ensures Audited(after[k], k, events[id := row], if pending == Some(k) then 1 else 0)
    {
      assert Audited(sessions[k], k, events, if pending == Some(k) then 1 else 0);
      RecordedSets(events, id, row, k, sessions[k].origin);
    }
  }

  /** Recording a row that applies nothing (a deferral, a duplicate, an orphan) leaves the audit alone. */
  lemma SilentRecordKeepsAudit(sessions: Sessions, events: Events, pending: Option<Uuid>, id: Uuid, row: EventRow)
    requires AllAudited(sessions, events, pending)
    requires id !in events || events[id].result.Deferred?
    requires !row.result.Applied? || row.session.None?
    ensures AllAudited(sessions, events[id := row], pending)
  {
    forall k | k in sessions
      ensures Audited(sessions[k], k, events[id := row], if pending == Some(k) then 1 else 0)
    {
      assert Audited(sessions[k], k, events, if pending == Some(k) then 1 else 0);
      RecordedSets(events, id, row, k, sessions[k].origin);
    }
  }

  // ---- Replay ----

  lemma SettleKeepsEvents(before: Sessions, after: Sessions, events: Events, id: Uuid, row: EventRow)
    requires EventsOk(before, events) && id in events
    requires after.Keys == before.Keys
    requires forall k | k in before :: after[k].turnKey == before[k].turnKey && after[k].user == before[k].user
    requires row.request == events[id].request && row.device == events[id].device && row.user == events[id].user
    requires RowFits(row, after)
    ensures EventsOk(after, events[id := row])
  {
    var changed := events[id := row];
    forall user, turn ensures |TurnEvents(changed, user, turn)| <= MAX_EVENTS_PER_TURN {
      assert TurnEvents(changed, user, turn) == TurnEvents(events, user, turn);
    }
  }

  /** What replaying some deferred events of one turn does to both tables. */
  ghost predicate ReplayKeeps(t: Tables, r: Tables, sid: Uuid, pending: Option<Uuid>) {
    && Core(r.sessions, r.events, pending)
    && SessionsEvolve(t.sessions, r.sessions)
    && r.sessions.Keys == t.sessions.Keys && r.events.Keys == t.events.Keys
    && (forall k | k in t.sessions ::
         r.sessions[k].turnKey == t.sessions[k].turnKey && r.sessions[k].origin == t.sessions[k].origin)
    && (forall k | k in t.sessions && k != sid :: r.sessions[k] == t.sessions[k])
    && (forall k | k in t.events :: r.events[k].request == t.events[k].request && r.events[k].user == t.events[k].user
                                   && r.events[k].device == t.events[k].device
                                   && r.events[k].receivedAt == t.events[k].receivedAt)
    && (forall k | k in t.events && !t.events[k].result.Deferred? :: r.events[k] == t.events[k])
  }

  ghost predicate WaitsFor(t: Tables, sid: Uuid, id: Uuid) {
    && sid in t.sessions && t.sessions[sid].turnKey.Some?
    && id in t.events && IsDeferredFor(t.events[id], t.sessions[sid].user, t.sessions[sid].turnKey.value)
  }

  /** What one replayed event leaves behind, apart from the uniqueness of keys and turns. */
  ghost predicate ReplayedRow(t: Tables, r: Tables, sid: Uuid, id: Uuid, pending: Option<Uuid>) {
    && sid in t.sessions && sid in r.sessions && id in r.events
    && AllAudited(r.sessions, r.events, pending)
    && RowFits(r.events[id], r.sessions) && !r.events[id].result.Deferred?
    && r.sessions == t.sessions[sid := r.sessions[sid]]
    && SessionsOk(r.sessions) && SessionsEvolve(t.sessions, r.sessions)
    && r.sessions[sid].turnKey == t.sessions[sid].turnKey
  }

  lemma WaitingRow(t: Tables, sid: Uuid, id: Uuid, pending: Option<Uuid>)
    requires Core(t.sessions, t.events, pending) && WaitsFor(t, sid, id)
    ensures SessionsOk(t.sessions) && EventsOk(t.sessions, t.events) && AllAudited(t.sessions, t.events, pending)
    ensures RowFits(t.events[id], t.sessions) && RowOk(t.sessions[sid])
    ensures t.events[id].request.event.Some? && IsTurnEvent(t.events[id].request.event.value)
  {}

  lemma ReplayInTime(t: Tables, sid: Uuid, id: Uuid, startAt: int, pending: Option<Uuid>)
    requires Core(t.sessions, t.events, pending) && WaitsFor(t, sid, id)
    requires startAt - t.events[id].receivedAt <= DEFERRED_EVENT_TTL_MS && t.events[id].request.event.Some?
    ensures ReplayedRow(t, ReplayOne(t, sid, id, startAt), sid, id, pending)
  {
    hide Core, SessionsOk, EventsOk, AllAudited, ApplySessionEvent, SessionsEvolve, RowOk, SnapshotOf;
    WaitingRow(t, sid, id, pending);
    var was, a := t.events[id], ReplayApplying(t, sid, id, startAt);
    var e := was.request.event.value;
    ApplyingDelta(t.sessions, t.events, sid, was.device, e, was.receivedAt, was.request.context);
    ApplyingKeeps(t.sessions, t.events, sid, was.device, e, was.receivedAt, was.request.context);
    RecordKeepsAudit(t.sessions, t.events, pending, sid, was.device, e, was.receivedAt, was.request.context, id,
      Settle(was, a, startAt));
  }

  lemma ReplayTooLate(t: Tables, sid: Uuid, id: Uuid, startAt: int, pending: Option<Uuid>)
    requires Core(t.sessions, t.events, pending) && WaitsFor(t, sid, id)
    requires startAt - t.events[id].receivedAt > DEFERRED_EVENT_TTL_MS && t.events[id].request.event.Some?
    ensures ReplayedRow(t, ReplayOne(t, sid, id, startAt), sid, id, pending)
  {
    hide Core, SessionsOk, EventsOk, AllAudited, ApplySessionEvent, SnapshotOf;
    WaitingRow(t, sid, id, pending);
    SilentRecordKeepsAudit(t.sessions, t.events, pending, id,
      Settle(t.events[id], ReplayApplying(t, sid, id, startAt), startAt));
  }

  /** Replaying one event rewrites its row, in the columns that hold its result, and at most its session. */
  ghost predicate ReplayFrame(t: Tables, r: Tables, sid: Uuid, id: Uuid) {
    && id in t.events && id in r.events && r.events == t.events[id := r.events[id]]
    && r.events[id].request == t.events[id].request && r.events[id].user == t.events[id].user
    && r.events[id].device == t.events[id].device && r.events[id].receivedAt == t.events[id].receivedAt
    && r.sessions.Keys == t.sessions.Keys
    && forall k | k in t.sessions ::
         && r.sessions[k].user == t.sessions[k].user && r.sessions[k].origin == t.sessions[k].origin
         && (k != sid ==> r.sessions[k] == t.sessions[k])
  }

  lemma ReplayOneFrame(t: Tables, sid: Uuid, id: Uuid, startAt: int)
    ensures sid in t.sessions && id in t.events && t.events[id].request.event.Some? ==>
      ReplayFrame(t, ReplayOne(t, sid, id, startAt), sid, id)
  {}

  lemma FrameKeeps(t: Tables, r: Tables, sid: Uuid, id: Uuid, pending: Option<Uuid>)
    requires EventsOk(t.sessions, t.events) && id in t.events && t.events[id].result.Deferred?
    requires ReplayFrame(t, r, sid, id) && ReplayedRow(t, r, sid, id, pending)
    ensures ReplayKeeps(t, r, sid, pending)
  {
    hide SessionsOk, EventsOk, AllAudited, SessionsEvolve, RowFits;
    SettleKeepsEvents(t.sessions, r.sessions, t.events, id, r.events[id]);
  }

  lemma ReplayOneKeeps(t: Tables, sid: Uuid, id: Uuid, startAt: int, pending: Option<Uuid>)
    requires Core(t.sessions, t.events, pending) && WaitsFor(t, sid, id) && t.events[id].request.event.Some?
    ensures
      var r := ReplayOne(t, sid, id, startAt);
      ReplayKeeps(t, r, sid, pending) && !r.events[id].result.Deferred?
  {
    hide Core, SessionsOk, EventsOk, AllAudited, ReplayOne, RowFits, RowOk, ReplayFrame, ReplayKeeps, SessionsEvolve;
    if startAt - t.events[id].receivedAt <= DEFERRED_EVENT_TTL_MS { ReplayInTime(t, sid, id, startAt, pending); }
    else { ReplayTooLate(t, sid, id, startAt, pending); }
    ReplayOneFrame(t, sid, id, startAt);
    WaitingRow(t, sid, id, pending);
    FrameKeeps(t, ReplayOne(t, sid, id, startAt), sid, id, pending);
  }

  lemma WaitingAreReplayable(t: Tables, sid: Uuid, ids: seq<Uuid>)
    requires EventsOk(t.sessions, t.events) && sid in t.sessions
    requires forall id | id in ids :: WaitsFor(t, sid, id)
    ensures Replayable(t, sid, ids)
  {
    forall id | id in ids ensures id in t.events && t.events[id].request.event.Some? {
      assert WaitsFor(t, sid, id) && RowFits(t.events[id], t.sessions);
    }
  }

  lemma ReplayKeepsTransitive(t: Tables, one: Tables, r: Tables, sid: Uuid, pending: Option<Uuid>)
    requires ReplayKeeps(t, one, sid, pending) && ReplayKeeps(one, r, sid, pending)
    ensures ReplayKeeps(t, r, sid, pending)
  {
    hide Core, Evolves;
    forall k | k in t.sessions ensures Evolves(t.sessions[k], r.sessions[k]) {
      EvolvesTransitive(t.sessions[k], one.sessions[k], r.sessions[k]);
    }
  }

  lemma {:induction false} ReplayKeepsCore(t: Tables, sid: Uuid, ids: seq<Uuid>, startAt: int, pending: Option<Uuid>)
    requires Core(t.sessions, t.events, pending) && sid in t.sessions
    requires forall id | id in ids :: WaitsFor(t, sid, id)
    requires forall i, j | 0 <= i < j < |ids| :: ids[i] != ids[j]
    ensures Replayable(t, sid, ids)
    ensures
      var r := Replay(t, sid, ids, startAt);
      ReplayKeeps(t, r, sid, pending) && forall id | id in ids :: !r.events[id].result.Deferred?
    decreases |ids|
  {
    hide SessionsOk, EventsOk, AllAudited;
    WaitingAreReplayable(t, sid, ids);
    if ids != [] {
      var one := ReplayOne(t, sid, ids[0], startAt);
      ReplayOneKeeps(t, sid, ids[0], startAt, pending);
      forall id | id in ids[1..] ensures WaitsFor(one, sid, id) {
        assert WaitsFor(t, sid, id) && Evolves(t.sessions[sid], one.sessions[sid]);
      }
      ReplayKeepsCore(one, sid, ids[1..], startAt, pending);
      ReplayKeepsTransitive(t, one, Replay(one, sid, ids[1..], startAt), sid, pending);
      assert forall id | id in ids :: id == ids[0] || id in ids[1..];
    }
  }

  // ---- Storing a new event ----

  ghost predicate FreshKeys(events: Events, row: EventRow) {
    forall id | id in events && events[id].device == row.device ::
      && events[id].request.eventId != row.request.eventId
      && (row.request.sequence.Some? ==> events[id].request.sequence != row.request.sequence)
  }

  lemma InsertKeepsLimit(events: Events, id: Uuid, row: EventRow)
    requires TurnsWithinLimit(events) && id !in events
    requires row.request.turnKey.Some? ==>
      |TurnEvents(events, row.user, row.request.turnKey.value)| < MAX_EVENTS_PER_TURN
    ensures TurnsWithinLimit(events[id := row])
  {
    var after := events[id := row];
    forall user, turn ensures |TurnEvents(after, user, turn)| <= MAX_EVENTS_PER_TURN {
      assert |TurnEvents(events, user, turn)| <= MAX_EVENTS_PER_TURN;
      var hit := if row.user == user && row.request.turnKey == Some(turn) then {id} else {};
      assert TurnEvents(after, user, turn) == TurnEvents(events, user, turn) + hit;
    }
  }

  // ---- The start of a turn ----

  /** Inserting a new turn's session, after the active session with its key, if any, was superseded. */
  lemma InsertKeepsSessions(sessions: Sessions, id: Uuid, s: Session)
    requires SessionsOk(sessions) && id !in sessions && RowOk(s)
    requires forall k | k in sessions ::
      && (s.turnKey.Some? ==> !OwnsTurn(sessions[k], s.user, s.turnKey.value))
      && (s.sessionKey.Some? && Active(s) ==> !ActiveWithKey(sessions[k], s.user, s.sessionKey.value))
      && (s.origin.Manual? && Active(s) ==> !ActiveManual(sessions[k], s.user))
    ensures SessionsOk(sessions[id := s]) && SessionsEvolve(sessions, sessions[id := s])
  {}

  lemma SupersedeKeeps(sessions: Sessions, user: Uuid, key: Key, now: int)
    requires SessionsOk(sessions)
    ensures
      var current := FindActiveByKey(sessions, user, key);
      var rest := if current.None? then sessions
        else sessions[current.value := Supersede(sessions[current.value], now)];
      && SessionsOk(rest) && SessionsEvolve(sessions, rest)
      && forall k | k in rest :: !ActiveWithKey(rest[k], user, key)
  {
    var current := FindActiveByKey(sessions, user, key);
    if current.Some? {
      SessionUpdateKeeps(sessions, current.value, Supersede(sessions[current.value], now));
    }
  }

  /** The tables after an accepted start, before its turn's deferred events are replayed. */
  ghost predicate Opened(before: Sessions, a: Applying, user: Uuid, turn: Key) {
    && a.session.Some? && a.session.value in a.sessions
    && OwnsTurn(a.sessions[a.session.value], user, turn)
    && SessionsOk(a.sessions) && SessionsEvolve(before, a.sessions)
    && (forall k | k in a.sessions && k != a.session.value :: k in before && a.sessions[k].turnKey == before[k].turnKey)
  }

  function PendingStart(a: Applying): Option<Uuid> {
    if a.result.Applied? && a.session.Some? && a.session.value in a.sessions
      && a.sessions[a.session.value].origin.Manual?
    then a.session else None
  }

  lemma KeyFound(sessions: Sessions, user: Uuid, key: Key)
    ensures
      var c := FindActiveByKey(sessions, user, key);
      c.Some? ==> c.value in sessions && ActiveWithKey(sessions[c.value], user, key)
  {}

  lemma NewTurnOpens(sessions: Sessions, user: Uuid, key: Key, turn: Key, now: int, ctx: Context, newId: Uuid)
    requires SessionsOk(sessions) && newId !in sessions && FindByTurn(sessions, user, turn).None?
    ensures
      var current := FindActiveByKey(sessions, user, key);
      var rest := if current.None? then sessions
        else sessions[current.value := Supersede(sessions[current.value], now)];
      Opened(sessions, Applying(rest[newId := NewHook(user, key, turn, now, ctx)], Applied, Some(newId)), user, turn)
  {
    KeyFound(sessions, user, key);
    hide SessionsOk, SessionsEvolve, FindActiveByKey, ActiveWithKey;
    SupersedeKeeps(sessions, user, key, now);
    var current := FindActiveByKey(sessions, user, key);
    var rest := if current.None? then sessions else sessions[current.value := Supersede(sessions[current.value], now)];
    forall k | k in rest ensures !OwnsTurn(rest[k], user, turn) { assert !OwnsTurn(sessions[k], user, turn); }
    InsertKeepsSessions(rest, newId, NewHook(user, key, turn, now, ctx));
    EvolveFurther(sessions, rest, rest[newId := NewHook(user, key, turn, now, ctx)]);
  }

  lemma EvolveFurther(before: Sessions, between: Sessions, after: Sessions)
    requires SessionsEvolve(before, between) && SessionsEvolve(between, after)
    ensures SessionsEvolve(before, after)
  {
    hide Evolves;
    forall k | k in before ensures k in after && Evolves(before[k], after[k]) {
      EvolvesTransitive(before[k], between[k], after[k]);
    }
  }

  lemma AdoptionOpens(sessions: Sessions, m: Uuid, user: Uuid, key: Key, turn: Key, now: int, ctx: Context)
    requires SessionsOk(sessions) && m in sessions && ActiveManual(sessions[m], user) && sessions[m].turnKey.None?
    requires FindByTurn(sessions, user, turn).None? && FindActiveByKey(sessions, user, key).None?
    ensures Opened(sessions,
      Applying(sessions[m := Adopt(sessions[m], key, turn, now, ctx)], Applied, Some(m)), user, turn)
  {
    forall k | k in sessions ensures !ActiveWithKey(sessions[k], user, key) && !OwnsTurn(sessions[k], user, turn) {}
    hide FindActiveByKey, FindByTurn;
  }

  lemma KnownTurnOpens(sessions: Sessions, sid: Uuid, user: Uuid, turn: Key, r: EventResult)
    requires SessionsOk(sessions) && FindByTurn(sessions, user, turn) == Some(sid)
    ensures Opened(sessions, Applying(sessions, r, Some(sid)), user, turn)
  {
    hide OneSessionPerTurn, OneActivePerKey, OneActiveManual;
  }

  lemma TurnStartOpens(sessions: Sessions, user: Uuid, key: Key, turn: Key, now: int, ctx: Context, newId: Uuid)
    requires SessionsOk(sessions) && newId !in sessions
    ensures Opened(sessions, ApplyTurnStart(sessions, user, key, turn, now, ctx, newId), user, turn)
    ensures !ApplyTurnStart(sessions, user, key, turn, now, ctx, newId).result.Deferred?
  {
    ManualFound(sessions, user);
    hide SessionsOk, Opened, FindByTurn, FindActiveByKey, FindActiveManual, Active, ActiveManual;
    var same, current, manual :=
      FindByTurn(sessions, user, turn), FindActiveByKey(sessions, user, key), FindActiveManual(sessions, user);
    if same.Some? {
      KnownTurnOpens(sessions, same.value, user, turn,
        ApplyTurnStart(sessions, user, key, turn, now, ctx, newId).result);
    } else if current.None? && manual.Some? && sessions[manual.value].turnKey.None? {
      AdoptionOpens(sessions, manual.value, user, key, turn, now, ctx);
    } else {
      NewTurnOpens(sessions, user, key, turn, now, ctx, newId);
    }
  }

  lemma ManualFound(sessions: Sessions, user: Uuid)
    ensures
      var m := FindActiveManual(sessions, user);
      m.Some? ==> m.value in sessions && ActiveManual(sessions[m.value], user)
  {}

  /** A new session has no events yet; the event rows of older sessions still fit. */
  lemma TurnStartKeepsFits(
    sessions: Sessions, events: Events, user: Uuid, key: Key, turn: Key, now: int, ctx: Context, newId: Uuid)
    requires forall id | id in events :: RowFits(events[id], sessions)
    requires newId !in sessions
    ensures forall id | id in events ::
      RowFits(events[id], ApplyTurnStart(sessions, user, key, turn, now, ctx, newId).sessions)
    ensures Writes(events, newId, Hook) == {} && Stops(events, newId) == {}
  {
    forall id | id in events
      ensures RowFits(events[id], ApplyTurnStart(sessions, user, key, turn, now, ctx, newId).sessions)
      ensures events[id].session != Some(newId)
    {
      assert RowFits(events[id], sessions);
    }
  }

  lemma TurnStartKeepsAudit(
    sessions: Sessions, events: Events, user: Uuid, key: Key, turn: Key, now: int, ctx: Context, newId: Uuid)
    requires Core(sessions, events, None) && newId !in sessions
    ensures
      var a := ApplyTurnStart(sessions, user, key, turn, now, ctx, newId);
      EventsOk(a.sessions, events) && AllAudited(a.sessions, events, PendingStart(a))
  {
    hide OneSessionPerTurn, OneActivePerKey, OneActiveManual, UniqueKeys, TurnsWithinLimit, RowFits;
    var a := ApplyTurnStart(sessions, user, key, turn, now, ctx, newId);
    TurnStartKeepsFits(sessions, events, user, key, turn, now, ctx, newId);
    forall k | k in a.sessions
      ensures Audited(a.sessions[k], k, events, if PendingStart(a) == Some(k) then 1 else 0)
    {
      if k in sessions {
        assert Audited(sessions[k], k, events, 0) && RowOk(sessions[k]);
      }
    }
  }

  // ---- Accepting an event ----

  ghost predicate FreshIds(db: Db, c: EventCall) { c.newSession !in db.sessions && c.newEvent !in db.events }

  /** An accepted event is valid, not stored yet, uses a new sequence number and fits its turn. */
  ghost predicate Acceptable(db: Db, c: EventCall) {
    && Validate(c.dto, c.appNow).None? && DeviceUsable(db, c.auth, c.now)
    && FindStored(db.events, c.auth.device, c.dto.eventId).None?
    && !SequenceUsed(db.events, c.auth.device, c.dto.sequence)
    && !OverTurnLimit(db.events, c)
  }

  lemma AcceptableKeys(db: Db, c: EventCall, row: EventRow)
    requires Acceptable(db, c) && row.device == c.auth.device && row.request == c.dto
    ensures FreshKeys(db.events, row)
  {
    forall id | id in db.events && db.events[id].device == row.device
      ensures db.events[id].request.eventId != row.request.eventId
      ensures row.request.sequence.Some? ==> db.events[id].request.sequence != row.request.sequence
    {
      assert !IsStoredAs(db.events[id], c.auth.device, c.dto.eventId);
    }
  }

  /** Storing the new row after its event was applied (and its turn replayed). */
  lemma StoreKeeps(db: Db, c: EventCall, sessions: Sessions, events: Events, row: EventRow)
    requires Acceptable(db, c) && FreshIds(db, c) && EventsOk(sessions, events)
    requires events.Keys == db.events.Keys
    requires forall k | k in db.events :: events[k].request == db.events[k].request
               && events[k].user == db.events[k].user && events[k].device == db.events[k].device
    requires RowFits(row, sessions) && row.device == c.auth.device && row.user == c.auth.user && row.request == c.dto
    ensures EventsOk(sessions, events[c.newEvent := row])
  {
    AcceptableKeys(db, c, row);
    if c.dto.turnKey.Some? {
      var turn := c.dto.turnKey.value;
      assert TurnEvents(events, c.auth.user, turn) == TurnEvents(db.events, c.auth.user, turn);
    }
    hide RowFits, TurnsWithinLimit, Acceptable, TurnEvents;
    InsertKeepsLimit(events, c.newEvent, row);
  }

  lemma AcceptTurnEventKeeps(db: Db, c: EventCall)
    requires Inv(db) && Acceptable(db, c) && FreshIds(db, c) && IsTurnEvent(c.dto.event.value)
    ensures DeferredAreTurnEvents(db.events) && Inv(Accept(db, c).0)
    ensures SessionsEvolve(db.sessions, Accept(db, c).0.sessions)
  {
    FitsAreTurnEvents(db.sessions, db.events);
    var e, turn := c.dto.event.value, c.dto.turnKey.value;
    var found := FindByTurn(db.sessions, c.auth.user, turn);
    var a := Apply(db.sessions, db.events, c);
    var row := NewRow(a, a.sessions, c);
    if found.Some? {
      var sid := found.value;
      ApplyingKeeps(db.sessions, db.events, sid, c.auth.device, e, c.now, c.dto.context);
      ApplyingDelta(db.sessions, db.events, sid, c.auth.device, e, c.now, c.dto.context);
      RecordKeepsAudit(db.sessions, db.events, None, sid, c.auth.device, e, c.now, c.dto.context, c.newEvent, row);
      assert EventsOk(a.sessions, db.events) by {
        forall id | id in db.events
          ensures RowFits(db.events[id], a.sessions)
        {
          assert RowFits(db.events[id], db.sessions);
        }
      }
    } else {
      SilentRecordKeepsAudit(db.sessions, db.events, None, c.newEvent, row);
    }
    StoreKeeps(db, c, a.sessions, db.events, row);
    AcceptTurnEventStrands(db, c);
  }

  lemma AcceptTurnEventStrands(db: Db, c: EventCall)
    requires Inv(db) && Acceptable(db, c) && FreshIds(db, c) && IsTurnEvent(c.dto.event.value)
    requires DeferredAreTurnEvents(db.events)
    ensures NoStrandedEvents(Accept(db, c).0.sessions, Accept(db, c).0.events)
  {
    AppliedTurns(db, c);
    hide Core, SequenceUsed, OverTurnLimit, FindStored, Apply, FindByTurn;
    var a := Apply(db.sessions, db.events, c);
    StoringStrandsNothing(db.sessions, db.events, a.sessions, c.newEvent, NewRow(a, a.sessions, c));
  }

  /** Applying a turn event renames no turn, and defers the event only if its turn has no session. */
  lemma AppliedTurns(db: Db, c: EventCall)
    requires Inv(db) && Validate(c.dto, c.appNow).None? && IsTurnEvent(c.dto.event.value)
    ensures
      var a := Apply(db.sessions, db.events, c);
      && a.sessions.Keys == db.sessions.Keys
      && (forall k | k in db.sessions ::
           a.sessions[k].user == db.sessions[k].user && a.sessions[k].turnKey == db.sessions[k].turnKey)
      && (a.result.Deferred? ==>
           forall k | k in db.sessions :: !OwnsTurn(db.sessions[k], c.auth.user, c.dto.turnKey.value))
  {
    hide Inv, HasEventFrom, LateStopInTime;
  }

  lemma StoringStrandsNothing(sessions: Sessions, events: Events, after: Sessions, id: Uuid, row: EventRow)
    requires NoStrandedEvents(sessions, events) && after.Keys == sessions.Keys
    requires forall k | k in sessions :: after[k].user == sessions[k].user && after[k].turnKey == sessions[k].turnKey
    requires row.result.Deferred? ==> row.request.turnKey.Some?
    requires row.result.Deferred? ==>
      forall k | k in sessions :: !OwnsTurn(sessions[k], row.user, row.request.turnKey.value)
    ensures NoStrandedEvents(after, events[id := row])
  {
    var stored := events[id := row];
    forall e, sid | e in stored && sid in after && stored[e].result.Deferred?
      ensures !(after[sid].user == stored[e].user && after[sid].turnKey == stored[e].request.turnKey)
    {
      if e == id { assert !OwnsTurn(sessions[sid], row.user, row.request.turnKey.value); }
    }
  }

  lemma AcceptSessionStartKeeps(db: Db, c: EventCall)
    requires Inv(db) && Acceptable(db, c) && FreshIds(db, c) && c.dto.event.value.SessionStart?
    ensures DeferredAreTurnEvents(db.events) && Inv(Accept(db, c).0)
    ensures SessionsEvolve(db.sessions, Accept(db, c).0.sessions)
  {
    FitsAreTurnEvents(db.sessions, db.events);
    hide SessionsOk, EventsOk, AllAudited, SequenceUsed, OverTurnLimit, FindStored, NoStrandedEvents, SnapshotOf;
    var row := NewRow(Apply(db.sessions, db.events, c), db.sessions, c);
    SilentRecordKeepsAudit(db.sessions, db.events, None, c.newEvent, row);
    StoreKeeps(db, c, db.sessions, db.events, row);
    StoringStrandsNothing(db.sessions, db.events, db.sessions, c.newEvent, row);
    SessionsStay(db.sessions);
  }

  lemma SessionsStay(sessions: Sessions)
    ensures SessionsEvolve(sessions, sessions)
  {}

  /** Storing the start's own row settles what an adoption still owed the audit. */
  lemma StartRowSettlesAudit(
    sessions: Sessions, events: Events, a: Applying, pending: Option<Uuid>, id: Uuid, row: EventRow)
    requires AllAudited(sessions, events, pending) && id !in events
    requires row.session == a.session && row.result == a.result && row.request.event == Some(UserPromptSubmit)
    requires forall k | k in sessions ::
      pending == Some(k) <==> (a.result.Applied? && a.session == Some(k) && sessions[k].origin.Manual?)
    ensures AllAudited(sessions, events[id := row], None)
  {
    forall k | k in sessions ensures Audited(sessions[k], k, events[id := row], 0) {
      assert Audited(sessions[k], k, events, if pending == Some(k) then 1 else 0);
      RecordedSets(events, id, row, k, sessions[k].origin);
    }
  }

  lemma StartedTurnStrandsNothing(db: Db, a: Applying, r: Tables, user: Uuid, turn: Key, id: Uuid, row: EventRow)
    requires NoStrandedEvents(db.sessions, db.events) && Opened(db.sessions, a, user, turn)
    requires ReplayKeeps(Tables(a.sessions, db.events), r, a.session.value, PendingStart(a))
    requires forall k | k in db.events && IsDeferredFor(db.events[k], user, turn) :: !r.events[k].result.Deferred?
    requires !row.result.Deferred?
    ensures NoStrandedEvents(r.sessions, r.events[id := row])
  {
    var after := r.events[id := row];
    forall k, sid | k in after && sid in r.sessions && after[k].result.Deferred?
      ensures !(r.sessions[sid].user == after[k].user && r.sessions[sid].turnKey == after[k].request.turnKey)
    {
      assert k != id && db.events[k].result.Deferred?;
      if sid == a.session.value {
        assert Evolves(a.sessions[sid], r.sessions[sid]) && !IsDeferredFor(db.events[k], user, turn);
      } else {
        assert sid in db.sessions && Evolves(db.sessions[sid], a.sessions[sid]) && r.sessions[sid] == a.sessions[sid];
      }
    }
  }

  lemma AcceptTurnStartKeeps(db: Db, c: EventCall)
    requires Inv(db) && Acceptable(db, c) && FreshIds(db, c) && c.dto.event.value.UserPromptSubmit?
    ensures DeferredAreTurnEvents(db.events) && Inv(Accept(db, c).0)
    ensures SessionsEvolve(db.sessions, Accept(db, c).0.sessions)
  {
    FitsAreTurnEvents(db.sessions, db.events);
    var user, turn := c.auth.user, c.dto.turnKey.value;
    var a := Apply(db.sessions, db.events, c);
    TurnStartOpens(db.sessions, user, c.dto.sessionKey, turn, c.now, c.dto.context, c.newSession);
    TurnStartKeepsAudit(db.sessions, db.events, user, c.dto.sessionKey, turn, c.now, c.dto.context, c.newSession);
    var t, sid, ids := Tables(a.sessions, db.events), a.session.value, ReplayList(db.events, user, turn);
    forall id | id in ids ensures WaitsFor(t, sid, id) {}
    ReplayKeepsCore(t, sid, ids, c.now, PendingStart(a));
    var r := Replay(t, sid, ids, c.now);
    var row := NewRow(a, r.sessions, c);
    assert Evolves(a.sessions[sid], r.sessions[sid]);
    StartRowSettlesAudit(r.sessions, r.events, a, PendingStart(a), c.newEvent, row);
    StoreKeeps(db, c, r.sessions, r.events, row);
    forall k | k in db.events && IsDeferredFor(db.events[k], user, turn) ensures !r.events[k].result.Deferred? {
      assert k in Elements(ids);
    }
    StartedTurnStrandsNothing(db, a, r, user, turn, c.newEvent, row);
    forall k | k in db.sessions ensures k in r.sessions && Evolves(db.sessions[k], r.sessions[k]) {
      EvolvesTransitive(db.sessions[k], a.sessions[k], r.sessions[k]);
    }
  }

  // ---- Every transaction ----

  /** An event call either is accepted or leaves sessions, events and idempotency keys alone. */
  lemma ProcessEventCases(db: Db, c: EventCall)
    requires DeferredAreTurnEvents(db.events)
    ensures Acceptable(db, c) ==> ProcessEvent(db, c) == (Accept(db, c).0, Ok(Accept(db, c).1))
    ensures !Acceptable(db, c) ==>
      var after := ProcessEvent(db, c).0;
      after.sessions == db.sessions && after.events == db.events && after.idempotency == db.idempotency
  {}

  lemma ProcessEventKeeps(db: Db, c: EventCall)
    requires Inv(db) && FreshIds(db, c)
    ensures DeferredAreTurnEvents(db.events)
    ensures Inv(ProcessEvent(db, c).0) && SessionsEvolve(db.sessions, ProcessEvent(db, c).0.sessions)
  {
    FitsAreTurnEvents(db.sessions, db.events);
    ProcessEventCases(db, c);
    if Acceptable(db, c) {
      if c.dto.event.value.SessionStart? { AcceptSessionStartKeeps(db, c); }
      else if c.dto.event.value.UserPromptSubmit? { AcceptTurnStartKeeps(db, c); }
      else { AcceptTurnEventKeeps(db, c); }
    } else {
      SameTablesKeep(db, ProcessEvent(db, c).0);
    }
  }

  lemma SameTablesKeep(db: Db, after: Db)
    ensures Inv(db) && after.sessions == db.sessions && after.events == db.events ==>
      Inv(after) && SessionsEvolve(db.sessions, after.sessions)
  {}

  /** A new row's session: no stored event refers to it. */
  lemma NewSessionKeepsEvents(sessions: Sessions, events: Events, id: Uuid, s: Session)
    requires EventsOk(sessions, events) && AllAudited(sessions, events, None) && id !in sessions
    requires s.version == 1 && s.reason.None?
    ensures EventsOk(sessions[id := s], events) && AllAudited(sessions[id := s], events, None)
  {
    hide UniqueKeys, TurnsWithinLimit;
    var after := sessions[id := s];
    forall e | e in events ensures RowFits(events[e], after) && events[e].session != Some(id) {
      assert RowFits(events[e], sessions);
    }
    forall k | k in after ensures Audited(after[k], k, events, 0) {
      if k in sessions { assert Audited(sessions[k], k, events, 0); }
      else { assert Writes(events, id, s.origin) == {} && Stops(events, id) == {}; }
    }
  }

  lemma StartManualKeeps(db: Db, user: Uuid, key: Uuid, now: int, newId: Uuid)
    requires Inv(db) && newId !in db.sessions
    ensures Inv(StartManual(db, user, key, now, newId).0)
    ensures SessionsEvolve(db.sessions, StartManual(db, user, key, now, newId).0.sessions)
  {
    SessionsStay(db.sessions);
    if (user, key) !in db.idempotency && FindActiveManual(db.sessions, user).None? {
      InsertKeepsSessions(db.sessions, newId, NewManual(user, now));
      hide SessionsOk, EventsOk, AllAudited, SessionsEvolve, FindActiveManual, ToSnapshot;
      NewSessionKeepsEvents(db.sessions, db.events, newId, NewManual(user, now));
      NewManualStrandsNothing(db.sessions, db.events, newId, NewManual(user, now));
    }
    hide Core, SessionsEvolve, FindActiveManual, ToSnapshot, NoStrandedEvents;
  }

  lemma NewManualStrandsNothing(sessions: Sessions, events: Events, id: Uuid, s: Session)
    requires EventsOk(sessions, events) && NoStrandedEvents(sessions, events) && s.turnKey.None?
    ensures NoStrandedEvents(sessions[id := s], events)
  {
    hide UniqueKeys, TurnsWithinLimit;
    var after := sessions[id := s];
    forall e, k | e in events && k in after && events[e].result.Deferred?
      ensures !(after[k].user == events[e].user && after[k].turnKey == events[e].request.turnKey)
    {
      assert RowFits(events[e], sessions);
    }
  }

  /** An UPDATE that ends one session for a reason no event accounts for. */
  lemma EndingKeeps(sessions: Sessions, events: Events, sid: Uuid, t: Session)
    requires Core(sessions, events, None) && NoStrandedEvents(sessions, events) && sid in sessions
    requires Active(sessions[sid])
    requires RowOk(t) && Evolves(sessions[sid], t) && !Active(t) && t.version == sessions[sid].version + 1
    requires t.turnKey == sessions[sid].turnKey && t.sessionKey == sessions[sid].sessionKey && !EndedByStop(t)
    ensures Core(sessions[sid := t], events, None) && NoStrandedEvents(sessions[sid := t], events)
    ensures SessionsEvolve(sessions, sessions[sid := t])
  {
    var after := sessions[sid := t];
    SessionUpdateKeeps(sessions, sid, t);
    forall id | id in events ensures RowFits(events[id], after) { assert RowFits(events[id], sessions); }
    forall k | k in after ensures Audited(after[k], k, events, 0) { assert Audited(sessions[k], k, events, 0); }
    forall id, k | id in events && k in after && events[id].result.Deferred?
      ensures !(after[k].user == events[id].user && after[k].turnKey == events[id].request.turnKey)
    {
      assert !(sessions[k].user == events[id].user && sessions[k].turnKey == events[id].request.turnKey);
    }
  }

  lemma EndSessionKeeps(db: Db, user: Uuid, sid: Uuid, o: Outcome, key: Uuid, now: int)
    requires Inv(db)
    ensures Inv(EndSession(db, user, sid, o, key, now).0)
    ensures SessionsEvolve(db.sessions, EndSession(db, user, sid, o, key, now).0.sessions)
  {
    hide EventsOk, AllAudited, OneSessionPerTurn, OneActivePerKey, OneActiveManual, NoStrandedEvents, ToSnapshot;
    if (user, key) !in db.idempotency && sid in db.sessions && db.sessions[sid].user == user
      && Active(db.sessions[sid]) {
      EndingKeeps(db.sessions, db.events, sid, EndManually(db.sessions[sid], o, now));
    }
  }

  lemma CleanupRow(s: Session, now: int, t: Session)
    requires RowOk(s)
    requires t == if HeartbeatOverdue(s, now) then TimeOutHeartbeat(s)
      else if ManualOverdue(s, now) then TimeOutManual(s) else s
    ensures RowOk(t) && Evolves(s, t) && t.turnKey == s.turnKey && t.sessionKey == s.sessionKey
    ensures Active(t) ==> t == s
    ensures t.version - OtherEndings(t) == s.version - OtherEndings(s) && EndedByStop(t) == EndedByStop(s)
  {}

  lemma CleanupKeepsSessions(db: Db, now: int)
    requires SessionsOk(db.sessions)
    ensures SessionsOk(Cleanup(db, now).sessions) && SessionsEvolve(db.sessions, Cleanup(db, now).sessions)
    ensures Cleanup(db, now).sessions.Keys == db.sessions.Keys
    ensures forall k | k in db.sessions ::
      var s, t := db.sessions[k], Cleanup(db, now).sessions[k];
      && t.turnKey == s.turnKey && (Active(t) ==> t == s)
      && t.version - OtherEndings(t) == s.version - OtherEndings(s) && EndedByStop(t) == EndedByStop(s)
  {
    var after := Cleanup(db, now).sessions;
    forall k | k in db.sessions ensures RowOk(after[k]) && Evolves(db.sessions[k], after[k])
      && after[k].turnKey == db.sessions[k].turnKey && after[k].sessionKey == db.sessions[k].sessionKey
      && (Active(after[k]) ==> after[k] == db.sessions[k])
      && after[k].version - OtherEndings(after[k]) == db.sessions[k].version - OtherEndings(db.sessions[k])
      && EndedByStop(after[k]) == EndedByStop(db.sessions[k])
    {
      CleanupRow(db.sessions[k], now, after[k]);
    }
    assert OneSessionPerTurn(after) by {
      forall a, b, user, turn | a in after && b in after && OwnsTurn(after[a], user, turn)
        && OwnsTurn(after[b], user, turn)
        ensures a == b
      {
        assert OwnsTurn(db.sessions[a], user, turn) && OwnsTurn(db.sessions[b], user, turn);
      }
    }
  }

  /** Both timeout UPDATEs together, the events untouched. */
  lemma ExpiryKeeps(db: Db, now: int)
    requires Inv(db)
    ensures
      var after := Cleanup(db, now).sessions;
      Core(after, db.events, None) && NoStrandedEvents(after, db.events) && SessionsEvolve(db.sessions, after)
  {
    hide Cleanup, SessionsOk, AllAudited, NoStrandedEvents, RowFits, UniqueKeys, TurnsWithinLimit;
    CleanupKeepsSessions(db, now);
    var after := Cleanup(db, now).sessions;
    forall id | id in db.events
      ensures RowFits(db.events[id], after)
    {
      SameTurnsFit(db.events[id], db.sessions, after);
    }
    EndingsKeepAudit(db.sessions, after, db.events);
    SameTurnsStrandNothing(db.sessions, after, db.events);
  }

  lemma SameTurnsFit(e: EventRow, sessions: Sessions, after: Sessions)
    ensures (forall k | k in sessions :: k in after && after[k].turnKey == sessions[k].turnKey) ==>
      (RowFits(e, sessions) && SessionsEvolve(sessions, after) ==> RowFits(e, after))
  {}

  lemma EndingsKeepAudit(sessions: Sessions, after: Sessions, events: Events)
    requires AllAudited(sessions, events, None) && SessionsEvolve(sessions, after) && after.Keys == sessions.Keys
    requires forall k | k in sessions :: EndedByStop(after[k]) == EndedByStop(sessions[k])
               && after[k].version - OtherEndings(after[k]) == sessions[k].version - OtherEndings(sessions[k])
    ensures AllAudited(after, events, None)
  {
    hide EndedByStop, OtherEndings;
    forall k | k in after ensures Audited(after[k], k, events, 0) {
      assert Audited(sessions[k], k, events, 0) && Evolves(sessions[k], after[k]);
    }
  }

  lemma SameTurnsStrandNothing(sessions: Sessions, after: Sessions, events: Events)
    requires NoStrandedEvents(sessions, events) && SessionsEvolve(sessions, after) && after.Keys == sessions.Keys
    requires forall k | k in sessions :: after[k].turnKey == sessions[k].turnKey
    ensures NoStrandedEvents(after, events)
  {
    forall id, k | id in events && k in after && events[id].result.Deferred?
      ensures !(after[k].user == events[id].user && after[k].turnKey == events[id].request.turnKey)
    {
      assert Evolves(sessions[k], after[k]);
    }
  }

  lemma OrphansKeepEvents(sessions: Sessions, events: Events, now: int)
    requires EventsOk(sessions, events)
    ensures EventsOk(sessions, IgnoreOrphans(events, now))
  {
    var after := IgnoreOrphans(events, now);
    forall id | id in after ensures RowFits(after[id], sessions) { assert RowFits(events[id], sessions); }
    forall user, turn ensures |TurnEvents(after, user, turn)| <= MAX_EVENTS_PER_TURN {
      assert TurnEvents(after, user, turn) == TurnEvents(events, user, turn);
    }
  }

  lemma OrphansKeepAudit(sessions: Sessions, events: Events, now: int)
    requires AllAudited(sessions, events, None)
    ensures AllAudited(sessions, IgnoreOrphans(events, now), None)
  {
    var after := IgnoreOrphans(events, now);
    forall k | k in sessions ensures Audited(sessions[k], k, after, 0) {
      assert Audited(sessions[k], k, events, 0);
      assert Writes(after, k, sessions[k].origin) == Writes(events, k, sessions[k].origin);
      assert Stops(after, k) == Stops(events, k);
    }
  }

  lemma CleanupKeeps(db: Db, now: int)
    requires Inv(db)
    ensures Inv(Cleanup(db, now)) && SessionsEvolve(db.sessions, Cleanup(db, now).sessions)
  {
    ExpiryKeeps(db, now);
    var expired := db.(sessions := Cleanup(db, now).sessions);
    OrphansKeepEvents(expired.sessions, expired.events, now);
    OrphansKeepAudit(expired.sessions, expired.events, now);
    assert NoStrandedEvents(expired.sessions, IgnoreOrphans(expired.events, now));
  }
}
