/**
 The session service's transactions as functions from one database state to the
 next. A rejected request rolls its transaction back, so it returns the state
 it was given. Hashes are injective and are represented by what they hash.
 */
module SessionSteps {
  import opened Wrappers
  import opened Ordering
  import opened SessionRows

  const MAX_OBSERVED_AT_FUTURE_MS := 300_000
  const MAX_EVENTS_PER_TURN := 500

  datatype Diagnostics = Diagnostics(queueDepth: nat, oldestAgeSeconds: nat, deadLetterCount: nat)

  /** A client timestamp keeps its text, which is what the request hash covers. */
  datatype Timestamp = Timestamp(text: string, ms: int)

  /** A request body. An event name the server does not know is None. */
  datatype Dto = Dto(
    eventId: Uuid, sequence: Option<nat>, event: Option<EventName>,
    sessionKey: Key, turnKey: Option<Key>, observedAt: Timestamp,
    context: Context, diagnostics: Option<Diagnostics>)

  datatype EventResult = Applied | Duplicate | Deferred | IgnoredTerminal | IgnoredOrphan

  datatype Response = Response(eventId: Uuid, result: EventResult, session: Option<Snapshot>)

  /** A row of integration_events; the columns copied from the request are read through it. */
  datatype EventRow = EventRow(
    device: Uuid, user: Uuid, session: Option<Uuid>, receivedAt: int,
    result: EventResult, request: Dto, response: Response)

  datatype Device = Device(
    user: Uuid, revoked: bool, expiresAt: int, lastSeenAt: int, diagnostics: Option<(Diagnostics, int)>)

  datatype DeviceAuth = DeviceAuth(device: Uuid, user: Uuid)

  /** What an idempotency key's request hash covers. Foreign stands for another service's operation. */
  datatype ApiRequest = ManualStart | End(session: Uuid, outcome: Outcome) | Foreign(operation: nat)
  datatype ApiResponse = Started(created: bool, session: Snapshot) | Ended(session: Snapshot) | OtherResponse
  datatype Stored = Stored(request: ApiRequest, response: ApiResponse)

  datatype Error =
    | UnsupportedEvent | ValidationError | DeviceAuthRequired
    | IdempotencyKeyReused | DeviceSequenceReused | TurnEventLimitExceeded | SessionNotFound

  type Sessions = map<Uuid, Session>
  type Events = map<Uuid, EventRow>
  type IdempotencyKeys = map<(Uuid, Uuid), Stored>

  datatype Db = Db(
    sessions: Sessions, events: Events, devices: map<Uuid, Device>,
    deletedUsers: set<Uuid>, idempotency: IdempotencyKeys)

  // ---- Queries on sessions; each returns the first matching row or none ----

  predicate OwnsTurn(s: Session, user: Uuid, turn: Key) { s.user == user && s.turnKey == Some(turn) }

  predicate ActiveWithKey(s: Session, user: Uuid, key: Key) { s.user == user && s.sessionKey == Some(key) && Active(s) }

  predicate ActiveManual(s: Session, user: Uuid) { s.user == user && s.origin.Manual? && Active(s) }

  ghost function FindByTurn(sessions: Sessions, user: Uuid, turn: Key): Option<Uuid> {
    if id :| id in sessions && OwnsTurn(sessions[id], user, turn) then Some(id) else None
  }

  ghost function FindActiveByKey(sessions: Sessions, user: Uuid, key: Key): Option<Uuid> {
    if id :| id in sessions && ActiveWithKey(sessions[id], user, key) then Some(id) else None
  }

  ghost function FindActiveManual(sessions: Sessions, user: Uuid): Option<Uuid> {
    if id :| id in sessions && ActiveManual(sessions[id], user) then Some(id) else None
  }

  // ---- Queries on events ----

  predicate IsDeferredFor(e: EventRow, user: Uuid, turn: Key) {
    e.user == user && e.request.turnKey == Some(turn) && e.result.Deferred?
  }

  function TurnEvents(events: Events, user: Uuid, turn: Key): set<Uuid> {
    set id | id in events && events[id].user == user && events[id].request.turnKey == Some(turn)
  }

  function DeferredEvents(events: Events, user: Uuid, turn: Key): set<Uuid> {
    set id | id in events && IsDeferredFor(events[id], user, turn)
  }

  predicate ReceivedBefore(events: Events, a: Uuid, b: Uuid) {
    && a in events && b in events
    && (events[a].receivedAt < events[b].receivedAt
        || (events[a].receivedAt == events[b].receivedAt && a < b))
  }

  ghost function ReplayOrder(events: Events): (Uuid, Uuid) -> bool {
    (a: Uuid, b: Uuid) => ReceivedBefore(events, a, b)
  }

  /** The deferred events of a turn ordered by receipt time and then by id. */
  ghost function ReplayList(events: Events, user: Uuid, turn: Key): (r: seq<Uuid>)
    ensures Elements(r) == DeferredEvents(events, user, turn)
    ensures forall id | id in r :: id in events && IsDeferredFor(events[id], user, turn)
    ensures forall i, j | 0 <= i < j < |r| :: r[i] != r[j]
  {
    var r := Ordered(DeferredEvents(events, user, turn), ReplayOrder(events));
    assert forall id | id in r :: id in Elements(r);
    assert forall i, j | 0 <= i < j < |r| :: ReplayOrder(events)(r[i], r[j]);
    r
  }

  predicate HasEventFrom(events: Events, sid: Uuid, device: Uuid) {
    exists id :: id in events && events[id].session == Some(sid) && events[id].device == device
  }

  // ---- Applying one event ----

  /** The result of applying an event: the session table afterwards and the session concerned, if any. */
  datatype Applying = Applying(sessions: Sessions, result: EventResult, session: Option<Uuid>)

  ghost function ApplySessionEvent(
    sessions: Sessions, events: Events, sid: Uuid, device: Uuid, e: EventName, receivedAt: int,
      ctx: Context): (r: Applying)
    requires sid in sessions
  {
    var s := sessions[sid];
    if Active(s) then
      Applying(sessions[sid := ApplyToActive(s, e, receivedAt, ctx)], Applied, Some(sid))
    else if LateStopInTime(s, e, receivedAt) && HasEventFrom(events, sid, device) then
      Applying(sessions[sid := RecoverLateStop(s, ctx)], Applied, Some(sid))
    else
      Applying(sessions, IgnoredTerminal, Some(sid))
  }

  ghost function ApplyTurnStart(
    sessions: Sessions, user: Uuid, sessionKey: Key, turnKey: Key, receivedAt: int, ctx: Context, newId: Uuid): Applying
  {
    var same := FindByTurn(sessions, user, turnKey);
    var current := FindActiveByKey(sessions, user, sessionKey);
    var manual := FindActiveManual(sessions, user);
    if same.Some? then
      Applying(sessions, if Active(sessions[same.value]) then Duplicate else IgnoredTerminal, same)
    else if current.None? && manual.Some? && sessions[manual.value].turnKey.None? then
      var m := manual.value;
      Applying(sessions[m := Adopt(sessions[m], sessionKey, turnKey, receivedAt, ctx)], Applied, manual)
    else
      var rest := if current.None? then sessions
                  else sessions[current.value := Supersede(sessions[current.value], receivedAt)];
      Applying(rest[newId := NewHook(user, sessionKey, turnKey, receivedAt, ctx)], Applied, Some(newId))
  }

  // ---- Replaying deferred events after their turn's start ----

  datatype Tables = Tables(sessions: Sessions, events: Events)

  function SnapshotOf(sessions: Sessions, sid: Option<Uuid>, now: int): Option<Snapshot> {
    if sid.Some? && sid.value in sessions then Some(ToSnapshot(sid.value, sessions[sid.value], now)) else None
  }

  function Settle(row: EventRow, a: Applying, now: int): EventRow {
    row.(session := a.session, result := a.result,
         response := Response(row.request.eventId, a.result, SnapshotOf(a.sessions, a.session, now)))
  }

  ghost function ReplayApplying(t: Tables, sid: Uuid, id: Uuid, startAt: int): Applying
    requires sid in t.sessions && id in t.events && t.events[id].request.event.Some?
  {
    var row := t.events[id];
    if startAt - row.receivedAt > DEFERRED_EVENT_TTL_MS then Applying(t.sessions, IgnoredOrphan, None)
    else ApplySessionEvent(t.sessions, t.events, sid, row.device, row.request.event.value, row.receivedAt,
      row.request.context)
  }

  ghost function ReplayOne(t: Tables, sid: Uuid, id: Uuid, startAt: int): (r: Tables)
    requires sid in t.sessions && id in t.events && t.events[id].request.event.Some?
    ensures r.sessions.Keys == t.sessions.Keys && r.events.Keys == t.events.Keys
    ensures forall k | k in t.events && k != id :: r.events[k] == t.events[k]
    ensures r.events[id].request == t.events[id].request
  {
    var a := ReplayApplying(t, sid, id, startAt);
    Tables(a.sessions, t.events[id := Settle(t.events[id], a, startAt)])
  }

  ghost predicate Replayable(t: Tables, sid: Uuid, ids: seq<Uuid>) {
    && sid in t.sessions
    && forall id | id in ids :: id in t.events && t.events[id].request.event.Some?
  }

  ghost function Replay(t: Tables, sid: Uuid, ids: seq<Uuid>, startAt: int): (r: Tables)
    requires Replayable(t, sid, ids)
    ensures r.sessions.Keys == t.sessions.Keys && r.events.Keys == t.events.Keys
    decreases |ids|
  {
    if ids == [] then t else Replay(ReplayOne(t, sid, ids[0], startAt), sid, ids[1..], startAt)
  }

  // ---- POST /integrations/events ----

  datatype EventCall = EventCall(
    auth: DeviceAuth, dto: Dto, appNow: int, now: int, newSession: Uuid, newEvent: Uuid)

  function Validate(dto: Dto, appNow: int): Option<Error> {
    if dto.event.None? then Some(UnsupportedEvent)
    else
      var e := dto.event.value;
      if !e.SessionStart? && dto.turnKey.None? then Some(ValidationError)
      else if e.SessionStart? && (dto.context.workspace.Some? || dto.context.operation.Some?) then Some(ValidationError)
      else if dto.context.operation.Some? && !(e.PreToolUse? || e.PermissionRequest? || e.PostToolUse?)
        then Some(ValidationError)
      else if dto.observedAt.ms > appNow + MAX_OBSERVED_AT_FUTURE_MS then Some(ValidationError)
      else if dto.diagnostics.Some? && !e.Heartbeat? then Some(ValidationError)
      else None
  }

  predicate DeviceUsable(db: Db, auth: DeviceAuth, now: int) {
    && auth.device in db.devices
    && var d := db.devices[auth.device];
       d.user == auth.user && !d.revoked && d.expiresAt > now && d.user !in db.deletedUsers
  }

  predicate IsStoredAs(row: EventRow, device: Uuid, eventId: Uuid) {
    row.device == device && row.request.eventId == eventId
  }

  ghost function FindStored(events: Events, device: Uuid, eventId: Uuid): Option<Uuid> {
    if id :| id in events && IsStoredAs(events[id], device, eventId) then Some(id) else None
  }

  predicate SequenceUsed(events: Events, device: Uuid, n: Option<nat>) {
    n.Some? && exists id :: id in events && events[id].device == device && events[id].request.sequence == n
  }

  function Touch(db: Db, c: EventCall, report: Option<Diagnostics>): map<Uuid, Device>
    requires c.auth.device in db.devices
  {
    var d := db.devices[c.auth.device].(lastSeenAt := c.now);
    db.devices[c.auth.device := if report.Some? then d.(diagnostics := Some((report.value, c.now))) else d]
  }

  predicate OverTurnLimit(events: Events, c: EventCall) {
    c.dto.turnKey.Some? && |TurnEvents(events, c.auth.user, c.dto.turnKey.value)| >= MAX_EVENTS_PER_TURN
  }

  ghost function Apply(sessions: Sessions, events: Events, c: EventCall): Applying
    requires Validate(c.dto, c.appNow).None?
  {
    var e := c.dto.event.value;
    if e.SessionStart? then Applying(sessions, Applied, None)
    else if e.UserPromptSubmit? then
      ApplyTurnStart(sessions, c.auth.user, c.dto.sessionKey, c.dto.turnKey.value, c.now, c.dto.context, c.newSession)
    else
      var sid := FindByTurn(sessions, c.auth.user, c.dto.turnKey.value);
      if sid.None? then Applying(sessions, Deferred, None)
      else ApplySessionEvent(sessions, events, sid.value, c.auth.device, e, c.now, c.dto.context)
  }

  /** What the event table must satisfy for its deferred rows to be replayed. */
  ghost predicate DeferredAreTurnEvents(events: Events) {
    forall id | id in events && events[id].result.Deferred? ::
      events[id].request.event.Some? && IsTurnEvent(events[id].request.event.value)
  }

  /** Applying a start is followed by replaying what its turn had deferred. */
  ghost function ApplyAndReplay(sessions: Sessions, events: Events, c: EventCall): Tables
    requires Validate(c.dto, c.appNow).None? && DeferredAreTurnEvents(events)
  {
    var a := Apply(sessions, events, c);
    if c.dto.event.value.UserPromptSubmit? && a.session.Some? then
      Replay(Tables(a.sessions, events), a.session.value,
             ReplayList(events, c.auth.user, c.dto.turnKey.value), c.now)
    else Tables(a.sessions, events)
  }

  /** The row stored for an accepted event. */
  ghost function NewRow(a: Applying, after: Sessions, c: EventCall): EventRow {
    EventRow(c.auth.device, c.auth.user, a.session, c.now, a.result, c.dto,
             Response(c.dto.eventId, a.result, SnapshotOf(after, a.session, c.now)))
  }

  ghost function Accept(db: Db, c: EventCall): (Db, Response)
    requires Validate(c.dto, c.appNow).None? && DeferredAreTurnEvents(db.events) && c.auth.device in db.devices
  {
    var a := Apply(db.sessions, db.events, c);
    var t := ApplyAndReplay(db.sessions, db.events, c);
    var row := NewRow(a, t.sessions, c);
    (db.(sessions := t.sessions, events := t.events[c.newEvent := row],
         devices := Touch(db, c, c.dto.diagnostics)),
     row.response)
  }

  ghost function ProcessEvent(db: Db, c: EventCall): (Db, Result<Response, Error>)
    requires DeferredAreTurnEvents(db.events)
  {
    var invalid := Validate(c.dto, c.appNow);
    var stored := FindStored(db.events, c.auth.device, c.dto.eventId);
    if invalid.Some? then (db, Err(invalid.value))
    else if !DeviceUsable(db, c.auth, c.now) then (db, Err(DeviceAuthRequired))
    else if stored.Some? then
      var row := db.events[stored.value];
      if row.request != c.dto then (db, Err(IdempotencyKeyReused))
      else (db.(devices := Touch(db, c, None)), Ok(row.response))
    else if SequenceUsed(db.events, c.auth.device, c.dto.sequence) then (db, Err(DeviceSequenceReused))
    else if OverTurnLimit(db.events, c) then (db, Err(TurnEventLimitExceeded))
    else
      var r := Accept(db, c);
      (r.0, Ok(r.1))
  }

  // ---- Manual sessions ----

  ghost function StartManual(db: Db, user: Uuid, key: Uuid, now: int, newId: Uuid): (Db, Result<ApiResponse, Error>) {
    if (user, key) in db.idempotency then
      var stored := db.idempotency[(user, key)];
      (db, if stored.request.ManualStart? then Ok(stored.response) else Err(IdempotencyKeyReused))
    else
      var current := FindActiveManual(db.sessions, user);
      var id := if current.Some? then current.value else newId;
      var sessions := if current.Some? then db.sessions else db.sessions[newId := NewManual(user, now)];
      var response := Started(current.None?, ToSnapshot(id, sessions[id], now));
      (db.(sessions := sessions, idempotency := db.idempotency[(user, key) := Stored(ManualStart, response)]),
       Ok(response))
  }

  function EndSession(
    db: Db, user: Uuid, sid: Uuid, o: Outcome, key: Uuid, now: int): (Db, Result<ApiResponse, Error>) {
    if (user, key) in db.idempotency then
      var stored := db.idempotency[(user, key)];
      (db, if stored.request == End(sid, o) then Ok(stored.response) else Err(IdempotencyKeyReused))
    else if !(sid in db.sessions && db.sessions[sid].user == user) then (db, Err(SessionNotFound))
    else
      var s := db.sessions[sid];
      var sessions := if Active(s) then db.sessions[sid := EndManually(s, o, now)] else db.sessions;
      var response := Ended(ToSnapshot(sid, sessions[sid], now));
      (db.(sessions := sessions, idempotency := db.idempotency[(user, key) := Stored(End(sid, o), response)]),
       Ok(response))
  }

  // ---- The recovery job ----

  function ExpireHeartbeats(sessions: Sessions, now: int): Sessions {
    map id | id in sessions ::
      if HeartbeatOverdue(sessions[id], now) then TimeOutHeartbeat(sessions[id]) else sessions[id]
  }

  function ExpireManual(sessions: Sessions, now: int): Sessions {
    map id | id in sessions :: if ManualOverdue(sessions[id], now) then TimeOutManual(sessions[id]) else sessions[id]
  }

  predicate IsOrphan(e: EventRow, now: int) { e.result.Deferred? && e.receivedAt <= now - DEFERRED_EVENT_TTL_MS }

  function Orphan(e: EventRow): EventRow {
    e.(result := IgnoredOrphan, response := Response(e.request.eventId, IgnoredOrphan, None))
  }

  function IgnoreOrphans(events: Events, now: int): Events {
    map id | id in events :: if IsOrphan(events[id], now) then Orphan(events[id]) else events[id]
  }

  function Cleanup(db: Db, now: int): Db {
    db.(sessions := ExpireManual(ExpireHeartbeats(db.sessions, now), now), events := IgnoreOrphans(db.events, now))
  }
}
