/**
 One row of the ai_sessions table and every way the server writes such a row.
 Each write is an UPDATE or INSERT statement of the session service or of its
 recovery job; times are milliseconds.
 */
module SessionRows {
  import opened Wrappers

  /** A uuid as its 128-bit value: the database orders uuids by that value. */
  type Uuid = nat
  type Key = string

  const DEFERRED_EVENT_TTL_MS := 86_400_000
  const HEARTBEAT_TIMEOUT_MS := 120_000
  const MANUAL_TIMEOUT_MS := 43_200_000

  datatype Status = Running | WaitingForUser | Completed | Failed | Abandoned
  datatype Origin = Hook | Manual
  datatype Timing = Exact | Degraded
  datatype Reason =
    | HookStop | ManualCompleted | RecoveredLateStop
    | ManualFailed
    | ManualCancelled | HeartbeatTimeout | ManualTimeout | SupersededByNewTurn

  datatype EventName =
    | SessionStart | UserPromptSubmit | PreToolUse | PermissionRequest | PostToolUse | Stop | Heartbeat

  /** The sanitized labels an event may carry. */
  datatype Context = Context(workspace: Option<string>, operation: Option<string>)

  datatype Outcome = EndCompleted | EndFailed | EndAbandoned

  datatype Session = Session(
    user: Uuid, status: Status, origin: Origin,
    sessionKey: Option<Key>, turnKey: Option<Key>,
    startedAt: int, endedAt: Option<int>, lastActivityAt: int,
    reason: Option<Reason>, timing: Timing,
    workspace: Option<string>, operation: Option<string>, version: nat)

  predicate Active(s: Session) { s.status.Running? || s.status.WaitingForUser? }

  /** Events that act on a running turn, as opposed to opening a session or a turn. */
  predicate IsTurnEvent(e: EventName) { !e.SessionStart? && !e.UserPromptSubmit? }

  function ReasonStatus(r: Reason): Status {
    match r
    case HookStop | ManualCompleted | RecoveredLateStop => Completed
    case ManualFailed => Failed
    case _ => Abandoned
  }

  /** The row constraints of the schema, with the key columns tied to the origin. */
  predicate RowOk(s: Session) {
    && s.lastActivityAt >= s.startedAt
    && (s.endedAt.Some? ==> s.endedAt.value >= s.startedAt)
    && (Active(s) <==> s.endedAt.None?)
    && (Active(s) <==> s.reason.None?)
    && (s.reason.Some? ==> s.status == ReasonStatus(s.reason.value))
    && s.version > 0
    && (s.origin.Hook? ==> s.turnKey.Some?)
    && (s.turnKey.Some? <==> s.sessionKey.Some?)
  }

  /** An automatic timeout that a late Stop may still repair. */
  predicate Recoverable(s: Session) { s.status.Abandoned? && s.reason == Some(HeartbeatTimeout) }

  predicate RecoveredFrom(s: Session, t: Session) {
    t == s.(status := Completed, reason := Some(RecoveredLateStop), timing := Degraded,
            workspace := t.workspace, operation := t.operation, version := s.version + 1)
  }

  /** What any number of server steps may do to a row: the life cycle of a session. */
  predicate Evolves(s: Session, t: Session) {
    && t.user == s.user && t.origin == s.origin && t.startedAt == s.startedAt
    && s.lastActivityAt <= t.lastActivityAt
    && s.version <= t.version && (s.version == t.version ==> t == s)
    && (s.turnKey.Some? ==> t.turnKey == s.turnKey && t.sessionKey == s.sessionKey)
    && (s.timing.Degraded? ==> t.timing.Degraded?)
    && (s.endedAt.Some? ==> t.endedAt == s.endedAt)
    && (!Active(s) ==> t == s || (Recoverable(s) && RecoveredFrom(s, t)))
  }

  lemma EvolvesTransitive(s: Session, t: Session, u: Session)
    requires Evolves(s, t) && Evolves(t, u)
    ensures Evolves(s, u)
  {}

  // ---- INSERT statements ----

  function NewManual(user: Uuid, now: int): Session {
    Session(user, Running, Manual, None, None, now, None, now, None, Exact, None, None, 1)
  }

  function NewHook(user: Uuid, sessionKey: Key, turnKey: Key, now: int, ctx: Context): Session {
    Session(user, Running, Hook, Some(sessionKey), Some(turnKey), now, None, now, None, Exact,
            ctx.workspace, ctx.operation, 1)
  }

  // ---- UPDATE statements ----

  function ManualTerminal(o: Outcome): Reason {
    match o
    case EndCompleted => ManualCompleted
    case EndFailed => ManualFailed
    case EndAbandoned => ManualCancelled
  }

  function EndManually(s: Session, o: Outcome, now: int): Session {
    s.(status := ReasonStatus(ManualTerminal(o)), endedAt := Some(Max(now, s.startedAt)),
       lastActivityAt := Max(s.lastActivityAt, now), reason := Some(ManualTerminal(o)),
       version := s.version + 1)
  }

  function Supersede(s: Session, now: int): Session {
    s.(status := Abandoned, endedAt := Some(Max(now, s.startedAt)),
       lastActivityAt := Max(s.lastActivityAt, now), reason := Some(SupersededByNewTurn),
       version := s.version + 1)
  }

  function Adopt(s: Session, sessionKey: Key, turnKey: Key, now: int, ctx: Context): Session {
    s.(sessionKey := Some(sessionKey), turnKey := Some(turnKey),
       workspace := Coalesce(ctx.workspace, s.workspace),
       operation := Coalesce(ctx.operation, s.operation),
       lastActivityAt := Max(s.lastActivityAt, now), version := s.version + 1)
  }

  function EventStatus(current: Status, e: EventName): Status {
    match e
    case PermissionRequest => WaitingForUser
    case PostToolUse => Running
    case Stop => Completed
    case _ => current
  }

  function ApplyToActive(s: Session, e: EventName, receivedAt: int, ctx: Context): Session {
    var at := Max(receivedAt, s.startedAt);
    s.(status := EventStatus(s.status, e),
       endedAt := if e.Stop? then Some(at) else None,
       lastActivityAt := Max(s.lastActivityAt, at),
       reason := if e.Stop? then Some(HookStop) else None,
       timing := if receivedAt < s.startedAt then Degraded else s.timing,
       workspace := Coalesce(ctx.workspace, s.workspace),
       operation := Coalesce(ctx.operation, s.operation),
       version := s.version + 1)
  }

  predicate LateStopInTime(s: Session, e: EventName, receivedAt: int) {
    e.Stop? && Recoverable(s) && s.endedAt.Some? && receivedAt - s.endedAt.value <= DEFERRED_EVENT_TTL_MS
  }

  function RecoverLateStop(s: Session, ctx: Context): Session {
    s.(status := Completed, reason := Some(RecoveredLateStop), timing := Degraded,
       workspace := Coalesce(ctx.workspace, s.workspace),
       operation := Coalesce(ctx.operation, s.operation), version := s.version + 1)
  }

  predicate HeartbeatOverdue(s: Session, now: int) {
    Active(s) && s.turnKey.Some? && s.lastActivityAt <= now - HEARTBEAT_TIMEOUT_MS
  }

  function TimeOutHeartbeat(s: Session): Session {
    s.(status := Abandoned, endedAt := Some(s.lastActivityAt + HEARTBEAT_TIMEOUT_MS),
       reason := Some(HeartbeatTimeout), timing := Degraded, version := s.version + 1)
  }

  predicate ManualOverdue(s: Session, now: int) {
    Active(s) && s.turnKey.None? && s.startedAt <= now - MANUAL_TIMEOUT_MS
  }

  function TimeOutManual(s: Session): Session {
    s.(status := Abandoned, endedAt := Some(s.startedAt + MANUAL_TIMEOUT_MS),
       lastActivityAt := Max(s.lastActivityAt, s.startedAt + MANUAL_TIMEOUT_MS),
       reason := Some(ManualTimeout), timing := Degraded, version := s.version + 1)
  }

  // ---- What a client is shown ----

  datatype Snapshot = Snapshot(
    id: Uuid, status: Status, origin: Origin, autoLinked: bool,
    startedAt: int, endedAt: Option<int>, lastActivityAt: int, durationMs: int,
    reason: Option<Reason>, timing: Timing,
    workspace: Option<string>, operation: Option<string>, version: nat)

  function ToSnapshot(id: Uuid, s: Session, now: int): Snapshot {
    var end := if s.endedAt.Some? then s.endedAt.value else now;
    Snapshot(id, s.status, s.origin, s.turnKey.Some?, s.startedAt, s.endedAt, s.lastActivityAt,
             Max(0, end - s.startedAt), s.reason, s.timing, s.workspace, s.operation, s.version)
  }

  /** Every UPDATE keeps the row constraints and the life cycle and counts as exactly one version,
      whatever the clock says: no write relies on time moving forward. */
  lemma WritesKeepRow(s: Session, now: int, o: Outcome, e: EventName, ctx: Context, sessionKey: Key, turnKey: Key)
    requires RowOk(s)
    ensures Active(s) ==>
      forall t | t in {EndManually(s, o, now), Supersede(s, now), ApplyToActive(s, e, now, ctx),
                       TimeOutHeartbeat(s), TimeOutManual(s)} ::
        RowOk(t) && Evolves(s, t) && t.version == s.version + 1
    ensures Active(s) && s.turnKey.None? ==>
      var t := Adopt(s, sessionKey, turnKey, now, ctx);
      RowOk(t) && Evolves(s, t) && t.version == s.version + 1
    ensures Recoverable(s) ==>
      var t := RecoverLateStop(s, ctx);
      RowOk(t) && Evolves(s, t) && t.version == s.version + 1
  {}
}
