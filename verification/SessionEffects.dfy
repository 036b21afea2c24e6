/**
 What a delivered event does to the tables, every column and every limit
 written out: which session it changes and how, when a late Stop repairs a
 timeout, why an event is refused, and what is stored and answered.
 */
module SessionEffects {
  import opened Wrappers
  import opened SessionRows
  import opened SessionSteps
  import opened SessionInvariants

  predicate Open(s: Session) { s.status == Running || s.status == WaitingForUser }

  // ---- One event and its session ----

  /** An open session always takes the event. An ended one takes only a Stop, only if a missing
      heartbeat ended it, no more than a day ago, and a device that was heard before sends it;
      everything else is ignored and leaves the row alone. */
  predicate EventEffect(s: Session, t: Session, heard: bool, e: EventName, at: int, ctx: Context, r: EventResult) {
    var told := s.(workspace := if ctx.workspace.Some? then ctx.workspace else s.workspace,
                   operation := if ctx.operation.Some? then ctx.operation else s.operation,
                   version := s.version + 1);
    if Open(s) then
      && r.Applied?
      && t == told.(
           status := if e == PermissionRequest then WaitingForUser else if e == PostToolUse then Running
                     else if e == Stop then Completed else s.status,
           reason := if e == Stop then Some(HookStop) else None,
           endedAt := if e != Stop then None else if at < s.startedAt then Some(s.startedAt) else Some(at),
           lastActivityAt := if at < s.lastActivityAt then s.lastActivityAt else at,
           timing := if at < s.startedAt then Degraded else s.timing)
    else if e == Stop && s.status.Abandoned? && s.reason == Some(HeartbeatTimeout) && s.endedAt.Some?
      && at <= s.endedAt.value + 86_400_000 && heard then
      r.Applied? && t == told.(status := Completed, reason := Some(RecoveredLateStop), timing := Degraded)
    else
      r.IgnoredTerminal? && t == s
  }

  lemma EventMeaning(sessions: Sessions, events: Events, sid: Uuid, device: Uuid, e: EventName, at: int, ctx: Context)
    requires sid in sessions && RowOk(sessions[sid])
    ensures
      var a := ApplySessionEvent(sessions, events, sid, device, e, at, ctx);
      var heard := exists id :: id in events && events[id].session == Some(sid) && events[id].device == device;
      && a.session == Some(sid) && sid in a.sessions && a.sessions == sessions[sid := a.sessions[sid]]
      && EventEffect(sessions[sid], a.sessions[sid], heard, e, at, ctx, a.result)
  {}

  // ---- What a reply shows ----

  /** The session as it stands, with the time it has taken so far or took in all. */
  predicate Shows(p: Snapshot, id: Uuid, s: Session, now: int) {
    && p.id == id && p.status == s.status && p.origin == s.origin && p.version == s.version
    && p.autoLinked == s.turnKey.Some? && p.reason == s.reason && p.timing == s.timing
    && p.startedAt == s.startedAt && p.endedAt == s.endedAt && p.lastActivityAt == s.lastActivityAt
    && p.workspace == s.workspace && p.operation == s.operation
    && var end := if s.endedAt.Some? then s.endedAt.value else now;
       p.durationMs == if end < s.startedAt then 0 else end - s.startedAt
  }

  /** A deferred event that waited more than a day is given up; any other has, at the time it was
      received, the effect it would have had then. */
  lemma ReplayedMeaning(t: Tables, sid: Uuid, id: Uuid, startAt: int)
    requires sid in t.sessions && RowOk(t.sessions[sid]) && id in t.events && t.events[id].request.event.Some?
    ensures
      var r := ReplayOne(t, sid, id, startAt);
      var was, row := t.events[id], r.events[id];
      && r.events == t.events[id := row] && r.sessions == t.sessions[sid := r.sessions[sid]]
      && row == was.(session := row.session, result := row.result,
                     response := Response(was.request.eventId, row.result, row.response.session))
      && if was.receivedAt + 86_400_000 < startAt then
           row.result == IgnoredOrphan && row.session == None && row.response.session == None
           && r.sessions[sid] == t.sessions[sid]
         else
           var heard := exists k :: k in t.events && t.events[k].session == Some(sid)
                                     && t.events[k].device == was.device;
           && row.session == Some(sid) && row.response.session.Some?
           && Shows(row.response.session.value, sid, r.sessions[sid], startAt)
           && EventEffect(t.sessions[sid], r.sessions[sid], heard, was.request.event.value, was.receivedAt,
                was.request.context, row.result)
  {
    hide ApplySessionEvent, EventEffect, RowOk;
    EventMeaning(t.sessions, t.events, sid, t.events[id].device, t.events[id].request.event.value,
      t.events[id].receivedAt, t.events[id].request.context);
  }

  // ---- Refusals ----

  /** The request breaks a rule: a turn event without a turn, labels on an event that carries none, a
      client clock more than five minutes ahead, or diagnostics outside a heartbeat. */
  predicate Malformed(dto: Dto, e: EventName, appNow: int) {
    || (e != SessionStart && dto.turnKey == None)
    || (e == SessionStart && dto.context.workspace != None)
    || (e !in {PreToolUse, PermissionRequest, PostToolUse} && dto.context.operation != None)
    || dto.observedAt.ms > appNow + 300_000
    || (e != Heartbeat && dto.diagnostics != None)
  }

  /** The device is linked to the user, not revoked, not expired, and the user not deleted. */
  predicate MayCall(db: Db, auth: DeviceAuth, now: int) {
    && auth.device in db.devices && db.devices[auth.device].user == auth.user
    && !db.devices[auth.device].revoked && now < db.devices[auth.device].expiresAt
    && auth.user !in db.deletedUsers
  }

  /** Why an event that is not stored yet is refused, or an event stored under its id answered again. */
  ghost function Refusal(db: Db, c: EventCall): Option<Error> {
    if c.dto.event.None? then Some(UnsupportedEvent)
    else if Malformed(c.dto, c.dto.event.value, c.appNow) then Some(ValidationError)
    else if !MayCall(db, c.auth, c.now) then Some(DeviceAuthRequired)
    else if exists id :: id in db.events && db.events[id].device == c.auth.device
                         && db.events[id].request.eventId == c.dto.eventId && db.events[id].request != c.dto
      then Some(IdempotencyKeyReused)
    else if exists id :: id in db.events && db.events[id].device == c.auth.device && db.events[id].request == c.dto
      then None
    else if c.dto.sequence.Some? && exists id :: id in db.events && db.events[id].device == c.auth.device
                                                 && db.events[id].request.sequence == c.dto.sequence
      then Some(DeviceSequenceReused)
    else if c.dto.turnKey.Some? && 500 <= |set id | id in db.events && db.events[id].user == c.auth.user
                                                    && db.events[id].request.turnKey == c.dto.turnKey|
      then Some(TurnEventLimitExceeded)
    else None
  }

  /** The event was answered before: its device has stored the very same request. */
  ghost predicate Known(db: Db, c: EventCall) {
    exists id :: id in db.events && db.events[id].device == c.auth.device && db.events[id].request == c.dto
  }

  lemma ValidateMeaning(dto: Dto, appNow: int)
    ensures Validate(dto, appNow) ==
      if dto.event.None? then Some(UnsupportedEvent)
      else if Malformed(dto, dto.event.value, appNow) then Some(ValidationError) else None
  {}

  lemma StoredMeaning(db: Db, c: EventCall)
    requires Inv(db)
    ensures
      var stored := FindStored(db.events, c.auth.device, c.dto.eventId);
      && (stored.Some? ==>
            && stored.value in db.events && db.events[stored.value].device == c.auth.device
            && db.events[stored.value].request.eventId == c.dto.eventId
            && (Known(db, c) <==> db.events[stored.value].request == c.dto))
      && (stored.None? ==> forall id | id in db.events && db.events[id].device == c.auth.device ::
            db.events[id].request.eventId != c.dto.eventId)
  {
    assert UniqueKeys(db.events);
    hide Inv, UniqueKeys;
    forall id | id in db.events && db.events[id].device == c.auth.device
      && db.events[id].request.eventId == c.dto.eventId
      ensures FindStored(db.events, c.auth.device, c.dto.eventId) == Some(id)
    {
      StoredIs(db, c, id);
    }
  }

  lemma StoredIs(db: Db, c: EventCall, id: Uuid)
    requires UniqueKeys(db.events) && id in db.events && IsStoredAs(db.events[id], c.auth.device, c.dto.eventId)
    ensures FindStored(db.events, c.auth.device, c.dto.eventId) == Some(id)
  {}

  /** Every error is given exactly for its reason and changes nothing. Everything else succeeds, and a
      repeated event gets the stored reply. */
  lemma DeliveryMeaning(db: Db, c: EventCall)
    requires Inv(db)
    ensures DeferredAreTurnEvents(db.events)
    ensures
      var (after, reply) := ProcessEvent(db, c);
      && (Refusal(db, c).Some? ==> reply == Err(Refusal(db, c).value) && after == db)
      && (Refusal(db, c).None? ==> reply.Ok? && (Known(db, c) <==> !Acceptable(db, c)))
      && (Refusal(db, c).None? && Known(db, c) ==>
            && after == db.(devices :=
                 db.devices[c.auth.device := db.devices[c.auth.device].(lastSeenAt := c.now)])
            && forall id | id in db.events && db.events[id].device == c.auth.device && db.events[id].request == c.dto ::
                 reply.value == db.events[id].response)
  {
    FitsAreTurnEvents(db.sessions, db.events);
    ValidateMeaning(c.dto, c.appNow);
    StoredMeaning(db, c);
    LimitMeaning(db, c);
    assert UniqueKeys(db.events);
    hide Inv, UniqueKeys, Validate, Malformed, FindStored, Accept, OverTurnLimit, DeferredAreTurnEvents;
  }

  lemma LimitMeaning(db: Db, c: EventCall)
    ensures OverTurnLimit(db.events, c) <==>
      c.dto.turnKey.Some? && 500 <= |set id | id in db.events && db.events[id].user == c.auth.user
                                              && db.events[id].request.turnKey == c.dto.turnKey|
  {
    if c.dto.turnKey.Some? {
      assert TurnEvents(db.events, c.auth.user, c.dto.turnKey.value)
        == set id | id in db.events && db.events[id].user == c.auth.user
                    && db.events[id].request.turnKey == c.dto.turnKey;
    }
  }

  // ---- Accepted events ----

  lemma AcceptedIsStored(db: Db, c: EventCall)
    requires Inv(db) && FreshIds(db, c) && Refusal(db, c).None? && !Known(db, c)
    ensures DeferredAreTurnEvents(db.events) && Validate(c.dto, c.appNow).None? && c.auth.device in db.devices
    ensures ProcessEvent(db, c) == (Accept(db, c).0, Ok(Accept(db, c).1))
    ensures
      var a, t := Apply(db.sessions, db.events, c), ApplyAndReplay(db.sessions, db.events, c);
      && c.newEvent !in db.events && t.events.Keys == db.events.Keys
      && (a.session.Some? ==> a.session.value in t.sessions)
  {
    hide Inv, EventsOk, UniqueKeys, Refusal, Known, Apply, ProcessEvent;
    DeliveryMeaning(db, c);
    ProcessEventCases(db, c);
    ProcessEventKeeps(db, c);
    if Apply(db.sessions, db.events, c).session.Some? { StoredSessionExists(Accept(db, c).0, c.newEvent); }
  }

  lemma StoredSessionExists(db: Db, id: Uuid)
    requires Inv(db) && id in db.events && db.events[id].session.Some?
    ensures db.events[id].session.value in db.sessions
  {
    assert RowFits(db.events[id], db.sessions);
  }

  /** The stored row copies the request and its reply, and the reply shows the row's session as it is
      then. The device was seen, with the diagnostics it sent, if any. Nothing else outside the two
      tables changes. */
  lemma AcceptedMeaning(db: Db, c: EventCall)
    requires Inv(db) && FreshIds(db, c) && Refusal(db, c).None? && !Known(db, c)
    ensures DeferredAreTurnEvents(db.events)
    ensures
      var (after, reply) := ProcessEvent(db, c);
      && reply.Ok? && after.events.Keys == db.events.Keys + {c.newEvent}
      && var row := after.events[c.newEvent];
      && row == EventRow(c.auth.device, c.auth.user, row.session, c.now, row.result, c.dto, reply.value)
      && reply.value.eventId == c.dto.eventId && reply.value.result == row.result
      && (row.session.None? ==> reply.value.session.None?)
      && (row.session.Some? ==>
            && row.session.value in after.sessions && reply.value.session.Some?
            && Shows(reply.value.session.value, row.session.value, after.sessions[row.session.value], c.now))
      && after.deletedUsers == db.deletedUsers && after.idempotency == db.idempotency
      && var device := db.devices[c.auth.device].(lastSeenAt := c.now);
         after.devices == db.devices[c.auth.device :=
           if c.dto.diagnostics.None? then device
           else device.(diagnostics := Some((c.dto.diagnostics.value, c.now)))]
  {
    hide Inv, Refusal, Known, Apply, ApplyAndReplay, ProcessEvent, Validate, DeferredAreTurnEvents;
    AcceptedIsStored(db, c);
  }

  /** A session start is only recorded. Any other event but a turn's start waits if its turn has no
      session, and otherwise has its effect on that session and on nothing else. */
  ghost predicate Recorded(db: Db, after: Db, c: EventCall, e: EventName) {
    && c.newEvent in after.events && var row := after.events[c.newEvent];
    && after.events == db.events[c.newEvent := row]
    && (row.session == None ==> after.sessions == db.sessions)
    && if e == SessionStart then row.result == Applied && row.session == None
       else if exists k :: k in db.sessions && db.sessions[k].user == c.auth.user
                           && db.sessions[k].turnKey == c.dto.turnKey then
         && row.session.Some? && row.session.value in db.sessions && row.session.value in after.sessions
         && var sid := row.session.value;
         && db.sessions[sid].user == c.auth.user && db.sessions[sid].turnKey == c.dto.turnKey
         && after.sessions == db.sessions[sid := after.sessions[sid]]
         && var heard := exists id :: id in db.events && db.events[id].session == Some(sid)
                                      && db.events[id].device == c.auth.device;
            EventEffect(db.sessions[sid], after.sessions[sid], heard, e, c.now, c.dto.context, row.result)
       else row.result == Deferred && row.session == None
  }

  lemma TurnEventMeaning(db: Db, c: EventCall)
    requires Inv(db) && FreshIds(db, c) && Refusal(db, c).None? && !Known(db, c)
    requires c.dto.event.value != UserPromptSubmit
    ensures DeferredAreTurnEvents(db.events)
    ensures Recorded(db, ProcessEvent(db, c).0, c, c.dto.event.value)
  {
    hide Inv, Refusal, Known, ProcessEvent, DeferredAreTurnEvents, ApplySessionEvent, EventEffect, Validate;
    AcceptedIsStored(db, c);
    ValidateMeaning(c.dto, c.appNow);
    if c.dto.event.value != SessionStart {
      var found := FindByTurn(db.sessions, c.auth.user, c.dto.turnKey.value);
      if found.Some? {
        SessionRowOk(db, found.value);
        EventMeaning(db.sessions, db.events, found.value, c.auth.device, c.dto.event.value, c.now, c.dto.context);
      }
    }
  }
}
