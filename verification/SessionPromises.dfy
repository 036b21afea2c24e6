/**
 What the session operations promise their callers: which sessions a new turn
 touches, what a recovery run leaves behind, and that a repeated request is
 answered like the first.
 */
module SessionPromises {
  import opened Wrappers
  import Ordering
  import opened SessionRows
  import opened SessionSteps
  import opened SessionInvariants
  import opened SessionRuns
  import opened SessionEffects

  // ---- A new turn ----

  predicate HasKey(s: Session, user: Uuid, key: Key) { s.user == user && s.sessionKey == Some(key) }

  /** A manual session that is running and that no turn has taken. */
  predicate Unbound(s: Session, user: Uuid) { s.user == user && s.origin == Manual && Open(s) && s.turnKey == None }

  /** The start of a turn that has a session changes nothing. The start of a new turn leaves exactly one
      open session under its key, the turn's own. The session that was open under the key is abandoned
      as superseded; without one, a manual session that no turn has taken yet is taken over, and only if
      there is neither is the table's only change a new row. Every other session is untouched. */
  ghost predicate TakesOver(
    sessions: Sessions, after: Sessions, sid: Uuid, user: Uuid, key: Key, turn: Key, now: int, ctx: Context) {
    && sid in after
    && (forall id | id in after && HasKey(after[id], user, key) && Open(after[id]) :: id == sid)
    && (forall id | id in sessions && id != sid ::
          && id in after && var s := sessions[id];
          after[id] ==
            if HasKey(s, user, key) && Open(s) then
              s.(status := Abandoned, reason := Some(SupersededByNewTurn), version := s.version + 1,
                 endedAt := Some(if now < s.startedAt then s.startedAt else now),
                 lastActivityAt := if now < s.lastActivityAt then s.lastActivityAt else now)
            else s)
    && (sid in sessions <==> (exists id :: id in sessions && Unbound(sessions[id], user))
                             && !(exists id :: id in sessions && HasKey(sessions[id], user, key) && Open(sessions[id])))
    && after.Keys == sessions.Keys + {sid}
    && (sid in sessions ==>
          && Unbound(sessions[sid], user) && var s := sessions[sid];
          after[sid] == s.(
            sessionKey := Some(key), turnKey := Some(turn), version := s.version + 1,
            workspace := if ctx.workspace.Some? then ctx.workspace else s.workspace,
            operation := if ctx.operation.Some? then ctx.operation else s.operation,
            lastActivityAt := if now < s.lastActivityAt then s.lastActivityAt else now))
    && (sid !in sessions ==>
          after[sid] == Session(user, Running, Hook, Some(key), Some(turn), now, None, now, None, Exact,
                                ctx.workspace, ctx.operation, 1))
  }

  lemma CurrentMeaning(sessions: Sessions, user: Uuid, key: Key)
    requires SessionsOk(sessions)
    ensures
      var current := FindActiveByKey(sessions, user, key);
      && (current.Some? ==> current.value in sessions && HasKey(sessions[current.value], user, key)
                            && Open(sessions[current.value]))
      && forall id | id in sessions && HasKey(sessions[id], user, key) && Open(sessions[id]) :: current == Some(id)
  {
    forall id | id in sessions && HasKey(sessions[id], user, key) && Open(sessions[id])
      ensures FindActiveByKey(sessions, user, key) == Some(id)
    {
      assert ActiveWithKey(sessions[id], user, key);
    }
  }

  lemma UnboundMeaning(sessions: Sessions, user: Uuid)
    requires SessionsOk(sessions)
    ensures
      var manual := FindActiveManual(sessions, user);
      && (manual.Some? ==> manual.value in sessions)
      && (manual.Some? && sessions[manual.value].turnKey.None? ==> Unbound(sessions[manual.value], user))
      && forall id | id in sessions && Unbound(sessions[id], user) ::
           manual == Some(id) && sessions[id].turnKey.None?
  {
    forall id | id in sessions && Unbound(sessions[id], user)
      ensures FindActiveManual(sessions, user) == Some(id)
    {
      assert ActiveManual(sessions[id], user);
    }
  }

  lemma AdoptionTakesOver(sessions: Sessions, m: Uuid, user: Uuid, key: Key, turn: Key, now: int, ctx: Context)
    requires m in sessions && Unbound(sessions[m], user)
    requires forall id | id in sessions :: !(HasKey(sessions[id], user, key) && Open(sessions[id]))
    ensures TakesOver(sessions, sessions[m := Adopt(sessions[m], key, turn, now, ctx)], m, user, key, turn, now, ctx)
  {
    assert sessions.Keys == sessions.Keys + {m};
  }

  lemma InsertTakesOver(
    sessions: Sessions, current: Option<Uuid>, newId: Uuid, user: Uuid, key: Key, turn: Key, now: int, ctx: Context)
    requires newId !in sessions
    requires current.Some? ==>
      current.value in sessions && HasKey(sessions[current.value], user, key) && Open(sessions[current.value])
    requires forall id | id in sessions && HasKey(sessions[id], user, key) && Open(sessions[id]) :: current == Some(id)
    requires current.None? ==> forall id | id in sessions :: !Unbound(sessions[id], user)
    ensures
      var rest := if current.None? then sessions
        else sessions[current.value := Supersede(sessions[current.value], now)];
      TakesOver(sessions, rest[newId := NewHook(user, key, turn, now, ctx)], newId, user, key, turn, now, ctx)
  {}

  lemma KnownTurnMeaning(sessions: Sessions, user: Uuid, turn: Key)
    ensures
      var same := FindByTurn(sessions, user, turn);
      && (same.Some? ==> same.value in sessions && sessions[same.value].user == user
                         && sessions[same.value].turnKey == Some(turn))
      && (same.None? ==> forall id | id in sessions :: !(sessions[id].user == user
                                                        && sessions[id].turnKey == Some(turn)))
  {
    forall id | id in sessions && OwnsTurn(sessions[id], user, turn) ensures FindByTurn(sessions, user, turn).Some? {}
  }

  lemma NewTurnTakesOver(sessions: Sessions, user: Uuid, key: Key, turn: Key, now: int, ctx: Context, newId: Uuid)
    requires SessionsOk(sessions) && newId !in sessions
    ensures
      var a := ApplyTurnStart(sessions, user, key, turn, now, ctx, newId);
      && a.session.Some?
      && if exists id :: id in sessions && sessions[id].user == user && sessions[id].turnKey == Some(turn) then
           && a.session.value in sessions && a.sessions == sessions
           && var s := sessions[a.session.value];
           && s.user == user && s.turnKey == Some(turn)
           && a.result == if Open(s) then Duplicate else IgnoredTerminal
         else
           && a.result == Applied && (a.session.value in sessions || a.session.value == newId)
           && TakesOver(sessions, a.sessions, a.session.value, user, key, turn, now, ctx)
  {
    CurrentMeaning(sessions, user, key);
    UnboundMeaning(sessions, user);
    KnownTurnMeaning(sessions, user, turn);
    hide SessionsOk, FindByTurn, FindActiveByKey, FindActiveManual, TakesOver, Unbound, HasKey, Supersede, Adopt,
         NewHook;
    var current, manual := FindActiveByKey(sessions, user, key), FindActiveManual(sessions, user);
    if FindByTurn(sessions, user, turn).None? {
      if current.None? && manual.Some? && sessions[manual.value].turnKey.None? {
        AdoptionTakesOver(sessions, manual.value, user, key, turn, now, ctx);
      } else {
        InsertTakesOver(sessions, current, newId, user, key, turn, now, ctx);
      }
    }
  }

  lemma {:induction false} ReplayTouchesListed(t: Tables, sid: Uuid, ids: seq<Uuid>, startAt: int, id: Uuid)
    requires Replayable(t, sid, ids) && id in t.events && id !in ids
    ensures Replay(t, sid, ids, startAt).events[id] == t.events[id]
    decreases |ids|
  {
    if ids != [] {
      ReplayTouchesListed(ReplayOne(t, sid, ids[0], startAt), sid, ids[1..], startAt, id);
    }
  }

  /** The session of a start takes the events that waited for it, and only those are settled. */
  ghost predicate TakesWaiting(events: Events, a: Applying, r: Tables, user: Uuid, turn: Key) {
    && a.session.Some? && a.session.value in r.sessions
    && r.sessions == a.sessions[a.session.value := r.sessions[a.session.value]]
    && r.events.Keys == events.Keys
    && (forall id | id in events ::
          if events[id].user == user && events[id].request.turnKey == Some(turn) && events[id].result == Deferred
          then r.events[id].result != Deferred else r.events[id] == events[id])
    && ((forall id | id in events && events[id].user == user && events[id].request.turnKey == Some(turn) ::
           events[id].result != Deferred)
        ==> r.sessions == a.sessions)
  }

  lemma WaitingAreSettled(db: Db, a: Applying, user: Uuid, turn: Key, now: int)
    requires Opened(db.sessions, a, user, turn) && Core(a.sessions, db.events, PendingStart(a))
    ensures
      var t, sid, ids := Tables(a.sessions, db.events), a.session.value, ReplayList(db.events, user, turn);
      && Replayable(t, sid, ids)
      && var r := Replay(t, sid, ids, now);
      ReplayKeeps(t, r, sid, PendingStart(a)) && forall id | id in ids :: !r.events[id].result.Deferred?
  {
    hide Core, SessionsOk, SessionsEvolve, ReplayKeeps, Replay, Replayable;
    var t, sid, ids := Tables(a.sessions, db.events), a.session.value, ReplayList(db.events, user, turn);
    forall id | id in ids ensures WaitsFor(t, sid, id) {}
    ReplayKeepsCore(t, sid, ids, now, PendingStart(a));
  }

  lemma ListedAreWaiting(events: Events, user: Uuid, turn: Key, id: Uuid)
    requires id in events
    ensures id in ReplayList(events, user, turn) <==> IsDeferredFor(events[id], user, turn)
  {
    assert id in Ordering.Elements(ReplayList(events, user, turn)) <==> id in DeferredEvents(events, user, turn);
  }

  lemma OpeningTakesWaiting(db: Db, a: Applying, user: Uuid, turn: Key, now: int)
    requires Opened(db.sessions, a, user, turn) && Core(a.sessions, db.events, PendingStart(a))
    ensures Replayable(Tables(a.sessions, db.events), a.session.value, ReplayList(db.events, user, turn))
    ensures TakesWaiting(db.events, a,
      Replay(Tables(a.sessions, db.events), a.session.value, ReplayList(db.events, user, turn), now), user, turn)
  {
    hide Core, SessionsEvolve, ReplayList, Replayable, SessionsOk;
    WaitingAreSettled(db, a, user, turn, now);
    var t, sid, ids := Tables(a.sessions, db.events), a.session.value, ReplayList(db.events, user, turn);
    var r := Replay(t, sid, ids, now);
    forall id | id in db.events
      ensures id in ids <==> IsDeferredFor(db.events[id], user, turn)
      ensures id !in ids ==> r.events[id] == db.events[id]
    {
      ListedAreWaiting(db.events, user, turn, id);
      if id !in ids { ReplayTouchesListed(t, sid, ids, now, id); }
    }
    if ids != [] {
      assert ids[0] in ids;
      ListedExist(db.events, user, turn);
    }
  }

  lemma ListedExist(events: Events, user: Uuid, turn: Key)
    ensures forall id | id in ReplayList(events, user, turn) :: id in events
  {}

  /** Delivering the start of a turn opens its session as above. The events that waited for the turn are
      settled then and may change that session further; nothing else happens to either table. */
  lemma TurnStartMeaning(db: Db, c: EventCall)
    requires Inv(db) && FreshIds(db, c) && Refusal(db, c).None? && !Known(db, c)
    requires c.dto.event.value == UserPromptSubmit
    ensures DeferredAreTurnEvents(db.events) && c.dto.turnKey.Some?
    ensures
      var after := ProcessEvent(db, c).0;
      var a := ApplyTurnStart(db.sessions, c.auth.user, c.dto.sessionKey, c.dto.turnKey.value, c.now, c.dto.context,
        c.newSession);
      && c.newEvent in after.events && var row := after.events[c.newEvent];
      && row.session == a.session && row.result == a.result
      && TakesWaiting(db.events, a, Tables(after.sessions, after.events - {c.newEvent}), c.auth.user,
           c.dto.turnKey.value)
  {
    hide Core, SessionsOk, AllAudited, EventsOk, ApplyTurnStart, Refusal, Known, ProcessEvent,
         TakesWaiting, Opened, NoStrandedEvents, DeferredAreTurnEvents, Replay, Replayable, ReplayList, SnapshotOf;
    AcceptedIsStored(db, c);
    var user, turn := c.auth.user, c.dto.turnKey.value;
    var a := Apply(db.sessions, db.events, c);
    CoreParts(db);
    TurnStartOpens(db.sessions, user, c.dto.sessionKey, turn, c.now, c.dto.context, c.newSession);
    TurnStartKeepsAudit(db.sessions, db.events, user, c.dto.sessionKey, turn, c.now, c.dto.context, c.newSession);
    OpenedCore(db, a, user, turn);
    OpeningTakesWaiting(db, a, user, turn, c.now);
    var t := ApplyAndReplay(db.sessions, db.events, c);
    assert t.events[c.newEvent := NewRow(a, t.sessions, c)] - {c.newEvent} == t.events;
  }

  lemma CoreParts(db: Db)
    ensures Inv(db) ==> Core(db.sessions, db.events, None) && SessionsOk(db.sessions)
  {}

  lemma OpenedCore(db: Db, a: Applying, user: Uuid, turn: Key)
    ensures Opened(db.sessions, a, user, turn) && EventsOk(a.sessions, db.events) ==>
      a.session.Some? && (AllAudited(a.sessions, db.events, PendingStart(a)) ==>
        Core(a.sessions, db.events, PendingStart(a)))
  {}

  // ---- The recovery job ----

  predicate InTime(s: Session, now: int) {
    if s.turnKey.Some? then now - s.lastActivityAt < 120_000 else now - s.startedAt < 43_200_000
  }

  /** Nothing is overdue at the time: no turn without a sign of life for two minutes, no manual session
      for twelve hours, no event that waited a day for its turn. */
  predicate NothingOverdue(db: Db, now: int) {
    && (forall id | id in db.sessions && Open(db.sessions[id]) :: InTime(db.sessions[id], now))
    && (forall id | id in db.events && db.events[id].result == Deferred :: now - db.events[id].receivedAt < 86_400_000)
  }

  /** A turn without a sign of life for two minutes is abandoned two minutes after its last one, a manual
      session twelve hours after its start. Both are marked as timed out and their timing as degraded;
      any other session is left alone. */
  predicate TimesOut(s: Session, t: Session, now: int) {
    var ended := s.(status := Abandoned, timing := Degraded, version := s.version + 1);
    var limit := s.startedAt + 43_200_000;
    t == if Open(s) && s.turnKey != None && s.lastActivityAt <= now - 120_000 then
           ended.(reason := Some(HeartbeatTimeout), endedAt := Some(s.lastActivityAt + 120_000))
         else if Open(s) && s.turnKey == None && s.startedAt <= now - 43_200_000 then
           ended.(reason := Some(ManualTimeout), endedAt := Some(limit),
                  lastActivityAt := if s.lastActivityAt < limit then limit else s.lastActivityAt)
         else s
  }

  /** An event that waited a day for its turn is given up; any other is left alone. */
  predicate GivesUp(e: EventRow, t: EventRow, now: int) {
    t == if e.result == Deferred && e.receivedAt <= now - 86_400_000 then
           e.(result := IgnoredOrphan, response := Response(e.request.eventId, IgnoredOrphan, None))
         else e
  }

  lemma RecoveryRows(db: Db, now: int)
    ensures
      var after := Cleanup(db, now);
      && after == db.(sessions := after.sessions, events := after.events)
      && after.sessions.Keys == db.sessions.Keys && after.events.Keys == db.events.Keys
      && (forall id | id in db.sessions :: TimesOut(db.sessions[id], after.sessions[id], now))
      && (forall id | id in db.events :: GivesUp(db.events[id], after.events[id], now))
  {}

  predicate InTimeAfter(s: Session, t: Session, now: int) {
    && (Open(t) ==> t == s && InTime(s, now))
    && (t != s ==> Open(s) && !InTime(s, now) && t.endedAt.Some? && t.endedAt.value <= now)
  }

  lemma TimedOutRow(s: Session, t: Session, now: int)
    ensures TimesOut(s, t, now) ==> InTimeAfter(s, t, now)
  {}

  lemma GivenUpRow(e: EventRow, t: EventRow, now: int)
    ensures GivesUp(e, t, now) && t.result == Deferred ==> t == e && now - e.receivedAt < 86_400_000
    ensures GivesUp(e, t, now) && t != e ==> e.result == Deferred && now - e.receivedAt >= 86_400_000
  {}

  /** What a run does to each session and each event. It leaves nothing overdue, ends nothing in the
      future, and touches nothing but what was overdue. */
  lemma RecoveryClears(db: Db, now: int)
    ensures
      var after := Cleanup(db, now);
      && after == db.(sessions := after.sessions, events := after.events)
      && after.sessions.Keys == db.sessions.Keys && after.events.Keys == db.events.Keys
      && (forall id | id in db.sessions :: TimesOut(db.sessions[id], after.sessions[id], now))
      && (forall id | id in db.events :: GivesUp(db.events[id], after.events[id], now))
      && NothingOverdue(after, now)
      && (NothingOverdue(db, now) ==> after == db)
      && (forall id | id in db.sessions && after.sessions[id] != db.sessions[id] ::
            after.sessions[id].endedAt.Some? && after.sessions[id].endedAt.value <= now)
  {
    hide Cleanup, TimesOut, GivesUp;
    RecoveryRows(db, now);
    var after := Cleanup(db, now);
    forall id | id in db.sessions ensures InTimeAfter(db.sessions[id], after.sessions[id], now) {
      TimedOutRow(db.sessions[id], after.sessions[id], now);
    }
    forall id | id in db.events
      ensures after.events[id].result == Deferred ==>
        after.events[id] == db.events[id] && now - db.events[id].receivedAt < 86_400_000
      ensures after.events[id] != db.events[id] ==>
        db.events[id].result == Deferred && now - db.events[id].receivedAt >= 86_400_000
    {
      assert GivesUp(db.events[id], after.events[id], now);
      GivenUpRow(db.events[id], after.events[id], now);
    }
    if NothingOverdue(db, now) {
      assert after.sessions == db.sessions && after.events == db.events;
    }
  }

  /** So a second run at the same time finds nothing to do. */
  lemma RecoveryIsIdempotent(db: Db, now: int)
    ensures Cleanup(Cleanup(db, now), now) == Cleanup(db, now)
  {
    RecoveryClears(db, now);
    RecoveryClears(Cleanup(db, now), now);
  }

  // ---- Repeated requests ----

  ghost predicate KeysKept(before: Db, after: Db) {
    forall k | k in before.idempotency :: k in after.idempotency && after.idempotency[k] == before.idempotency[k]
  }

  lemma StepKeepsKeys(db: Db, a: Action)
    requires DeferredAreTurnEvents(db.events)
    ensures KeysKept(db, Step(db, a))
  {
    hide Apply, ApplyAndReplay, FindStored, Cleanup, FindActiveManual, SequenceUsed, TurnEvents;
    if a.Recover? { CleanupKeepsIdempotency(db, a.now); }
  }

  lemma CleanupKeepsIdempotency(db: Db, now: int)
    ensures Cleanup(db, now).idempotency == db.idempotency
  {}

  lemma {:induction false} RunKeepsKeys(db: Db, actions: seq<Action>)
    requires Inv(db) && Runnable(db, actions)
    ensures KeysKept(db, Run(db, actions))
    decreases |actions|
  {
    hide Inv, Step, FreshFor;
    if actions != [] {
      SessionRuns.StepKeeps(db, actions[0]);
      StepKeepsKeys(db, actions[0]);
      RunKeepsKeys(Step(db, actions[0]), actions[1..]);
    }
  }

  /** One key starts one manual session: sent again after any run, the request gets the first reply and
      changes nothing. */
  lemma StartManualIsIdempotent(
    db: Db, user: Uuid, key: Uuid, now: int, newId: Uuid, more: seq<Action>, again: int, otherId: Uuid)
    requires Inv(db) && newId !in db.sessions && StartManual(db, user, key, now, newId).1.Ok?
    ensures Inv(StartManual(db, user, key, now, newId).0)
    ensures
      var (first, reply) := StartManual(db, user, key, now, newId);
      Runnable(first, more) ==> StartManual(Run(first, more), user, key, again, otherId) == (Run(first, more), reply)
  {
    StartManualKeeps(db, user, key, now, newId);
    var first := StartManual(db, user, key, now, newId).0;
    hide Inv;
    if Runnable(first, more) { RunKeepsKeys(first, more); }
  }

  /** The same for ending a session. */
  lemma EndIsIdempotent(db: Db, user: Uuid, sid: Uuid, o: Outcome, key: Uuid, now: int, more: seq<Action>, again: int)
    requires Inv(db) && EndSession(db, user, sid, o, key, now).1.Ok?
    ensures Inv(EndSession(db, user, sid, o, key, now).0)
    ensures
      var (first, reply) := EndSession(db, user, sid, o, key, now);
      Runnable(first, more) ==> EndSession(Run(first, more), user, sid, o, key, again) == (Run(first, more), reply)
  {
    EndSessionKeeps(db, user, sid, o, key, now);
    var first := EndSession(db, user, sid, o, key, now).0;
    hide Inv;
    if Runnable(first, more) { RunKeepsKeys(first, more); }
  }

  /** A start under a new key begins a manual session exactly if the user has none running, and shows it
      or the one that is running. An old key gets its reply again, or an error if it was used otherwise. */
  lemma StartManualMeaning(db: Db, user: Uuid, key: Uuid, now: int, newId: Uuid)
    requires Inv(db) && newId !in db.sessions
    ensures
      var (after, reply) := StartManual(db, user, key, now, newId);
      if (user, key) in db.idempotency then
        var stored := db.idempotency[(user, key)];
        after == db && reply == if stored.request == ManualStart then Ok(stored.response) else Err(IdempotencyKeyReused)
      else
        && reply.Ok? && reply.value.Started?
        && var id := reply.value.session.id;
        && id in after.sessions && Shows(reply.value.session, id, after.sessions[id], now)
        && (reply.value.created <==>
              !exists k :: k in db.sessions && db.sessions[k].user == user && db.sessions[k].origin == Manual
                           && Open(db.sessions[k]))
        && (reply.value.created ==>
              id == newId && after.sessions == db.sessions[newId :=
                Session(user, Running, Manual, None, None, now, None, now, None, Exact, None, None, 1)])
        && (!reply.value.created ==>
              after.sessions == db.sessions && after.sessions[id].user == user && after.sessions[id].origin == Manual
              && Open(after.sessions[id]))
        && after == db.(sessions := after.sessions,
                        idempotency := db.idempotency[(user, key) := Stored(ManualStart, reply.value)])
  {
    forall k | k in db.sessions && ActiveManual(db.sessions[k], user)
      ensures FindActiveManual(db.sessions, user).Some? {}
    hide Inv;
  }

  /** An end succeeds exactly for a session of the user, and shows it. A session that was still open ends
      as asked, now or at its start if that is later; an ended session keeps its own ending. An old key
      gets its reply again, or an error if it was used otherwise. */
  lemma EndMeaning(db: Db, user: Uuid, sid: Uuid, o: Outcome, key: Uuid, now: int)
    ensures
      var (after, reply) := EndSession(db, user, sid, o, key, now);
      if (user, key) in db.idempotency then
        var stored := db.idempotency[(user, key)];
        after == db && reply == if stored.request == End(sid, o) then Ok(stored.response) else Err(IdempotencyKeyReused)
      else if sid !in db.sessions || db.sessions[sid].user != user then
        after == db && reply == Err(SessionNotFound)
      else
        var s := db.sessions[sid];
        && reply.Ok? && reply.value.Ended? && sid in after.sessions
        && Shows(reply.value.session, sid, after.sessions[sid], now)
        && after == db.(sessions := db.sessions[sid := after.sessions[sid]],
                        idempotency := db.idempotency[(user, key) := Stored(End(sid, o), reply.value)])
        && after.sessions[sid] ==
             if Open(s) then
               s.(status := (match o
                             case EndCompleted => Completed
                             case EndFailed => Failed
                             case EndAbandoned => Abandoned),
                  reason := Some(match o
                                 case EndCompleted => ManualCompleted
                                 case EndFailed => ManualFailed
                                 case EndAbandoned => ManualCancelled),
                  endedAt := Some(if now < s.startedAt then s.startedAt else now),
                  lastActivityAt := if now < s.lastActivityAt then s.lastActivityAt else now,
                  version := s.version + 1)
             else s
  {}
}
