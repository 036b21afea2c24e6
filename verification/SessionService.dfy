/**
 The session service and its recovery job in the form the server has them:
 methods that read and write the tables statement by statement. Each is proved
 to take the state where the transaction functions of SessionSteps say, so
 everything proved about those holds of these methods.
 */
module SessionService {
  import opened Wrappers
  import opened Ordering
  import opened SessionRows
  import Spec = SessionSteps
  import opened SessionInvariants

  type Uuid = SessionRows.Uuid

  class Service {
    var sessions: Spec.Sessions
    var events: Spec.Events
    var devices: map<Uuid, Spec.Device>
    var deletedUsers: set<Uuid>
    var idempotency: Spec.IdempotencyKeys

    function State(): Spec.Db
      reads this
    {
      Spec.Db(sessions, events, devices, deletedUsers, idempotency)
    }

    constructor ()
      ensures State() == Spec.Db(map[], map[], map[], {}, map[])
    {
      sessions, events, devices, deletedUsers, idempotency := map[], map[], map[], {}, map[];
    }

    // ---- Queries ----

    method FindSessionByTurn(user: Uuid, turn: Key) returns (r: Option<Uuid>)
      requires OneSessionPerTurn(sessions)
      ensures r == Spec.FindByTurn(sessions, user, turn)
    {
      var rows := set id | id in sessions && Spec.OwnsTurn(sessions[id], user, turn);
      if rows == {} {
        assert forall id | id in sessions :: id !in rows;
        return None;
      }
      var id :| id in rows;
      return Some(id);
    }

    method FindActiveSessionByExternalSessionKey(user: Uuid, key: Key) returns (r: Option<Uuid>)
      requires OneActivePerKey(sessions)
      ensures r == Spec.FindActiveByKey(sessions, user, key)
    {
      var rows := set id | id in sessions && Spec.ActiveWithKey(sessions[id], user, key);
      if rows == {} {
        assert forall id | id in sessions :: id !in rows;
        return None;
      }
      var id :| id in rows;
      return Some(id);
    }

    method FindActiveManualSession(user: Uuid) returns (r: Option<Uuid>)
      requires OneActiveManual(sessions)
      ensures r == Spec.FindActiveManual(sessions, user)
    {
      var rows := set id | id in sessions && Spec.ActiveManual(sessions[id], user);
      if rows == {} {
        assert forall id | id in sessions :: id !in rows;
        return None;
      }
      var id :| id in rows;
      return Some(id);
    }

    method FindStoredEvent(device: Uuid, eventId: Uuid) returns (r: Option<Uuid>)
      requires UniqueKeys(events)
      ensures r == Spec.FindStored(events, device, eventId)
    {
      var rows := set id | id in events && Spec.IsStoredAs(events[id], device, eventId);
      if rows == {} {
        assert forall id | id in events :: id !in rows;
        return None;
      }
      var id :| id in rows;
      return Some(id);
    }

    /** SELECT ... ORDER BY received_at, id. */
    method SelectDeferred(user: Uuid, turn: Key) returns (ids: seq<Uuid>)
      ensures ids == Spec.ReplayList(events, user, turn)
      ensures forall id :: id in ids <==> id in events && events[id].user == user
                                          && events[id].request.turnKey == Some(turn)
                                          && events[id].result == Spec.Deferred
      ensures forall i, j | 0 <= i < j < |ids| ::
        var a, b := events[ids[i]].receivedAt, events[ids[j]].receivedAt;
        a < b || (a == b && ids[i] < ids[j])
    {
      hide Spec.ReplayList, Spec.DeferredEvents, Spec.ReceivedBefore, InReceiptOrder;
      NothingSelected(events, user, turn);
      var rest := Spec.DeferredEvents(events, user, turn);
      ids := [];
      while rest != {}
        invariant Selecting(events, ids, rest, Spec.DeferredEvents(events, user, turn))
        decreases |rest|
      {
        var first := LeastReceived(rest);
        SelectNext(events, ids, rest, Spec.DeferredEvents(events, user, turn), first);
        ids := ids + [first];
        rest := rest - {first};
      }
      assert Elements(ids) == Spec.DeferredEvents(events, user, turn);
      ReceiptOrderIsReplayList(events, user, turn, ids);
      ListMeaning(events, user, turn, ids);
    }

    method LeastReceived(rows: set<Uuid>) returns (first: Uuid)
      requires rows != {} && forall id | id in rows :: id in events
      ensures first in rows && forall id | id in rows && id != first :: Spec.ReceivedBefore(events, first, id)
    {
      first :| first in rows;
      var seen, rest := {first}, rows - {first};
      while rest != {}
        invariant rows == seen + rest && first in seen
        invariant forall id | id in seen && id != first :: Spec.ReceivedBefore(events, first, id)
        decreases |rest|
      {
        var id :| id in rest;
        rest, seen := rest - {id}, seen + {id};
        if Spec.ReceivedBefore(events, id, first) { first := id; }
      }
    }

    // ---- Applying one event ----

    method ApplySessionEvent(sid: Uuid, device: Uuid, e: EventName, receivedAt: int, ctx: Context)
      returns (result: Spec.EventResult)
      requires sid in sessions
      modifies this`sessions
      ensures
        var a := Spec.ApplySessionEvent(old(sessions), events, sid, device, e, receivedAt, ctx);
        sessions == a.sessions && result == a.result && a.session == Some(sid)
    {
      var s := sessions[sid];
      if !Active(s) {
        if LateStopInTime(s, e, receivedAt) {
          if !Spec.HasEventFrom(events, sid, device) { return Spec.IgnoredTerminal; }
          sessions := sessions[sid := RecoverLateStop(s, ctx)];
          return Spec.Applied;
        }
        return Spec.IgnoredTerminal;
      }
      sessions := sessions[sid := ApplyToActive(s, e, receivedAt, ctx)];
      return Spec.Applied;
    }

    method ApplyTurnStart(user: Uuid, sessionKey: Key, turnKey: Key, receivedAt: int, ctx: Context, newId: Uuid)
      returns (result: Spec.EventResult, sid: Uuid)
      requires SessionsOk(sessions)
      modifies this`sessions
      ensures
        var a := Spec.ApplyTurnStart(old(sessions), user, sessionKey, turnKey, receivedAt, ctx, newId);
        sessions == a.sessions && result == a.result && a.session == Some(sid)
    {
      var same := FindSessionByTurn(user, turnKey);
      if same.Some? {
        return if Active(sessions[same.value]) then Spec.Duplicate else Spec.IgnoredTerminal, same.value;
      }
      var current := FindActiveSessionByExternalSessionKey(user, sessionKey);
      if current.None? {
        var manual := FindActiveManualSession(user);
        if manual.Some? && sessions[manual.value].turnKey.None? {
          sid := manual.value;
          sessions := sessions[sid := Adopt(sessions[sid], sessionKey, turnKey, receivedAt, ctx)];
          return Spec.Applied, sid;
        }
      }
      if current.Some? {
        sessions := sessions[current.value := Supersede(sessions[current.value], receivedAt)];
      }
      sessions := sessions[newId := NewHook(user, sessionKey, turnKey, receivedAt, ctx)];
      return Spec.Applied, newId;
    }

    /** The replay loop: every deferred event of the turn, oldest first, is applied and its row settled. */
    method ReprocessDeferredEvents(user: Uuid, turn: Key, sid: Uuid, startReceivedAt: int)
      requires Spec.Replayable(Spec.Tables(sessions, events), sid, Spec.ReplayList(events, user, turn))
      modifies this`sessions, this`events
      ensures Spec.Tables(sessions, events) ==
              Spec.Replay(old(Spec.Tables(sessions, events)), sid, old(Spec.ReplayList(events, user, turn)),
                startReceivedAt)
    {
      var ids := SelectDeferred(user, turn);
      ghost var start := Spec.Tables(sessions, events);
      var i := 0;
      assert ids[0..] == ids;
      while i < |ids|
        invariant 0 <= i <= |ids|
        invariant Spec.Replayable(Spec.Tables(sessions, events), sid, ids[i..])
        invariant Spec.Replay(Spec.Tables(sessions, events), sid, ids[i..], startReceivedAt)
               == Spec.Replay(start, sid, ids, startReceivedAt)
      {
        assert ids[i..][0] == ids[i] && ids[i..][1..] == ids[i + 1..] && ids[i] in ids[i..];
        ReplayRest(Spec.Tables(sessions, events), sid, ids[i..], startReceivedAt);
        ReplayDeferred(sid, ids[i], startReceivedAt);
        i := i + 1;
      }
      assert ids[i..] == [];
    }

    /** One turn of the loop. */
    method ReplayDeferred(sid: Uuid, id: Uuid, startReceivedAt: int)
      requires sid in sessions && id in events && events[id].request.event.Some?
      modifies this`sessions, this`events
      ensures Spec.Tables(sessions, events)
        == Spec.ReplayOne(old(Spec.Tables(sessions, events)), sid, id, startReceivedAt)
    {
      var row := events[id];
      var result, target := Spec.IgnoredOrphan, None;
      if startReceivedAt - row.receivedAt <= DEFERRED_EVENT_TTL_MS {
        result := ApplySessionEvent(sid, row.device, row.request.event.value, row.receivedAt, row.request.context);
        target := Some(sid);
      }
      var response := Spec.Response(row.request.eventId, result, Spec.SnapshotOf(sessions, target, startReceivedAt));
      events := events[id := row.(session := target, result := result, response := response)];
    }

    // ---- POST /integrations/events ----

    method ProcessIntegrationEvent(c: Spec.EventCall) returns (r: Result<Spec.Response, Spec.Error>)
      requires Inv(State()) && FreshIds(State(), c)
      modifies this
      ensures Spec.DeferredAreTurnEvents(old(events))
      ensures State() == Spec.ProcessEvent(old(State()), c).0 && r == Spec.ProcessEvent(old(State()), c).1
      ensures Inv(State())
    {
      hide Inv, UniqueKeys, Spec.Validate, Spec.Touch, Spec.SequenceUsed, Spec.OverTurnLimit, Spec.Apply,
           Spec.ApplyAndReplay, Spec.TurnEvents, Spec.SnapshotOf;
      ProcessEventKeeps(State(), c);
      TablesAreOk(State());
      var invalid := Spec.Validate(c.dto, c.appNow);
      if invalid.Some? { return Err(invalid.value); }
      var savepoint := devices;
      if !Spec.DeviceUsable(State(), c.auth, c.now) { return Err(Spec.DeviceAuthRequired); }
      TouchAgain(State(), c, c.dto.diagnostics);
      devices := Spec.Touch(State(), c, None);

      var stored := FindStoredEvent(c.auth.device, c.dto.eventId);
      if stored.Some? {
        if events[stored.value].request != c.dto {
          devices := savepoint;
          return Err(Spec.IdempotencyKeyReused);
        }
        return Ok(events[stored.value].response);
      }
      if Spec.SequenceUsed(events, c.auth.device, c.dto.sequence) {
        devices := savepoint;
        return Err(Spec.DeviceSequenceReused);
      }
      devices := Spec.Touch(State(), c, c.dto.diagnostics);
      if Spec.OverTurnLimit(events, c) {
        devices := savepoint;
        return Err(Spec.TurnEventLimitExceeded);
      }
      SameTablesKeep(old(State()), State());
      var response := StoreAccepted(c);
      return Ok(response);
    }

    /** Applies an accepted event, replays its turn if it is a start, and stores the event. */
    method StoreAccepted(c: Spec.EventCall) returns (response: Spec.Response)
      requires Inv(State()) && FreshIds(State(), c) && Spec.Validate(c.dto, c.appNow).None?
      modifies this`sessions, this`events
      ensures Spec.DeferredAreTurnEvents(old(events))
      ensures
        var a := Spec.Apply(old(sessions), old(events), c);
        var t := Spec.ApplyAndReplay(old(sessions), old(events), c);
        var row := Spec.NewRow(a, t.sessions, c);
        sessions == t.sessions && events == t.events[c.newEvent := row] && response == row.response
    {
      hide Inv, SessionsOk, OneSessionPerTurn, FreshIds, Spec.ApplyTurnStart, Spec.ApplySessionEvent, Spec.FindByTurn,
           Spec.Replay, Spec.Replayable, Spec.ReplayList, Spec.SnapshotOf, Spec.DeferredAreTurnEvents;
      PrepareReplay(State(), c);
      TablesAreOk(State());
      var e := c.dto.event.value;
      var result, sid := Spec.Applied, None;
      if e.UserPromptSubmit? {
        var id;
        result, id := ApplyTurnStart(c.auth.user, c.dto.sessionKey, c.dto.turnKey.value, c.now, c.dto.context,
          c.newSession);
        sid := Some(id);
        ReprocessDeferredEvents(c.auth.user, c.dto.turnKey.value, id, c.now);
      } else if !e.SessionStart? {
        sid := FindSessionByTurn(c.auth.user, c.dto.turnKey.value);
        FoundTurn(sessions, c.auth.user, c.dto.turnKey.value);
        if sid.None? {
          result := Spec.Deferred;
        } else {
          result := ApplySessionEvent(sid.value, c.auth.device, e, c.now, c.dto.context);
        }
      }
      response := Spec.Response(c.dto.eventId, result, Spec.SnapshotOf(sessions, sid, c.now));
      events := events[c.newEvent := Spec.EventRow(c.auth.device, c.auth.user, sid, c.now, result, c.dto, response)];
    }

    // ---- Manual sessions ----

    method StartManualSession(user: Uuid, key: Uuid, now: int, newId: Uuid)
      returns (r: Result<Spec.ApiResponse, Spec.Error>)
      requires Inv(State()) && newId !in sessions
      modifies this`sessions, this`idempotency
      ensures State() == Spec.StartManual(old(State()), user, key, now, newId).0
      ensures r == Spec.StartManual(old(State()), user, key, now, newId).1
      ensures Inv(State())
    {
      StartManualKeeps(State(), user, key, now, newId);
      if (user, key) in idempotency {
        var stored := idempotency[(user, key)];
        if !stored.request.ManualStart? { return Err(Spec.IdempotencyKeyReused); }
        return Ok(stored.response);
      }
      var current := FindActiveManualSession(user);
      var id := newId;
      if current.Some? {
        id := current.value;
      } else {
        sessions := sessions[newId := NewManual(user, now)];
      }
      var response := Spec.Started(current.None?, ToSnapshot(id, sessions[id], now));
      idempotency := idempotency[(user, key) := Spec.Stored(Spec.ManualStart, response)];
      return Ok(response);
    }

    method EndSession(user: Uuid, sid: Uuid, o: Outcome, key: Uuid, now: int)
      returns (r: Result<Spec.ApiResponse, Spec.Error>)
      requires Inv(State())
      modifies this`sessions, this`idempotency
      ensures State() == Spec.EndSession(old(State()), user, sid, o, key, now).0
      ensures r == Spec.EndSession(old(State()), user, sid, o, key, now).1
      ensures Inv(State())
    {
      hide Inv, EndManually, ToSnapshot, Active;
      EndSessionKeeps(State(), user, sid, o, key, now);
      if (user, key) in idempotency {
        var stored := idempotency[(user, key)];
        if stored.request != Spec.End(sid, o) { return Err(Spec.IdempotencyKeyReused); }
        return Ok(stored.response);
      }
      if sid !in sessions || sessions[sid].user != user { return Err(Spec.SessionNotFound); }
      if Active(sessions[sid]) {
        sessions := sessions[sid := EndManually(sessions[sid], o, now)];
      }
      var response := Spec.Ended(ToSnapshot(sid, sessions[sid], now));
      idempotency := idempotency[(user, key) := Spec.Stored(Spec.End(sid, o), response)];
      return Ok(response);
    }
  }

  lemma TablesAreOk(db: Spec.Db)
    ensures Inv(db) ==> SessionsOk(db.sessions) && OneSessionPerTurn(db.sessions) && UniqueKeys(db.events)
  {}

  lemma FoundTurn(sessions: Spec.Sessions, user: Uuid, turn: Key)
    ensures
      var r := Spec.FindByTurn(sessions, user, turn);
      r.Some? ==> r.value in sessions
  {}

  /** Touching the device a second time replaces the first write. */
  lemma TouchAgain(db: Spec.Db, c: Spec.EventCall, report: Option<Spec.Diagnostics>)
    requires c.auth.device in db.devices
    ensures c.auth.device in Spec.Touch(db, c, None)
    ensures Spec.Touch(db.(devices := Spec.Touch(db, c, None)), c, report) == Spec.Touch(db, c, report)
  {}

  ghost predicate InReceiptOrder(events: Spec.Events, ids: seq<Uuid>) {
    forall i, j | 0 <= i < j < |ids| :: Spec.ReceivedBefore(events, ids[i], ids[j])
  }

  /** The rows picked so far, in order, and those still to be picked. */
  ghost predicate Selecting(events: Spec.Events, ids: seq<Uuid>, rest: set<Uuid>, rows: set<Uuid>) {
    && Elements(ids) + rest == rows && (forall id | id in rest :: id in events)
    && InReceiptOrder(events, ids)
    && forall a, b | a in ids && b in rest :: Spec.ReceivedBefore(events, a, b)
  }

  lemma NothingSelected(events: Spec.Events, user: Uuid, turn: Key)
    ensures Selecting(events, [], Spec.DeferredEvents(events, user, turn), Spec.DeferredEvents(events, user, turn))
  {}

  lemma ListMeaning(events: Spec.Events, user: Uuid, turn: Key, ids: seq<Uuid>)
    requires InReceiptOrder(events, ids) && Elements(ids) == Spec.DeferredEvents(events, user, turn)
    ensures forall id :: id in ids <==> id in events && events[id].user == user
                                        && events[id].request.turnKey == Some(turn)
                                          && events[id].result == Spec.Deferred
    ensures forall i, j | 0 <= i < j < |ids| ::
      var a, b := events[ids[i]].receivedAt, events[ids[j]].receivedAt;
      a < b || (a == b && ids[i] < ids[j])
  {
    assert forall id :: id in ids <==> id in Elements(ids);
  }

  lemma SelectNext(events: Spec.Events, ids: seq<Uuid>, rest: set<Uuid>, rows: set<Uuid>, first: Uuid)
    requires Selecting(events, ids, rest, rows) && first in rest
    requires forall id | id in rest && id != first :: Spec.ReceivedBefore(events, first, id)
    ensures Selecting(events, ids + [first], rest - {first}, rows)
  {
    hide Spec.ReceivedBefore;
    assert forall x :: x in ids + [first] <==> x in ids || x == first;
    assert Elements(ids + [first]) == Elements(ids) + {first};
  }

  lemma ReceiptOrderIsReplayList(events: Spec.Events, user: Uuid, turn: Key, ids: seq<Uuid>)
    requires InReceiptOrder(events, ids) && Elements(ids) == Spec.DeferredEvents(events, user, turn)
    ensures ids == Spec.ReplayList(events, user, turn)
  {
    SortedUnique(ids, Spec.ReplayList(events, user, turn), Spec.ReplayOrder(events));
  }

  lemma ReplayRest(t: Spec.Tables, sid: Uuid, ids: seq<Uuid>, startAt: int)
    requires Spec.Replayable(t, sid, ids) && ids != []
    ensures Spec.Replayable(Spec.ReplayOne(t, sid, ids[0], startAt), sid, ids[1..])
    ensures Spec.Replay(t, sid, ids, startAt)
      == Spec.Replay(Spec.ReplayOne(t, sid, ids[0], startAt), sid, ids[1..], startAt)
  {}

  /** The deferred events of a starting turn can be replayed in the session it runs in. */
  lemma PrepareReplay(db: Spec.Db, c: Spec.EventCall)
    requires Inv(db) && FreshIds(db, c) && Spec.Validate(c.dto, c.appNow).None?
    ensures Spec.DeferredAreTurnEvents(db.events)
    ensures c.dto.event.value.UserPromptSubmit? ==>
      (var a := Spec.Apply(db.sessions, db.events, c);
       a.session.Some? && Spec.Replayable(Spec.Tables(a.sessions, db.events), a.session.value,
                                          Spec.ReplayList(db.events, c.auth.user, c.dto.turnKey.value)))
  {
    FitsAreTurnEvents(db.sessions, db.events);
    hide Inv;
    if c.dto.event.value.UserPromptSubmit? { OpensSession(db, c); }
    hide Spec.Apply, Spec.ReplayList;
  }

  lemma OpensSession(db: Spec.Db, c: Spec.EventCall)
    requires Inv(db) && FreshIds(db, c) && Spec.Validate(c.dto, c.appNow).None? && c.dto.event.value.UserPromptSubmit?
    ensures
      var a := Spec.Apply(db.sessions, db.events, c);
      a.session.Some? && a.session.value in a.sessions
  {
    hide EventsOk, AllAudited, NoStrandedEvents, OneSessionPerTurn, OneActivePerKey, OneActiveManual, SessionsEvolve;
    TurnStartOpens(db.sessions, c.auth.user, c.dto.sessionKey, c.dto.turnKey.value, c.now, c.dto.context, c.newSession);
  }

  datatype RecoveryResult = RecoveryResult(skipped: bool, automaticExpired: nat, manualExpired: nat,
    orphansIgnored: nat)

  /** The recovery job of one process. */
  class Recovery {
    const service: Service
    var running: bool

    constructor (service: Service)
      ensures this.service == service && !running
    {
      this.service := service;
      running := false;
    }

    /** One run of the job. The run is skipped while another run of this process has not finished, or
        when another process holds the lock. The counts are the numbers of rows that changed. */
    method RunCleanup(now: int, locked: bool) returns (r: RecoveryResult)
      requires Inv(service.State())
      modifies this`running, service`sessions, service`events
      ensures running == old(running) && Inv(service.State())
      ensures r.skipped <==> old(running) || !locked
      ensures service.State() == if r.skipped then old(service.State()) else Spec.Cleanup(old(service.State()), now)
      ensures !r.skipped ==>
        && var was, events := old(service.sessions), old(service.events);
        && r.automaticExpired == |set id | id in was && was[id].turnKey.Some? && service.sessions[id] != was[id]|
        && r.manualExpired == |set id | id in was && was[id].turnKey.None? && service.sessions[id] != was[id]|
        && r.orphansIgnored == |set id | id in events && service.events[id] != events[id]|
    {
      hide Inv, Spec.ExpireHeartbeats, Spec.ExpireManual, Spec.IgnoreOrphans, HeartbeatOverdue, ManualOverdue,
           Spec.IsOrphan;
      if running { return RecoveryResult(true, 0, 0, 0); }
      running := true;
      if !locked {
        running := false;
        return RecoveryResult(true, 0, 0, 0);
      }
      CleanupKeeps(service.State(), now);
      var automatic := ExpireAutomaticSessions(now);
      var manual := ExpireManualSessions(now);
      var orphans := IgnoreOrphanEvents(now);
      ManualOverdueUnaffected(old(service.sessions), now);
      OverdueRowsChange(old(service.State()), now);
      running := false;
      return RecoveryResult(false, automatic, manual, orphans);
    }

    method ExpireAutomaticSessions(now: int) returns (count: nat)
      modifies service`sessions
      ensures service.sessions == Spec.ExpireHeartbeats(old(service.sessions), now)
      ensures count == |set id | id in old(service.sessions) && HeartbeatOverdue(old(service.sessions)[id], now)|
    {
      var rows := set id | id in service.sessions && HeartbeatOverdue(service.sessions[id], now);
      service.sessions := Spec.ExpireHeartbeats(service.sessions, now);
      return |rows|;
    }

    method ExpireManualSessions(now: int) returns (count: nat)
      modifies service`sessions
      ensures service.sessions == Spec.ExpireManual(old(service.sessions), now)
      ensures count == |set id | id in old(service.sessions) && ManualOverdue(old(service.sessions)[id], now)|
    {
      var rows := set id | id in service.sessions && ManualOverdue(service.sessions[id], now);
      service.sessions := Spec.ExpireManual(service.sessions, now);
      return |rows|;
    }

    method IgnoreOrphanEvents(now: int) returns (count: nat)
      modifies service`events
      ensures service.events == Spec.IgnoreOrphans(old(service.events), now)
      ensures count == |set id | id in old(service.events) && Spec.IsOrphan(old(service.events)[id], now)|
    {
      var rows := set id | id in service.events && Spec.IsOrphan(service.events[id], now);
      service.events := Spec.IgnoreOrphans(service.events, now);
      return |rows|;
    }
  }

  /** The rows that meet the conditions of the job's statements are the rows that it changes. */
  lemma OverdueRowsChange(db: Spec.Db, now: int)
    ensures
      var after := Spec.Cleanup(db, now);
      && after.sessions.Keys == db.sessions.Keys && after.events.Keys == db.events.Keys
      && (set id | id in db.sessions && HeartbeatOverdue(db.sessions[id], now))
         == (set id | id in db.sessions && db.sessions[id].turnKey.Some? && after.sessions[id] != db.sessions[id])
      && (set id | id in db.sessions && ManualOverdue(db.sessions[id], now))
         == (set id | id in db.sessions && db.sessions[id].turnKey.None? && after.sessions[id] != db.sessions[id])
      && (set id | id in db.events && Spec.IsOrphan(db.events[id], now))
         == (set id | id in db.events && after.events[id] != db.events[id])
  {}

  /** The first timeout UPDATE changes nothing for the second: their conditions exclude each other. */
  lemma ManualOverdueUnaffected(sessions: Spec.Sessions, now: int)
    ensures
      var after := Spec.ExpireHeartbeats(sessions, now);
      (set id | id in after && ManualOverdue(after[id], now))
        == (set id | id in sessions && ManualOverdue(sessions[id], now))
  {}
}
