/**
 The reordering theorem. A turn's events may reach the server before the start
 of their turn; they are then deferred and replayed. Wherever the start falls
 among them, the session ends up as one reference fold over the turn's events
 says: same status, reason, labels and version, and the same result per event.
 */
module Reordering {
  import opened Wrappers
  import opened Ordering
  import opened SessionRows
  import opened SessionSteps
  import opened SessionInvariants

  // ---- The reference: a turn as a fold over its events ----

  /** What reordering may not change about a session. */
  datatype View = View(status: Status, reason: Option<Reason>, workspace: Option<string>, operation: Option<string>,
    version: nat)

  function ViewOf(s: Session): View { View(s.status, s.reason, s.workspace, s.operation, s.version) }

  predicate Open(v: View) { v.status.Running? || v.status.WaitingForUser? }

  function NextView(v: View, d: Dto): View
    requires d.event.Some?
  {
    if !Open(v) then v else
      View(EventStatus(v.status, d.event.value), if d.event.value.Stop? then Some(HookStop) else None,
           Coalesce(d.context.workspace, v.workspace), Coalesce(d.context.operation, v.operation), v.version + 1)
  }

  predicate TurnEventDtos(ds: seq<Dto>) {
    forall i | 0 <= i < |ds| :: ds[i].event.Some? && IsTurnEvent(ds[i].event.value)
  }

  function FoldView(v: View, ds: seq<Dto>): View
    requires TurnEventDtos(ds)
    decreases |ds|
  {
    if ds == [] then v else
      assert TurnEventDtos(ds[1..]) by { assert forall i | 0 <= i < |ds| - 1 :: ds[1..][i] == ds[i + 1]; }
      FoldView(NextView(v, ds[0]), ds[1..])
  }

  /** The result of event i: applied while the turn is open, ignored after its Stop. */
  function FoldResult(v: View, ds: seq<Dto>, i: nat): EventResult
    requires TurnEventDtos(ds) && i < |ds|
  {
    assert TurnEventDtos(ds[..i]);
    if Open(FoldView(v, ds[..i])) then Applied else IgnoredTerminal
  }

  lemma {:induction false} FoldSnoc(v: View, ds: seq<Dto>, d: Dto)
    requires TurnEventDtos(ds) && d.event.Some? && IsTurnEvent(d.event.value)
    ensures TurnEventDtos(ds + [d])
    ensures FoldView(v, ds + [d]) == NextView(FoldView(v, ds), d)
    decreases |ds|
  {
    if ds == [] {
      assert FoldView(NextView(v, d), []) == NextView(v, d);
      assert (ds + [d])[1..] == [];
    } else {
      assert (ds + [d])[1..] == ds[1..] + [d];
      assert TurnEventDtos(ds[1..]);
      FoldSnoc(NextView(v, ds[0]), ds[1..], d);
    }
  }

  // ---- Delivering calls one after another ----

  ghost predicate Deliverable(db: Db, calls: seq<EventCall>)
    requires Inv(db)
    decreases |calls|
  {
    calls == [] ||
    (FreshIds(db, calls[0]) &&
     (ProcessEventKeeps(db, calls[0]); Deliverable(ProcessEvent(db, calls[0]).0, calls[1..])))
  }

  ghost function DeliverAll(db: Db, calls: seq<EventCall>): (r: Db)
    requires Inv(db) && Deliverable(db, calls)
    ensures Inv(r)
    decreases |calls|
  {
    if calls == [] then db else
      ProcessEventKeeps(db, calls[0]);
      DeliverAll(ProcessEvent(db, calls[0]).0, calls[1..])
  }

  /** The calls belong to one turn of one user, are valid and come from usable devices. */
  ghost predicate Good(db: Db, user: Uuid, turn: Key, calls: seq<EventCall>) {
    forall i | 0 <= i < |calls| ::
      && calls[i].auth.user == user && calls[i].dto.turnKey == Some(turn)
      && Validate(calls[i].dto, calls[i].appNow).None? && !calls[i].dto.event.value.SessionStart?
      && DeviceUsable(db, calls[i].auth, calls[i].now)
      && FreshIds(db, calls[i])
  }

  /** No two calls share a row id, an event id or a sequence number. */
  ghost predicate Distinct(calls: seq<EventCall>) {
    forall i, j | 0 <= i < j < |calls| ::
      && calls[i].newEvent != calls[j].newEvent && calls[i].newSession != calls[j].newSession
      && (calls[i].auth.device == calls[j].auth.device ==>
            && calls[i].dto.eventId != calls[j].dto.eventId
            && (calls[i].dto.sequence.Some? ==> calls[i].dto.sequence != calls[j].dto.sequence))
  }

  ghost predicate NotStoredYet(db: Db, calls: seq<EventCall>) {
    forall i, id | 0 <= i < |calls| && id in db.events && db.events[id].device == calls[i].auth.device ::
      && db.events[id].request.eventId != calls[i].dto.eventId
      && (calls[i].dto.sequence.Some? ==> db.events[id].request.sequence != calls[i].dto.sequence)
  }

  /** A first delivery of all calls of a turn that has no events yet. */
  ghost predicate NewCalls(db: Db, user: Uuid, turn: Key, calls: seq<EventCall>) {
    && |calls| <= MAX_EVENTS_PER_TURN
    && TurnEvents(db.events, user, turn) == {}
    && Good(db, user, turn, calls) && Distinct(calls) && NotStoredYet(db, calls)
  }

  /** Such a delivery of a turn the server has not heard of. */
  ghost predicate FirstDelivery(db: Db, user: Uuid, turn: Key, calls: seq<EventCall>) {
    && Inv(db) && NewCalls(db, user, turn, calls)
    && forall id | id in db.sessions :: !OwnsTurn(db.sessions[id], user, turn)
  }

  // ---- The state after some of the calls ----

  ghost predicate RowOf(events: Events, c: EventCall) {
    && c.newEvent in events
    && var row := events[c.newEvent];
       row.device == c.auth.device && row.user == c.auth.user && row.request == c.dto && row.receivedAt == c.now
  }

  function Ids(calls: seq<EventCall>): (r: seq<Uuid>)
    ensures |r| == |calls| && forall i | 0 <= i < |calls| :: r[i] == calls[i].newEvent
  {
    seq(|calls|, i requires 0 <= i < |calls| => calls[i].newEvent)
  }

  /** The events of t are those of db, unchanged, and one row per delivered call. */
  ghost predicate Delivered(db: Db, t: Db, done: seq<EventCall>) {
    && (forall id | id in db.events :: id in t.events && t.events[id] == db.events[id])
    && (forall i | 0 <= i < |done| :: RowOf(t.events, done[i]))
    && t.events.Keys == db.events.Keys + Elements(Ids(done))
    && t.deletedUsers == db.deletedUsers && t.devices.Keys == db.devices.Keys
    && (forall k | k in db.devices :: t.devices[k].user == db.devices[k].user
                                     && t.devices[k].revoked == db.devices[k].revoked
                                     && t.devices[k].expiresAt == db.devices[k].expiresAt)
  }

  lemma {:induction false} IdsSize(calls: seq<EventCall>, ids: set<Uuid>)
    requires forall id | id in ids :: exists i :: 0 <= i < |calls| && calls[i].newEvent == id
    ensures |ids| <= |calls|
  {
    if calls != [] {
      var front, last := calls[..|calls| - 1], calls[|calls| - 1];
      var rest := ids - {last.newEvent};
      forall id | id in rest ensures exists i :: 0 <= i < |front| && front[i].newEvent == id {
        var i :| 0 <= i < |calls| && calls[i].newEvent == id;
        assert front[i].newEvent == id;
      }
      IdsSize(front, rest);
      SubsetSize(ids, rest + {last.newEvent});
    } else {
      assert ids == {};
    }
  }

  lemma IdOfCall(calls: seq<EventCall>, id: Uuid)
    ensures id in Elements(Ids(calls)) <==> exists i :: 0 <= i < |calls| && calls[i].newEvent == id
  {
    if i :| 0 <= i < |calls| && calls[i].newEvent == id { assert Ids(calls)[i] == id; }
  }

  /** The next call of a first delivery is always accepted. */
  lemma NextIsAcceptable(db: Db, t: Db, user: Uuid, turn: Key, calls: seq<EventCall>, k: nat)
    requires NewCalls(db, user, turn, calls) && k < |calls| && Delivered(db, t, calls[..k])
    ensures Acceptable(t, calls[k]) && calls[k].newEvent !in t.events
  {
    var c := calls[k];
    assert DeviceUsable(db, c.auth, c.now) && FreshIds(db, c);
    forall id | id in t.events
      ensures id != c.newEvent && !IsStoredAs(t.events[id], c.auth.device, c.dto.eventId)
      ensures c.dto.sequence.Some? && t.events[id].device == c.auth.device ==>
        t.events[id].request.sequence != c.dto.sequence
    {
      if id !in db.events {
        IdOfCall(calls[..k], id);
        var i :| 0 <= i < k && calls[..k][i].newEvent == id;
        assert calls[..k][i] == calls[i] && RowOf(t.events, calls[i]);
      }
    }
    var ids := TurnEvents(t.events, user, turn);
    forall id | id in ids ensures exists i :: 0 <= i < k && calls[..k][i].newEvent == id {
      assert id !in TurnEvents(db.events, user, turn);
      IdOfCall(calls[..k], id);
    }
    IdsSize(calls[..k], ids);
  }

  // ---- One event of the fold ----

  function Dtos(calls: seq<EventCall>): (r: seq<Dto>)
    ensures |r| == |calls| && forall i | 0 <= i < |calls| :: r[i] == calls[i].dto
  {
    seq(|calls|, i requires 0 <= i < |calls| => calls[i].dto)
  }

  /** Applying an event is one step of the fold, as long as no timeout ended the session. */
  lemma ApplyIsFoldStep(
    sessions: Sessions, events: Events, sid: Uuid, device: Uuid, at: int, v0: View, ds: seq<Dto>, j: nat)
    requires sid in sessions && TurnEventDtos(ds) && j < |ds|
    requires TurnEventDtos(ds[..j]) && ViewOf(sessions[sid]) == FoldView(v0, ds[..j]) && !Recoverable(sessions[sid])
    ensures TurnEventDtos(ds[..j + 1])
    ensures
      var a := ApplySessionEvent(sessions, events, sid, device, ds[j].event.value, at, ds[j].context);
      && a.session == Some(sid) && a.result == FoldResult(v0, ds, j)
      && a.sessions == sessions[sid := a.sessions[sid]]
      && ViewOf(a.sessions[sid]) == FoldView(v0, ds[..j + 1]) && !Recoverable(a.sessions[sid])
      && a.sessions[sid].user == sessions[sid].user && a.sessions[sid].turnKey == sessions[sid].turnKey
      && a.sessions[sid].startedAt == sessions[sid].startedAt
  {
    assert ds[..j + 1] == ds[..j] + [ds[j]];
    FoldSnoc(v0, ds[..j], ds[j]);
  }

  // ---- Replay is the fold ----

  ghost predicate RowsFor(events: Events, calls: seq<EventCall>) {
    forall i | 0 <= i < |calls| :: RowOf(events, calls[i])
  }

  /** A replayed session's times: every event came before the start, so a stop has no duration. */
  predicate Squeezed(s: Session, anyEvent: bool) {
    (if anyEvent then s.timing.Degraded? else Active(s)) && (s.endedAt.Some? ==> s.endedAt.value == s.startedAt)
  }

  /** The session after the first j deferred events were replayed. */
  ghost predicate FoldedTo(s: Session, v0: View, ds: seq<Dto>, j: nat) {
    && j <= |ds| && TurnEventDtos(ds) && TurnEventDtos(ds[..j])
    && ViewOf(s) == FoldView(v0, ds[..j]) && !Recoverable(s)
  }

  /** Deferred rows of calls that can all be replayed at startAt. */
  ghost predicate InTime(pre: seq<EventCall>, startAt: int, inserted: bool) {
    forall i | 0 <= i < |pre| :: startAt - pre[i].now <= DEFERRED_EVENT_TTL_MS && (inserted ==> pre[i].now < startAt)
  }

  predicate SqueezedAt(s: Session, j: nat, startAt: int, inserted: bool) {
    inserted ==> s.startedAt == startAt && Squeezed(s, j > 0)
  }

  /** Only the session and the rows of pre from j on may have changed. */
  ghost predicate ReplayFrame(t: Tables, r: Tables, sid: Uuid, pre: seq<EventCall>, j: nat) {
    && sid in t.sessions && sid in r.sessions && r.sessions == t.sessions[sid := r.sessions[sid]]
    && r.sessions[sid].user == t.sessions[sid].user && r.sessions[sid].turnKey == t.sessions[sid].turnKey
    && r.events.Keys == t.events.Keys
    && forall id | id in t.events && (forall i | j <= i < |pre| :: pre[i].newEvent != id) ::
       r.events[id] == t.events[id]
  }

  lemma ReplayOneIsFoldStep(t: Tables, sid: Uuid, pre: seq<EventCall>, j: nat, startAt: int, v0: View, inserted: bool)
    requires j < |pre| && RowsFor(t.events, pre) && sid in t.sessions && InTime(pre, startAt, inserted)
    requires FoldedTo(t.sessions[sid], v0, Dtos(pre), j) && SqueezedAt(t.sessions[sid], j, startAt, inserted)
    ensures pre[j].dto.event.Some?
    ensures
      var id := pre[j].newEvent;
      var one := ReplayOne(t, sid, id, startAt);
      && FoldedTo(one.sessions[sid], v0, Dtos(pre), j + 1) && SqueezedAt(one.sessions[sid], j + 1, startAt, inserted)
      && one.events == t.events[id := one.events[id]] && RowOf(one.events, pre[j])
      && one.events[id].result == FoldResult(v0, Dtos(pre), j)
      && one.sessions == t.sessions[sid := one.sessions[sid]]
      && one.sessions[sid].user == t.sessions[sid].user && one.sessions[sid].turnKey == t.sessions[sid].turnKey
  {
    assert RowOf(t.events, pre[j]) && Dtos(pre)[j] == pre[j].dto;
    ApplyIsFoldStep(t.sessions, t.events, sid, pre[j].auth.device, pre[j].now, v0, Dtos(pre), j);
  }

  lemma RowsAreReplayable(t: Tables, sid: Uuid, pre: seq<EventCall>, j: nat)
    requires j <= |pre| && RowsFor(t.events, pre) && sid in t.sessions && TurnEventDtos(Dtos(pre))
    ensures Replayable(t, sid, Ids(pre)[j..])
    ensures j < |pre| ==> Ids(pre)[j..] == [pre[j].newEvent] + Ids(pre)[j + 1..]
  {
    var ids := Ids(pre)[j..];
    forall id | id in ids ensures id in t.events && t.events[id].request.event.Some? {
      var i :| 0 <= i < |ids| && ids[i] == id;
      assert RowOf(t.events, pre[j + i]) && Dtos(pre)[j + i].event.Some?;
    }
  }

  ghost predicate ResultsFrom(events: Events, v0: View, pre: seq<EventCall>, j: nat) {
    && RowsFor(events, pre) && TurnEventDtos(Dtos(pre))
    && forall i | j <= i < |pre| :: events[pre[i].newEvent].result == FoldResult(v0, Dtos(pre), i)
  }

  /** One replayed event: its own row and the session change. */
  ghost predicate OneReplayed(t: Tables, one: Tables, sid: Uuid, id: Uuid) {
    && sid in t.sessions && id in t.events && id in one.events && one.events == t.events[id := one.events[id]]
    && sid in one.sessions && one.sessions == t.sessions[sid := one.sessions[sid]]
    && one.sessions[sid].user == t.sessions[sid].user && one.sessions[sid].turnKey == t.sessions[sid].turnKey
  }

  lemma ExtendFrame(t: Tables, one: Tables, r: Tables, sid: Uuid, pre: seq<EventCall>, j: nat)
    requires j < |pre| && Distinct(pre) && OneReplayed(t, one, sid, pre[j].newEvent)
    requires ReplayFrame(one, r, sid, pre, j + 1)
    ensures ReplayFrame(t, r, sid, pre, j)
    ensures pre[j].newEvent in r.events && r.events[pre[j].newEvent] == one.events[pre[j].newEvent]
  {
    assert forall i | j + 1 <= i < |pre| :: pre[i].newEvent != pre[j].newEvent;
    forall id | id in t.events && forall i | j <= i < |pre| :: pre[i].newEvent != id
      ensures r.events[id] == t.events[id]
    {
      assert id != pre[j].newEvent && one.events[id] == t.events[id];
    }
  }

  lemma ExtendReplay(t: Tables, one: Tables, r: Tables, sid: Uuid, v0: View, pre: seq<EventCall>, j: nat)
    requires j < |pre| && Distinct(pre) && TurnEventDtos(Dtos(pre)) && OneReplayed(t, one, sid, pre[j].newEvent)
    requires ReplayFrame(one, r, sid, pre, j + 1) && ResultsFrom(r.events, v0, pre, j + 1)
    requires one.events[pre[j].newEvent].result == FoldResult(v0, Dtos(pre), j)
    ensures ReplayFrame(t, r, sid, pre, j) && ResultsFrom(r.events, v0, pre, j)
  {
    hide ReplayFrame, OneReplayed, RowsFor, Distinct, FoldResult;
    ExtendFrame(t, one, r, sid, pre, j);
  }

  lemma {:induction false} ReplayIsFold(
    t: Tables, sid: Uuid, pre: seq<EventCall>, j: nat, startAt: int, v0: View, inserted: bool)
    requires j <= |pre| && RowsFor(t.events, pre) && Distinct(pre) && sid in t.sessions
    requires InTime(pre, startAt, inserted)
    requires FoldedTo(t.sessions[sid], v0, Dtos(pre), j) && SqueezedAt(t.sessions[sid], j, startAt, inserted)
    ensures Replayable(t, sid, Ids(pre)[j..])
    ensures
      var r := Replay(t, sid, Ids(pre)[j..], startAt);
      && FoldedTo(r.sessions[sid], v0, Dtos(pre), |pre|) && SqueezedAt(r.sessions[sid], |pre|, startAt, inserted)
      && ReplayFrame(t, r, sid, pre, j) && ResultsFrom(r.events, v0, pre, j)
    decreases |pre| - j
  {
    RowsAreReplayable(t, sid, pre, j);
    if j == |pre| {
      assert t.sessions == t.sessions[sid := t.sessions[sid]];
    } else {
      ReplayOneIsFoldStep(t, sid, pre, j, startAt, v0, inserted);
      var one := ReplayOne(t, sid, pre[j].newEvent, startAt);
      assert RowsFor(one.events, pre) by {
        forall i | 0 <= i < |pre| ensures RowOf(one.events, pre[i]) { assert RowOf(t.events, pre[i]); }
      }
      ReplayIsFold(one, sid, pre, j + 1, startAt, v0, inserted);
      var r := Replay(one, sid, Ids(pre)[j + 1..], startAt);
      assert Ids(pre)[j..][1..] == Ids(pre)[j + 1..];
      assert Replay(t, sid, Ids(pre)[j..], startAt) == r;
      assert OneReplayed(t, one, sid, pre[j].newEvent);
      ExtendReplay(t, one, r, sid, v0, pre, j);
    }
  }

  // ---- Before the start: every event is deferred ----

  ghost predicate Waiting(db: Db, t: Db, done: seq<EventCall>) {
    && Inv(t) && Delivered(db, t, done) && t.sessions == db.sessions
    && forall i | 0 <= i < |done| :: t.events[done[i].newEvent].result.Deferred?
  }

  lemma AcceptDelivers(db: Db, t: Db, next: Db, done: seq<EventCall>, c: EventCall)
    requires Delivered(db, t, done) && c.newEvent !in t.events && c.auth.device in t.devices
    requires c.newEvent in next.events && next.events == t.events[c.newEvent := next.events[c.newEvent]]
    requires RowOf(next.events, c)
    requires next.devices == Touch(t, c, c.dto.diagnostics) && next.deletedUsers == t.deletedUsers
    ensures Delivered(db, next, done + [c])
  {
    forall i | 0 <= i < |done + [c]| ensures RowOf(next.events, (done + [c])[i]) {
      if i < |done| { assert RowOf(t.events, done[i]); }
    }
    assert Ids(done + [c]) == Ids(done) + [c.newEvent];
    assert Elements(Ids(done) + [c.newEvent]) == Elements(Ids(done)) + {c.newEvent};
  }

  lemma EarlyEventIsDeferred(db: Db, t: Db, user: Uuid, turn: Key, calls: seq<EventCall>, k: nat)
    requires FirstDelivery(db, user, turn, calls) && k < |calls| && Waiting(db, t, calls[..k])
    requires IsTurnEvent(calls[k].dto.event.value)
    ensures FreshIds(t, calls[k]) && DeferredAreTurnEvents(t.events)
    ensures Waiting(db, ProcessEvent(t, calls[k]).0, calls[..k + 1])
  {
    hide Inv, Delivered, Acceptable;
    var c := calls[k];
    NextIsAcceptable(db, t, user, turn, calls, k);
    ProcessEventKeeps(t, c);
    ProcessEventCases(t, c);
    var next := ProcessEvent(t, c).0;
    assert FindByTurn(t.sessions, user, turn).None?;
    assert calls[..k + 1] == calls[..k] + [c];
    AcceptDelivers(db, t, next, calls[..k], c);
  }

  // ---- The start ----

  /** What the fold starts from: the adopted manual session or a new one. */
  ghost function StartView(db: Db, c: EventCall): View
    requires Inv(db) && FreshIds(db, c) && Validate(c.dto, c.appNow).None? && c.dto.event.value.UserPromptSubmit?
  {
    var a := Apply(db.sessions, db.events, c);
    TurnStartOpens(db.sessions, c.auth.user, c.dto.sessionKey, c.dto.turnKey.value, c.now, c.dto.context, c.newSession);
    ViewOf(a.sessions[a.session.value])
  }

  /** Neither the time of the start nor the new ids show in the view. */
  lemma StartViewIgnoresTime(db: Db, c: EventCall, d: EventCall)
    requires Inv(db) && FreshIds(db, c) && FreshIds(db, d) && c.dto == d.dto && c.auth == d.auth
    requires Validate(c.dto, c.appNow).None? && Validate(d.dto, d.appNow).None? && c.dto.event.value.UserPromptSubmit?
    requires FindByTurn(db.sessions, c.auth.user, c.dto.turnKey.value).None?
    ensures StartView(db, c) == StartView(db, d)
  {}

  /** Receipt times that decide the replay order: strictly increasing. */
  ghost predicate Increasing(calls: seq<EventCall>) {
    forall i, j | 0 <= i < j < |calls| :: calls[i].now < calls[j].now
  }

  lemma WaitingAreDeferred(db: Db, t: Db, user: Uuid, turn: Key, pre: seq<EventCall>)
    requires Waiting(db, t, pre) && TurnEvents(db.events, user, turn) == {}
    requires forall i | 0 <= i < |pre| :: pre[i].auth.user == user && pre[i].dto.turnKey == Some(turn)
    ensures RowsFor(t.events, pre) && Elements(Ids(pre)) == DeferredEvents(t.events, user, turn)
  {
    hide Inv;
    var deferred := DeferredEvents(t.events, user, turn);
    forall id ensures id in Elements(Ids(pre)) <==> id in deferred {
      if id in Ids(pre) {
        var i :| 0 <= i < |pre| && Ids(pre)[i] == id;
        assert RowOf(t.events, pre[i]);
      }
      if id in deferred {
        assert id !in TurnEvents(db.events, user, turn);
      }
    }
  }

  /** The replay order of a turn's deferred events is the order they were delivered in. */
  lemma ReplayListIsDeliveryOrder(db: Db, t: Db, user: Uuid, turn: Key, pre: seq<EventCall>)
    requires Waiting(db, t, pre) && TurnEvents(db.events, user, turn) == {} && Increasing(pre)
    requires forall i | 0 <= i < |pre| :: pre[i].auth.user == user && pre[i].dto.turnKey == Some(turn)
    ensures ReplayList(t.events, user, turn) == Ids(pre)
  {
    WaitingAreDeferred(db, t, user, turn, pre);
    forall i, j | 0 <= i < j < |pre| ensures ReplayOrder(t.events)(Ids(pre)[i], Ids(pre)[j]) {
      assert RowOf(t.events, pre[i]) && RowOf(t.events, pre[j]);
    }
    ReplayOrderIsTotal(t.events, user, turn);
    hide Waiting, Increasing, ReplayOrder, TurnEvents, DeferredEvents, StrictTotalOn, RowsFor;
    SortedUnique(ReplayList(t.events, user, turn), Ids(pre), ReplayOrder(t.events));
  }

  lemma ReplayOrderIsTotal(events: Events, user: Uuid, turn: Key)
    ensures StrictTotalOn(ReplayOrder(events), DeferredEvents(events, user, turn))
    ensures StrictlySorted(ReplayList(events, user, turn), ReplayOrder(events))
  {}

  function Others(calls: seq<EventCall>, p: nat): seq<EventCall>
    requires p < |calls|
  {
    calls[..p] + calls[p + 1..]
  }

  /** The start is call p, and only that. */
  ghost predicate StartsAt(calls: seq<EventCall>, p: nat) {
    && p < |calls|
    && forall i | 0 <= i < |calls| ::
         if i == p then calls[i].dto.event == Some(UserPromptSubmit)
         else calls[i].dto.event.Some? && IsTurnEvent(calls[i].dto.event.value)
  }

  /** A first delivery of a turn whose start is call p. The events before the start reach the server
      at distinct times, none more than 24 hours before it; the others may come at any time. */
  ghost predicate Shape(db: Db, user: Uuid, turn: Key, calls: seq<EventCall>, p: nat) {
    && FirstDelivery(db, user, turn, calls) && StartsAt(calls, p)
    && Increasing(calls[..p]) && InTime(calls[..p], calls[p].now, true)
  }

  lemma ShapeDtos(db: Db, user: Uuid, turn: Key, calls: seq<EventCall>, p: nat)
    requires Shape(db, user, turn, calls, p)
    ensures TurnEventDtos(Dtos(Others(calls, p))) && TurnEventDtos(Dtos(calls[..p]))
    ensures Validate(calls[p].dto, calls[p].appNow).None? && FreshIds(db, calls[p])
  {
    var o := Others(calls, p);
    forall i | 0 <= i < |o| ensures o[i].dto.event.Some? && IsTurnEvent(o[i].dto.event.value) {
      assert o[i] == if i < p then calls[i] else calls[i + 1];
    }
  }

  /** After the start and i of the other events: the session is the fold of those i events. */
  ghost predicate Started(db: Db, t: Db, user: Uuid, turn: Key, o: seq<EventCall>, sid: Uuid, v0: View, i: nat) {
    && sid in t.sessions && OwnsTurn(t.sessions[sid], user, turn) && i <= |o|
    && FoldedTo(t.sessions[sid], v0, Dtos(o), i)
    && forall j | 0 <= j < i ::
       o[j].newEvent in t.events && t.events[o[j].newEvent].result == FoldResult(v0, Dtos(o), j)
  }

  lemma FoldPrefix(s: Session, v0: View, pre: seq<EventCall>, o: seq<EventCall>)
    requires pre <= o && TurnEventDtos(Dtos(o)) && FoldedTo(s, v0, Dtos(pre), |pre|)
    ensures FoldedTo(s, v0, Dtos(o), |pre|)
    ensures forall j | 0 <= j < |pre| :: FoldResult(v0, Dtos(o), j) == FoldResult(v0, Dtos(pre), j)
  {
    assert Dtos(o)[..|pre|] == Dtos(pre)[..|pre|];
    forall j | 0 <= j < |pre| ensures Dtos(o)[..j] == Dtos(pre)[..j] {}
  }

  /** The tables right after the deferred events were replayed, before the start's own row is stored. */
  ghost function AfterReplay(t: Db, c: EventCall): Tables
    requires DeferredAreTurnEvents(t.events) && Validate(c.dto, c.appNow).None?
  {
    ApplyAndReplay(t.sessions, t.events, c)
  }

  /** A turn runs in a new session or in the manual session it adopted. */
  ghost predicate Placed(db: Db, c: EventCall, sid: Uuid) {
    sid == c.newSession || FindActiveManual(db.sessions, c.auth.user) == Some(sid)
  }

  /** Opening the turn: the session it runs in and what the fold starts from. */
  ghost predicate OpensWith(db: Db, c: EventCall, a: Applying, sid: Uuid, v0: View, user: Uuid, turn: Key) {
    && a.session == Some(sid) && sid in a.sessions && Active(a.sessions[sid]) && ViewOf(a.sessions[sid]) == v0
    && OwnsTurn(a.sessions[sid], user, turn)
    && (sid == c.newSession ==> SqueezedAt(a.sessions[sid], 0, c.now, true))
    && Placed(db, c, sid)
    && a.sessions.Keys <= db.sessions.Keys + {c.newSession}
  }

  lemma StartOpens(db: Db, events: Events, c: EventCall, user: Uuid, turn: Key) returns (sid: Uuid)
    requires Inv(db) && FreshIds(db, c) && Validate(c.dto, c.appNow).None? && c.dto.event == Some(UserPromptSubmit)
    requires c.auth.user == user && c.dto.turnKey == Some(turn) && FindByTurn(db.sessions, user, turn).None?
    ensures OpensWith(db, c, Apply(db.sessions, events, c), sid, StartView(db, c), user, turn)
  {
    TurnStartOpens(db.sessions, user, c.dto.sessionKey, turn, c.now, c.dto.context, c.newSession);
    sid := Apply(db.sessions, events, c).session.value;
  }

  ghost predicate StartFolded(db: Db, t: Db, c: EventCall, pre: seq<EventCall>, a: Applying, r: Tables, sid: Uuid,
    v0: View, user: Uuid, turn: Key) {
    && ReplayFrame(Tables(a.sessions, t.events), r, sid, pre, 0)
    && OwnsTurn(r.sessions[sid], user, turn)
    && TurnEventDtos(Dtos(pre)) && FoldedTo(r.sessions[sid], v0, Dtos(pre), |pre|)
    && ResultsFrom(r.events, v0, pre, 0)
    && (sid == c.newSession ==> SqueezedAt(r.sessions[sid], |pre|, c.now, true))
    && Placed(db, c, sid)
    && r.sessions.Keys <= db.sessions.Keys + {c.newSession}
  }

  lemma OpenedFolds(
    db: Db, t: Db, c: EventCall, pre: seq<EventCall>, a: Applying, sid: Uuid, v0: View, user: Uuid, turn: Key)
    requires OpensWith(db, c, a, sid, v0, user, turn)
    requires RowsFor(t.events, pre) && Distinct(pre) && InTime(pre, c.now, true) && TurnEventDtos(Dtos(pre))
    ensures Replayable(Tables(a.sessions, t.events), sid, Ids(pre))
    ensures StartFolded(db, t, c, pre, a, Replay(Tables(a.sessions, t.events), sid, Ids(pre), c.now), sid,
      v0, user, turn)
  {
    assert Dtos(pre)[..0] == [];
    assert Ids(pre)[0..] == Ids(pre);
    ReplayIsFold(Tables(a.sessions, t.events), sid, pre, 0, c.now, v0, sid == c.newSession);
  }

  /** A start that is about to be processed while the events of pre wait for it. */
  ghost predicate ReadyToStart(db: Db, t: Db, c: EventCall, pre: seq<EventCall>, user: Uuid, turn: Key) {
    && DeferredAreTurnEvents(t.events) && FreshIds(db, c) && Validate(c.dto, c.appNow).None?
    && c.dto.event == Some(UserPromptSubmit) && c.auth.user == user && c.dto.turnKey == Some(turn)
    && FindByTurn(db.sessions, user, turn).None? && t.sessions == db.sessions
    && RowsFor(t.events, pre) && Distinct(pre) && InTime(pre, c.now, true) && TurnEventDtos(Dtos(pre))
    && ReplayList(t.events, user, turn) == Ids(pre)
  }

  lemma ShapePrefix(db: Db, user: Uuid, turn: Key, calls: seq<EventCall>, p: nat)
    requires Shape(db, user, turn, calls, p)
    ensures Distinct(calls[..p]) && TurnEventDtos(Dtos(calls[..p])) && TurnEvents(db.events, user, turn) == {}
    ensures forall i | 0 <= i < p :: calls[..p][i].auth.user == user && calls[..p][i].dto.turnKey == Some(turn)
    ensures FindByTurn(db.sessions, user, turn).None?
    ensures FreshIds(db, calls[p]) && Validate(calls[p].dto, calls[p].appNow).None?
    ensures calls[p].dto.event == Some(UserPromptSubmit) && calls[p].auth.user == user
    ensures calls[p].dto.turnKey == Some(turn)
  {
    ShapeDtos(db, user, turn, calls, p);
    assert forall i | 0 <= i < p :: calls[..p][i] == calls[i];
  }

  lemma WaitingIsReady(db: Db, t: Db, user: Uuid, turn: Key, calls: seq<EventCall>, p: nat)
    requires Shape(db, user, turn, calls, p) && Waiting(db, t, calls[..p])
    ensures ReadyToStart(db, t, calls[p], calls[..p], user, turn)
  {
    ShapePrefix(db, user, turn, calls, p);
    assert DeferredAreTurnEvents(t.events) by { FitsAreTurnEvents(t.sessions, t.events); }
    ReplayListIsDeliveryOrder(db, t, user, turn, calls[..p]);
  }

  lemma StartFolds(db: Db, t: Db, c: EventCall, pre: seq<EventCall>, user: Uuid, turn: Key) returns (sid: Uuid)
    requires Inv(db) && ReadyToStart(db, t, c, pre, user, turn)
    ensures Apply(db.sessions, t.events, c).session == Some(sid)
    ensures StartFolded(db, t, c, pre, Apply(db.sessions, t.events, c), AfterReplay(t, c), sid,
      StartView(db, c), user, turn)
  {
    sid := StartOpens(db, t.events, c, user, turn);
    OpenedFolds(db, t, c, pre, Apply(db.sessions, t.events, c), sid, StartView(db, c), user, turn);
  }

  /** Storing the start's row leaves the replayed session and results as they are. */
  lemma StartedAfterStoring(
    db: Db, t: Db, next: Db, calls: seq<EventCall>, p: nat, a: Applying, r: Tables, sid: Uuid, v0: View,
      user: Uuid, turn: Key)
    requires p < |calls| && TurnEventDtos(Dtos(Others(calls, p)))
    requires StartFolded(db, t, calls[p], calls[..p], a, r, sid, v0, user, turn)
    requires next.sessions == r.sessions && calls[p].newEvent in next.events
    requires next.events == r.events[calls[p].newEvent := next.events[calls[p].newEvent]]
    requires calls[p].newEvent !in r.events
    ensures Started(db, next, user, turn, Others(calls, p), sid, v0, p)
  {
    hide SqueezedAt, Placed;
    var pre, o := calls[..p], Others(calls, p);
    assert pre <= o;
    FoldPrefix(r.sessions[sid], v0, pre, o);
    hide FoldedTo, FoldResult, OwnsTurn;
    forall j | 0 <= j < p
      ensures o[j].newEvent in next.events && next.events[o[j].newEvent].result == FoldResult(v0, Dtos(o), j)
    {
      assert RowOf(r.events, pre[j]) && o[j] == pre[j];
    }
  }

  lemma StartReplaysWaiting(db: Db, t: Db, user: Uuid, turn: Key, calls: seq<EventCall>, p: nat) returns (sid: Uuid)
    requires Shape(db, user, turn, calls, p) && Waiting(db, t, calls[..p])
    ensures FreshIds(t, calls[p]) && DeferredAreTurnEvents(t.events)
    ensures Validate(calls[p].dto, calls[p].appNow).None? && FreshIds(db, calls[p])
    ensures
      var next := ProcessEvent(t, calls[p]).0;
      && Delivered(db, next, calls[..p + 1])
      && Started(db, next, user, turn, Others(calls, p), sid, StartView(db, calls[p]), p)
      && (sid == calls[p].newSession ==> SqueezedAt(next.sessions[sid], p, calls[p].now, true))
      && Placed(db, calls[p], sid)
      && next.sessions.Keys <= db.sessions.Keys + {calls[p].newSession}
  {
    var c := calls[p];
    WaitingIsReady(db, t, user, turn, calls, p);
    sid := StartFolds(db, t, c, calls[..p], user, turn);
    StartIsAccepted(db, t, user, turn, calls, p);
    var a, r, next := Apply(db.sessions, t.events, c), AfterReplay(t, c), ProcessEvent(t, c).0;
    StartedAfterStoring(db, t, next, calls, p, a, r, sid, StartView(db, c), user, turn);
    StartDelivers(db, t, next, r, a, calls, p);
  }

  lemma StartIsAccepted(db: Db, t: Db, user: Uuid, turn: Key, calls: seq<EventCall>, p: nat)
    requires Shape(db, user, turn, calls, p) && Waiting(db, t, calls[..p]) && DeferredAreTurnEvents(t.events)
    ensures FreshIds(t, calls[p]) && calls[p].auth.device in t.devices && TurnEventDtos(Dtos(Others(calls, p)))
    ensures Validate(calls[p].dto, calls[p].appNow).None? && FreshIds(db, calls[p])
    ensures forall i | 0 <= i < p :: calls[i].newEvent !in db.events
    ensures
      var c, next := calls[p], ProcessEvent(t, calls[p]).0;
      && Inv(next) && next.sessions == AfterReplay(t, c).sessions
      && c.newEvent in next.events && next.events == AfterReplay(t, c).events[c.newEvent := next.events[c.newEvent]]
      && RowOf(next.events, c) && next.devices == Touch(t, c, c.dto.diagnostics) && next.deletedUsers == t.deletedUsers
  {
    ShapeDtos(db, user, turn, calls, p);
    NextIsAcceptable(db, t, user, turn, calls, p);
    ProcessEventKeeps(t, calls[p]);
    ProcessEventCases(t, calls[p]);
  }

  /** Replaying the rows of pre leaves them rows of pre, and all others untouched. */
  lemma ReplayedDelivers(db: Db, t: Db, r: Tables, a: Applying, pre: seq<EventCall>)
    requires Delivered(db, t, pre) && a.session.Some?
    requires ReplayFrame(Tables(a.sessions, t.events), r, a.session.value, pre, 0) && RowsFor(r.events, pre)
    requires forall i | 0 <= i < |pre| :: pre[i].newEvent !in db.events
    ensures Delivered(db, t.(events := r.events), pre) && r.events.Keys == t.events.Keys
  {
    hide RowOf;
    forall id | id in db.events ensures r.events[id] == db.events[id] {
      assert forall i | 0 <= i < |pre| :: pre[i].newEvent != id;
    }
  }

  lemma StartDelivers(db: Db, t: Db, next: Db, r: Tables, a: Applying, calls: seq<EventCall>, p: nat)
    requires p < |calls| && Delivered(db, t, calls[..p]) && a.session.Some? && calls[p].newEvent !in t.events
    requires ReplayFrame(Tables(a.sessions, t.events), r, a.session.value, calls[..p], 0)
    requires RowsFor(r.events, calls[..p])
    requires forall i | 0 <= i < p :: calls[i].newEvent !in db.events
    requires calls[p].newEvent in next.events
    requires next.events == r.events[calls[p].newEvent := next.events[calls[p].newEvent]]
    requires RowOf(next.events, calls[p]) && calls[p].auth.device in t.devices
    requires next.devices == Touch(t, calls[p], calls[p].dto.diagnostics) && next.deletedUsers == t.deletedUsers
    ensures Delivered(db, next, calls[..p + 1])
  {
    hide Delivered, RowOf, RowsFor, ReplayFrame;
    assert forall i | 0 <= i < p :: calls[..p][i] == calls[i];
    ReplayedDelivers(db, t, r, a, calls[..p]);
    AcceptDelivers(db, t.(events := r.events), next, calls[..p], calls[p]);
    assert calls[..p + 1] == calls[..p] + [calls[p]];
  }

  // ---- After the start: every event is applied on arrival ----

  /** The state after call k - 1, when the start was call p < k. */
  ghost predicate Running(
    db: Db, t: Db, user: Uuid, turn: Key, calls: seq<EventCall>, p: nat, k: nat, sid: Uuid, v0: View) {
    && p < k <= |calls| && Delivered(db, t, calls[..k])
    && Started(db, t, user, turn, Others(calls, p), sid, v0, k - 1)
    && t.sessions.Keys <= db.sessions.Keys + {calls[p].newSession}
  }

  /** The tables after an event was applied to a known session and stored. */
  ghost predicate StoredLate(t: Db, next: Db, c: EventCall, sid: Uuid) {
    && sid in t.sessions && c.dto.event.Some? && c.newEvent !in t.events && c.newEvent in next.events
    && var a := ApplySessionEvent(t.sessions, t.events, sid, c.auth.device, c.dto.event.value, c.now, c.dto.context);
       && next.sessions == a.sessions && next.events == t.events[c.newEvent := next.events[c.newEvent]]
       && RowOf(next.events, c) && next.events[c.newEvent].result == a.result
  }

  lemma OneOwner(db: Db, sid: Uuid, user: Uuid, turn: Key)
    ensures Inv(db) && sid in db.sessions && OwnsTurn(db.sessions[sid], user, turn) ==>
      FindByTurn(db.sessions, user, turn) == Some(sid)
  {}

  lemma LateEventIsAccepted(t: Db, c: EventCall, user: Uuid, turn: Key, sid: Uuid)
    requires Inv(t) && Acceptable(t, c) && FreshIds(t, c) && IsTurnEvent(c.dto.event.value)
    requires c.auth.user == user && c.dto.turnKey == Some(turn) && sid in t.sessions
    requires OwnsTurn(t.sessions[sid], user, turn)
    ensures DeferredAreTurnEvents(t.events) && Inv(ProcessEvent(t, c).0) && StoredLate(t, ProcessEvent(t, c).0, c, sid)
    ensures c.auth.device in t.devices
    ensures ProcessEvent(t, c).0.devices == Touch(t, c, c.dto.diagnostics)
    ensures ProcessEvent(t, c).0.deletedUsers == t.deletedUsers
  {
    ProcessEventKeeps(t, c);
    ProcessEventCases(t, c);
    OneOwner(t, sid, user, turn);
  }

  lemma StoredLateIsRunning(
    db: Db, t: Db, next: Db, user: Uuid, turn: Key, o: seq<EventCall>, c: EventCall, i: nat, sid: Uuid, v0: View)
    requires Started(db, t, user, turn, o, sid, v0, i) && i < |o| && o[i] == c && StoredLate(t, next, c, sid)
    ensures Started(db, next, user, turn, o, sid, v0, i + 1) && next.sessions.Keys == t.sessions.Keys
  {
    assert Dtos(o)[i] == c.dto;
    ApplyIsFoldStep(t.sessions, t.events, sid, c.auth.device, c.now, v0, Dtos(o), i);
    forall j | 0 <= j < i + 1
      ensures o[j].newEvent in next.events && next.events[o[j].newEvent].result == FoldResult(v0, Dtos(o), j)
    {
      if j < i { assert o[j].newEvent in t.events; }
    }
  }

  lemma LateEventIsAcceptable(db: Db, t: Db, user: Uuid, turn: Key, calls: seq<EventCall>, p: nat, k: nat)
    requires NewCalls(db, user, turn, calls) && StartsAt(calls, p) && p < k < |calls| && Delivered(db, t, calls[..k])
    requires t.sessions.Keys <= db.sessions.Keys + {calls[p].newSession}
    ensures Acceptable(t, calls[k]) && FreshIds(t, calls[k])
    ensures calls[k].dto.event.Some? && IsTurnEvent(calls[k].dto.event.value)
    ensures calls[k].auth.user == user && calls[k].dto.turnKey == Some(turn)
    ensures Others(calls, p)[k - 1] == calls[k] && Dtos(Others(calls, p))[k - 1] == calls[k].dto
  {
    hide Acceptable, Delivered;
    assert FreshIds(db, calls[k]) && calls[k].newSession != calls[p].newSession;
    NextIsAcceptable(db, t, user, turn, calls, k);
  }

  lemma LateEventIsApplied(
    db: Db, t: Db, user: Uuid, turn: Key, calls: seq<EventCall>, p: nat, k: nat, sid: Uuid, v0: View)
    requires NewCalls(db, user, turn, calls) && StartsAt(calls, p) && k < |calls|
    requires Inv(t) && Running(db, t, user, turn, calls, p, k, sid, v0)
    ensures FreshIds(t, calls[k]) && DeferredAreTurnEvents(t.events)
    ensures Inv(ProcessEvent(t, calls[k]).0)
    ensures Running(db, ProcessEvent(t, calls[k]).0, user, turn, calls, p, k + 1, sid, v0)
  {
    hide ProcessEvent, Inv, FoldedTo, Acceptable, NewCalls, StartsAt, Delivered;
    var c, o := calls[k], Others(calls, p);
    LateEventIsAcceptable(db, t, user, turn, calls, p, k);
    LateEventIsAccepted(t, c, user, turn, sid);
    var next := ProcessEvent(t, c).0;
    StoredLateIsRunning(db, t, next, user, turn, o, c, k - 1, sid, v0);
    assert calls[..k + 1] == calls[..k] + [c];
    AcceptDelivers(db, t, next, calls[..k], c);
  }

  lemma {:induction false} RunningToEnd(
    db: Db, t: Db, user: Uuid, turn: Key, calls: seq<EventCall>, p: nat, k: nat, sid: Uuid, v0: View)
    requires NewCalls(db, user, turn, calls) && StartsAt(calls, p) && k <= |calls|
    requires Inv(t) && Running(db, t, user, turn, calls, p, k, sid, v0)
    ensures Deliverable(t, calls[k..])
    ensures Running(db, DeliverAll(t, calls[k..]), user, turn, calls, p, |calls|, sid, v0)
    decreases |calls| - k
  {
    hide ProcessEvent, Running, NewCalls, StartsAt, Inv;
    if k < |calls| {
      LateEventIsApplied(db, t, user, turn, calls, p, k, sid, v0);
      assert calls[k..][0] == calls[k] && calls[k..][1..] == calls[k + 1..];
      RunningToEnd(db, ProcessEvent(t, calls[k]).0, user, turn, calls, p, k + 1, sid, v0);
    } else {
      assert calls[k..] == [];
    }
  }

  lemma WaitingShape(db: Db, t: Db, user: Uuid, turn: Key, calls: seq<EventCall>, p: nat, k: nat)
    requires Shape(db, user, turn, calls, p) && k <= p && Waiting(db, t, calls[..k])
    ensures FirstDelivery(db, user, turn, calls) && NewCalls(db, user, turn, calls) && StartsAt(calls, p)
    ensures Inv(db) && Inv(t)
    ensures k < p ==> calls[k].dto.event.Some? && IsTurnEvent(calls[k].dto.event.value)
    ensures Validate(calls[p].dto, calls[p].appNow).None? && FreshIds(db, calls[p])
    ensures calls[p].dto.event == Some(UserPromptSubmit)
  {}

  /** The start itself: the events that waited for it are replayed, and the rest of the turn runs. */
  lemma StartRuns(db: Db, t: Db, user: Uuid, turn: Key, calls: seq<EventCall>, p: nat) returns (sid: Uuid)
    requires Shape(db, user, turn, calls, p) && Waiting(db, t, calls[..p])
    ensures Validate(calls[p].dto, calls[p].appNow).None? && FreshIds(db, calls[p]) && Inv(t) && FreshIds(t, calls[p])
    ensures DeferredAreTurnEvents(t.events) && Inv(ProcessEvent(t, calls[p]).0)
    ensures Running(db, ProcessEvent(t, calls[p]).0, user, turn, calls, p, p + 1, sid, StartView(db, calls[p]))
    ensures sid == calls[p].newSession ==> SqueezedAt(ProcessEvent(t, calls[p]).0.sessions[sid], p, calls[p].now, true)
    ensures Placed(db, calls[p], sid)
  {
    WaitingShape(db, t, user, turn, calls, p, p);
    hide Shape, FirstDelivery, StartsAt, NewCalls, Waiting, ProcessEvent, Inv, StartView, Delivered, Started,
         SqueezedAt, Placed, FreshIds, Validate;
    sid := StartReplaysWaiting(db, t, user, turn, calls, p);
    ProcessEventKeeps(t, calls[p]);
  }

  lemma {:induction false} WaitingToEnd(
    db: Db, t: Db, user: Uuid, turn: Key, calls: seq<EventCall>, p: nat, k: nat) returns (sid: Uuid)
    requires Shape(db, user, turn, calls, p) && k <= p && Waiting(db, t, calls[..k])
    ensures Validate(calls[p].dto, calls[p].appNow).None? && FreshIds(db, calls[p])
    ensures Deliverable(t, calls[k..])
    ensures Running(db, DeliverAll(t, calls[k..]), user, turn, calls, p, |calls|, sid, StartView(db, calls[p]))
    ensures p + 1 == |calls| && sid == calls[p].newSession ==>
      SqueezedAt(DeliverAll(t, calls[k..]).sessions[sid], p, calls[p].now, true)
    ensures Placed(db, calls[p], sid)
    decreases p - k
  {
    WaitingShape(db, t, user, turn, calls, p, k);
    hide Shape, FirstDelivery, NewCalls, Waiting, ProcessEvent, Inv, StartView, Running, SqueezedAt, Placed, FreshIds,
         Validate;
    assert calls[k..][0] == calls[k] && calls[k..][1..] == calls[k + 1..];
    if k < p {
      EarlyEventIsDeferred(db, t, user, turn, calls, k);
      sid := WaitingToEnd(db, ProcessEvent(t, calls[k]).0, user, turn, calls, p, k + 1);
    } else {
      sid := StartRuns(db, t, user, turn, calls, p);
      var next, v0 := ProcessEvent(t, calls[p]).0, StartView(db, calls[p]);
      RunningToEnd(db, next, user, turn, calls, p, p + 1, sid, v0);
    }
  }

  // ---- The theorem ----

  /** What the fold says about the state after all calls. */
  ghost predicate EndsAsFold(end: Db, user: Uuid, turn: Key, o: seq<EventCall>, sid: Uuid, v0: View) {
    && FindByTurn(end.sessions, user, turn) == Some(sid) && sid in end.sessions
    && TurnEventDtos(Dtos(o)) && ViewOf(end.sessions[sid]) == FoldView(v0, Dtos(o))
    && forall j | 0 <= j < |o| ::
       o[j].newEvent in end.events && end.events[o[j].newEvent].result == FoldResult(v0, Dtos(o), j)
  }

  lemma EndOfRun(db: Db, end: Db, user: Uuid, turn: Key, calls: seq<EventCall>, p: nat, sid: Uuid, v0: View)
    requires Inv(end) && Running(db, end, user, turn, calls, p, |calls|, sid, v0)
    ensures EndsAsFold(end, user, turn, Others(calls, p), sid, v0)
  {
    hide Inv, Delivered, FindByTurn, FoldView, FoldResult, TurnEventDtos, OwnsTurn, ViewOf;
    assert sid in end.sessions && OwnsTurn(end.sessions[sid], user, turn);
    OneOwner(end, sid, user, turn);
    var o := Others(calls, p);
    assert Dtos(o)[..|o|] == Dtos(o);
  }

  /** Wherever the start of a turn falls among its events, every call is accepted, and the session
      and the results are what the fold over the events says. */
  lemma TurnIsFold(db: Db, user: Uuid, turn: Key, calls: seq<EventCall>, p: nat) returns (sid: Uuid)
    requires Shape(db, user, turn, calls, p)
    ensures Deliverable(db, calls) && FreshIds(db, calls[p]) && Validate(calls[p].dto, calls[p].appNow).None?
    ensures EndsAsFold(DeliverAll(db, calls), user, turn, Others(calls, p), sid, StartView(db, calls[p]))
    ensures p + 1 == |calls| && sid == calls[p].newSession ==>
      SqueezedAt(DeliverAll(db, calls).sessions[sid], p, calls[p].now, true)
    ensures Placed(db, calls[p], sid)
  {
    hide ProcessEvent, Running, StartView;
    assert Waiting(db, db, []);
    assert calls[..0] == [] && calls[0..] == calls;
    sid := WaitingToEnd(db, db, user, turn, calls, p, 0);
    EndOfRun(db, DeliverAll(db, calls), user, turn, calls, p, sid, StartView(db, calls[p]));
  }

  /** The same requests from the same devices; times and new ids may differ. */
  predicate SameRequests(a: seq<EventCall>, b: seq<EventCall>) {
    |a| == |b| && forall i | 0 <= i < |a| :: a[i].auth == b[i].auth && a[i].dto == b[i].dto
  }

  /** The reordering theorem: two first deliveries of the same turn that agree on the order of its
      events, and disagree at will on where the start falls and on every time, leave sessions with the
      same status, reason, labels and version and give every event the same result. */
  lemma ReorderingTheorem(db: Db, user: Uuid, turn: Key, x: seq<EventCall>, p: nat, y: seq<EventCall>, q: nat)
    requires Shape(db, user, turn, x, p) && Shape(db, user, turn, y, q)
    requires SameRequests(Others(x, p), Others(y, q)) && SameRequests([x[p]], [y[q]])
    ensures Deliverable(db, x) && Deliverable(db, y)
    ensures
      var endX, endY := DeliverAll(db, x), DeliverAll(db, y);
      var sx, sy := FindByTurn(endX.sessions, user, turn), FindByTurn(endY.sessions, user, turn);
      && sx.Some? && sy.Some? && sx.value in endX.sessions && sy.value in endY.sessions
      && ViewOf(endX.sessions[sx.value]) == ViewOf(endY.sessions[sy.value])
      && forall j | 0 <= j < |Others(x, p)| ::
           var ex, ey := Others(x, p)[j].newEvent, Others(y, q)[j].newEvent;
           ex in endX.events && ey in endY.events && endX.events[ex].result == endY.events[ey].result
  {
    hide ProcessEvent, StartView, Good, Distinct, NotStoredYet, SessionsOk, EventsOk, AllAudited, NoStrandedEvents;
    var sidX := TurnIsFold(db, user, turn, x, p);
    var sidY := TurnIsFold(db, user, turn, y, q);
    assert [x[p]][0] == x[p] && [y[q]][0] == y[q];
    ShapePrefix(db, user, turn, x, p);
    ShapePrefix(db, user, turn, y, q);
    StartViewIgnoresTime(db, x[p], y[q]);
    assert Dtos(Others(x, p)) == Dtos(Others(y, q));
  }

  /** What reordering does change: a session inserted after its events is DEGRADED, and if one of
      those events was a Stop it lasted no time at all. */
  lemma LateStartIsDegraded(db: Db, user: Uuid, turn: Key, calls: seq<EventCall>)
    requires calls != [] && |calls| > 1 && Shape(db, user, turn, calls, |calls| - 1)
    requires FindActiveManual(db.sessions, user).None?
    ensures Deliverable(db, calls)
    ensures
      var end := DeliverAll(db, calls);
      var sid := FindByTurn(end.sessions, user, turn);
      sid.Some? && var s := end.sessions[sid.value];
      s.timing.Degraded? && s.startedAt == calls[|calls| - 1].now
      && (s.endedAt.Some? ==> s.endedAt.value == s.startedAt && ToSnapshot(sid.value, s, 0).durationMs == 0)
  {
    hide ProcessEvent, StartView;
    var p := |calls| - 1;
    var sid := TurnIsFold(db, user, turn, calls, p);
    ShapePrefix(db, user, turn, calls, p);
  }
}
