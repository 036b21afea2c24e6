/**
 At-least-once delivery refines exactly-once delivery: dropping every re-sent
 event from a run changes nothing but when devices were last seen.
 */
module Redelivery {
  import opened Wrappers
  import opened SessionRows
  import opened SessionSteps
  import opened SessionInvariants
  import opened SessionRuns
  import opened SessionEffects

  predicate SameDevice(d: Device, e: Device) { d.(lastSeenAt := 0) == e.(lastSeenAt := 0) }

  /** Equal but for the devices' last-seen times. */
  ghost predicate Same(d: Db, e: Db) {
    && e == d.(devices := e.devices) && e.devices.Keys == d.devices.Keys
    && forall k | k in d.devices :: SameDevice(d.devices[k], e.devices[k])
  }

  /** The call repeats, byte for byte, an event its device has already stored. */
  ghost predicate Resend(db: Db, a: Action) {
    && a.Deliver?
    && exists id :: id in db.events && IsStoredAs(db.events[id], a.call.auth.device, a.call.dto.eventId)
                    && db.events[id].request == a.call.dto
  }

  /** The run as an exactly-once transport would have delivered it. */
  ghost function DropResends(db: Db, actions: seq<Action>): seq<Action>
    requires Inv(db) && Runnable(db, actions)
    decreases |actions|
  {
    if actions == [] then [] else
      StepKeeps(db, actions[0]);
      (if Resend(db, actions[0]) then [] else [actions[0]]) + DropResends(Step(db, actions[0]), actions[1..])
  }

  /** Answering from the stored row writes the device's last-seen time, if the device may call at all. */
  lemma StoredIsAnswered(db: Db, c: EventCall, id: Uuid)
    requires Inv(db) && id in db.events && IsStoredAs(db.events[id], c.auth.device, c.dto.eventId)
    requires db.events[id].request == c.dto
    ensures DeferredAreTurnEvents(db.events) && Same(db, ProcessEvent(db, c).0)
    ensures Validate(c.dto, c.appNow).None? && DeviceUsable(db, c.auth, c.now) ==>
      ProcessEvent(db, c).1 == Ok(db.events[id].response)
  {
    FitsAreTurnEvents(db.sessions, db.events);
    StoredIs(db, c, id);
    hide Inv, Accept, TurnEvents, SequenceUsed, OverTurnLimit, FindStored, Validate;
  }

  lemma ResendChangesNothing(db: Db, a: Action)
    requires Inv(db) && Resend(db, a)
    ensures DeferredAreTurnEvents(db.events) && Same(db, Step(db, a))
  {
    var id :| id in db.events && IsStoredAs(db.events[id], a.call.auth.device, a.call.dto.eventId)
      && db.events[id].request == a.call.dto;
    StoredIsAnswered(db, a.call, id);
    hide Inv, ProcessEvent, Same;
  }

  lemma AcceptRespectsSame(d: Db, e: Db, c: EventCall)
    requires Same(d, e) && DeferredAreTurnEvents(d.events) && Acceptable(d, c)
    ensures Acceptable(e, c) && Same(Accept(d, c).0, Accept(e, c).0) && Accept(d, c).1 == Accept(e, c).1
  {
    hide ApplyAndReplay, Apply, NewRow, TurnEvents, SequenceUsed, FindStored;
  }

  lemma ProcessRespectsSame(d: Db, e: Db, c: EventCall)
    requires Same(d, e) && DeferredAreTurnEvents(d.events)
    ensures Same(ProcessEvent(d, c).0, ProcessEvent(e, c).0) && ProcessEvent(d, c).1 == ProcessEvent(e, c).1
  {
    hide Accept, TurnEvents, SequenceUsed, FindStored;
    if Acceptable(d, c) { AcceptRespectsSame(d, e, c); }
  }

  /** A step acts alike on states that differ only in last-seen times. */
  lemma StepRespectsSame(d: Db, e: Db, a: Action)
    requires Same(d, e) && DeferredAreTurnEvents(d.events)
    ensures FreshFor(d, a) == FreshFor(e, a)
    ensures Same(Step(d, a), Step(e, a))
    ensures a.Deliver? ==> ProcessEvent(d, a.call).1 == ProcessEvent(e, a.call).1
  {
    hide ProcessEvent;
    if a.Deliver? { ProcessRespectsSame(d, e, a.call); }
  }

  lemma {:induction false} ExactlyOnceFrom(d: Db, e: Db, actions: seq<Action>)
    requires Inv(d) && Inv(e) && Same(d, e) && Runnable(d, actions)
    ensures Runnable(e, DropResends(d, actions))
    ensures Same(Run(d, actions), Run(e, DropResends(d, actions)))
    decreases |actions|
  {
    if actions != [] {
      var a := actions[0];
      StepKeeps(d, a);
      var rest := DropResends(Step(d, a), actions[1..]);
      if Resend(d, a) {
        ResendChangesNothing(d, a);
        ExactlyOnceFrom(Step(d, a), e, actions[1..]);
        assert DropResends(d, actions) == rest;
      } else {
        StepRespectsSame(d, e, a);
        StepKeeps(e, a);
        ExactlyOnceFrom(Step(d, a), Step(e, a), actions[1..]);
        assert DropResends(d, actions) == [a] + rest;
        assert ([a] + rest)[1..] == rest;
      }
    }
  }

  /** At-least-once refines exactly-once, for every run from every state. */
  lemma AtLeastOnceIsExactlyOnce(db: Db, actions: seq<Action>)
    requires Inv(db) && Runnable(db, actions)
    ensures Runnable(db, DropResends(db, actions))
    ensures Same(Run(db, actions), Run(db, DropResends(db, actions)))
  {
    ExactlyOnceFrom(db, db, actions);
  }

  // ---- Every redelivery of an accepted event is such a re-send ----

  ghost predicate EventsPersist(before: Events, after: Events) {
    forall id | id in before ::
      id in after && after[id].device == before[id].device && after[id].request == before[id].request
  }

  lemma {:induction false} ReplayPersists(t: Tables, sid: Uuid, ids: seq<Uuid>, startAt: int)
    requires Replayable(t, sid, ids)
    ensures EventsPersist(t.events, Replay(t, sid, ids, startAt).events)
    decreases |ids|
  {
    if ids != [] {
      ReplayPersists(ReplayOne(t, sid, ids[0], startAt), sid, ids[1..], startAt);
    }
  }

  lemma AcceptPersists(db: Db, c: EventCall)
    requires DeferredAreTurnEvents(db.events) && Acceptable(db, c) && c.newEvent !in db.events
    ensures EventsPersist(db.events, Accept(db, c).0.events)
  {
    hide ApplySessionEvent, Replay, TurnEvents, SnapshotOf, SequenceUsed;
    var a := Apply(db.sessions, db.events, c);
    if c.dto.event.value.UserPromptSubmit? && a.session.Some? {
      ReplayPersists(Tables(a.sessions, db.events), a.session.value,
                     ReplayList(db.events, c.auth.user, c.dto.turnKey.value), c.now);
    }
  }

  lemma StepPersists(db: Db, a: Action)
    requires Inv(db) && FreshFor(db, a)
    ensures DeferredAreTurnEvents(db.events) && EventsPersist(db.events, Step(db, a).events)
  {
    FitsAreTurnEvents(db.sessions, db.events);
    hide Inv, ProcessEvent, Accept, Acceptable;
    if a.Deliver? {
      ProcessEventCases(db, a.call);
      if Acceptable(db, a.call) { AcceptPersists(db, a.call); }
    }
  }

  lemma {:induction false} RunPersists(db: Db, actions: seq<Action>)
    requires Inv(db) && Runnable(db, actions)
    ensures EventsPersist(db.events, Run(db, actions).events)
    decreases |actions|
  {
    if actions != [] {
      StepKeeps(db, actions[0]);
      StepPersists(db, actions[0]);
      RunPersists(Step(db, actions[0]), actions[1..]);
    }
  }

  lemma OkIsStored(db: Db, c: EventCall)
    requires Inv(db) && FreshFor(db, Deliver(c))
    ensures DeferredAreTurnEvents(db.events)
    ensures ProcessEvent(db, c).1.Ok? ==> Resend(ProcessEvent(db, c).0, Deliver(c))
  {
    FitsAreTurnEvents(db.sessions, db.events);
    ProcessEventCases(db, c);
    var after := ProcessEvent(db, c).0;
    if Acceptable(db, c) {
      assert IsStoredAs(after.events[c.newEvent], c.auth.device, c.dto.eventId);
    } else if ProcessEvent(db, c).1.Ok? {
      var id := FindStored(db.events, c.auth.device, c.dto.eventId).value;
      assert IsStoredAs(after.events[id], c.auth.device, c.dto.eventId);
    }
  }

  /** The answer to a request that is stored, as the event row shows it. */
  ghost predicate AnswersAsStored(late: Db, again: EventCall)
    requires DeferredAreTurnEvents(late.events)
  {
    exists id :: id in late.events && late.events[id].device == again.auth.device
      && late.events[id].request == again.dto
      && ProcessEvent(late, again).1 == Ok(late.events[id].response)
      && late.events[id].response.eventId == again.dto.eventId
      && late.events[id].response.result == late.events[id].result
  }

  lemma LateResend(first: Db, late: Db, again: EventCall)
    requires Inv(late) && Resend(first, Deliver(again)) && EventsPersist(first.events, late.events)
    ensures Resend(late, Deliver(again)) && DeferredAreTurnEvents(late.events)
    ensures Same(late, ProcessEvent(late, again).0)
    ensures Validate(again.dto, again.appNow).None? && DeviceUsable(late, again.auth, again.now) ==>
      AnswersAsStored(late, again)
  {
    var id :| id in first.events && IsStoredAs(first.events[id], again.auth.device, again.dto.eventId)
              && first.events[id].request == again.dto;
    assert IsStoredAs(late.events[id], again.auth.device, again.dto.eventId) && late.events[id].request == again.dto;
    StoredIsAnswered(late, again, id);
    assert RowFits(late.events[id], late.sessions);
    hide Inv, ProcessEvent, Same, Validate, DeviceUsable, EventsPersist;
  }

  /** Once an event was answered, any later delivery of the same request is a re-send, whatever
      happened in between: it changes nothing, and if the device may still call, the answer is the
      stored one, for the same event and with the same result the event row shows. */
  lemma RedeliveryAfterAcceptance(db: Db, c: EventCall, more: seq<Action>, again: EventCall)
    requires Inv(db) && FreshFor(db, Deliver(c)) && again.auth == c.auth && again.dto == c.dto
    ensures DeferredAreTurnEvents(db.events) && Inv(ProcessEvent(db, c).0)
    ensures ProcessEvent(db, c).1.Ok? && Runnable(ProcessEvent(db, c).0, more) ==>
      (var late := Run(ProcessEvent(db, c).0, more);
       && Inv(late) && Resend(late, Deliver(again)) && DeferredAreTurnEvents(late.events)
       && Same(late, ProcessEvent(late, again).0)
       && (Validate(again.dto, again.appNow).None? && DeviceUsable(late, again.auth, again.now) ==>
            AnswersAsStored(late, again)))
  {
    ProcessEventKeeps(db, c);
    OkIsStored(db, c);
    var first := ProcessEvent(db, c).0;
    assert Resend(first, Deliver(c)) ==> Resend(first, Deliver(again));
    hide Inv, ProcessEvent, Resend, Same, Runnable, Run, Validate, DeviceUsable, AnswersAsStored;
    if ProcessEvent(db, c).1.Ok? && Runnable(first, more) {
      RunKeeps(first, more);
      RunPersists(first, more);
      LateResend(first, Run(first, more), again);
    }
  }
}
