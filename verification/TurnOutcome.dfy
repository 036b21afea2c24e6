/**
 What a turn comes to, in words a client would use and without the fold: whether
 it runs, waits or is completed, which of its events counted, and its labels.
 */
module TurnOutcome {
  import opened Wrappers
  import opened SessionRows
  import opened SessionSteps
  import opened SessionInvariants
  import opened Reordering

  predicate Has(ds: seq<Dto>, i: nat, e: EventName) { i < |ds| && ds[i].event == Some(e) }

  predicate NoStop(ds: seq<Dto>) { forall i | 0 <= i < |ds| :: !Has(ds, i, Stop) }

  /** A permission was asked for and no tool has finished since. */
  ghost predicate PermissionPending(waiting: bool, ds: seq<Dto>) {
    || (exists i: nat :: Has(ds, i, PermissionRequest) && forall j | i < j < |ds| :: !Has(ds, j, PostToolUse))
    || (waiting && forall j | 0 <= j < |ds| :: !Has(ds, j, PostToolUse))
  }

  function Workspaces(ds: seq<Dto>): (labels: seq<Option<string>>)
    ensures |labels| == |ds| && forall i | 0 <= i < |ds| :: labels[i] == ds[i].context.workspace
  {
    if ds == [] then [] else Workspaces(ds[..|ds| - 1]) + [ds[|ds| - 1].context.workspace]
  }

  function Operations(ds: seq<Dto>): (labels: seq<Option<string>>)
    ensures |labels| == |ds| && forall i | 0 <= i < |ds| :: labels[i] == ds[i].context.operation
  {
    if ds == [] then [] else Operations(ds[..|ds| - 1]) + [ds[|ds| - 1].context.operation]
  }

  predicate Unlabelled(labels: seq<Option<string>>, from: nat) { forall j | from <= j < |labels| :: labels[j].None? }

  /** The last label given counts; without one the label stays. */
  ghost predicate LabelIsLatest(before: Option<string>, labels: seq<Option<string>>, after: Option<string>) {
    && (forall i | 0 <= i < |labels| && labels[i].Some? && Unlabelled(labels, i + 1) :: after == labels[i])
    && (Unlabelled(labels, 0) ==> after == before)
  }

  /** The state of a turn after events none of which is a Stop. */
  ghost predicate OpenAfter(v0: View, ds: seq<Dto>, v: View) {
    && Open(v) && v.reason.None? && v.version == v0.version + |ds|
    && (v.status.WaitingForUser? <==> PermissionPending(v0.status.WaitingForUser?, ds))
  }

  lemma {:induction false} OpenTurn(v0: View, ds: seq<Dto>)
    requires TurnEventDtos(ds) && Open(v0) && v0.reason.None? && NoStop(ds)
    ensures OpenAfter(v0, ds, FoldView(v0, ds))
    decreases |ds|
  {
    if ds != [] {
      var init, d := ds[..|ds| - 1], ds[|ds| - 1];
      assert ds == init + [d];
      forall i | 0 <= i < |init| ensures !Has(init, i, Stop) { assert !Has(ds, i, Stop); }
      OpenTurn(v0, init);
      FoldSnoc(v0, init, d);
      assert !Has(ds, |init|, Stop);
      NextPermission(v0.status.WaitingForUser?, init, d);
    }
  }

  lemma NextPermission(waiting: bool, ds: seq<Dto>, d: Dto)
    requires d.event.Some?
    ensures PermissionPending(waiting, ds + [d]) <==>
      d.event.value.PermissionRequest? || (PermissionPending(waiting, ds) && !d.event.value.PostToolUse?)
  {
    var all := ds + [d];
    forall i: nat, e | i < |ds| ensures Has(all, i, e) == Has(ds, i, e) {}
    if d.event.value.PermissionRequest? { assert Has(all, |ds|, PermissionRequest); }
    if PermissionPending(waiting, ds) && !d.event.value.PostToolUse? {
      if i: nat :| Has(ds, i, PermissionRequest) && forall j | i < j < |ds| :: !Has(ds, j, PostToolUse) {
        assert Has(all, i, PermissionRequest);
      }
    }
    if PermissionPending(waiting, all) && !d.event.value.PermissionRequest? {
      assert !d.event.value.PostToolUse? by { assert Has(all, |ds|, PostToolUse) == (d.event == Some(PostToolUse)); }
      if i: nat :| Has(all, i, PermissionRequest) && forall j | i < j < |all| :: !Has(all, j, PostToolUse) {
        assert Has(ds, i, PermissionRequest);
        forall j | i < j < |ds| ensures !Has(ds, j, PostToolUse) { assert !Has(all, j, PostToolUse); }
      }
      if forall j | 0 <= j < |all| :: !Has(all, j, PostToolUse) {
        forall j | 0 <= j < |ds| ensures !Has(ds, j, PostToolUse) { assert !Has(all, j, PostToolUse); }
      }
    }
  }

  /** A closed turn ignores whatever follows. */
  lemma {:induction false} ClosedStays(v: View, ds: seq<Dto>)
    requires TurnEventDtos(ds) && !Open(v)
    ensures FoldView(v, ds) == v
    decreases |ds|
  {
    if ds != [] {
      assert TurnEventDtos(ds[1..]);
      ClosedStays(v, ds[1..]);
    }
  }

  lemma {:induction false} FoldSplit(v: View, a: seq<Dto>, b: seq<Dto>)
    requires TurnEventDtos(a) && TurnEventDtos(b)
    ensures TurnEventDtos(a + b) && FoldView(v, a + b) == FoldView(FoldView(v, a), b)
    decreases |b|
  {
    if b == [] {
      assert a + b == a;
    } else {
      var init, d := b[..|b| - 1], b[|b| - 1];
      assert a + b == (a + init) + [d] && b == init + [d];
      FoldSplit(v, a, init);
      FoldSnoc(v, a + init, d);
      FoldSnoc(FoldView(v, a), init, d);
    }
  }

  /** Up to the first Stop the turn is open. */
  lemma OpenUntilStop(v0: View, ds: seq<Dto>, k: nat, i: nat)
    requires TurnEventDtos(ds) && Open(v0) && v0.reason.None? && k < |ds| && NoStop(ds[..k]) && i <= k
    ensures TurnEventDtos(ds[..i]) && Open(FoldView(v0, ds[..i]))
  {
    forall j | 0 <= j < i ensures !Has(ds[..i], j, Stop) { assert !Has(ds[..k], j, Stop); }
    OpenTurn(v0, ds[..i]);
  }

  /** The Stop closes it for good. */
  lemma StopCloses(v0: View, ds: seq<Dto>, k: nat, n: nat)
    requires TurnEventDtos(ds) && Open(v0) && v0.reason.None? && Has(ds, k, Stop) && k < n <= |ds| && NoStop(ds[..k])
    ensures
      var v := FoldView(v0, ds[..n]);
      TurnEventDtos(ds[..n]) && v.status.Completed? && v.reason == Some(HookStop) && v.version == v0.version + k + 1
  {
    assert TurnEventDtos(ds[..k]) && TurnEventDtos(ds[k + 1..n]);
    OpenTurn(v0, ds[..k]);
    FoldSnoc(v0, ds[..k], ds[k]);
    assert ds[..k] + [ds[k]] == ds[..k + 1];
    assert ds[..n] == ds[..k + 1] + ds[k + 1..n];
    FoldSplit(v0, ds[..k + 1], ds[k + 1..n]);
    ClosedStays(FoldView(v0, ds[..k + 1]), ds[k + 1..n]);
  }

  /** The first Stop completes the turn; it and the events before it are the ones that counted. */
  lemma StoppedTurn(v0: View, ds: seq<Dto>, k: nat)
    requires TurnEventDtos(ds) && Open(v0) && v0.reason.None? && k < |ds| && Has(ds, k, Stop) && NoStop(ds[..k])
    ensures
      var v := FoldView(v0, ds);
      v.status.Completed? && v.reason == Some(HookStop) && v.version == v0.version + k + 1
    ensures forall i | 0 <= i < |ds| :: FoldResult(v0, ds, i) == if i <= k then Applied else IgnoredTerminal
  {
    assert ds[..|ds|] == ds;
    StopCloses(v0, ds, k, |ds|);
    forall i | 0 <= i < |ds| ensures FoldResult(v0, ds, i) == if i <= k then Applied else IgnoredTerminal {
      if i <= k { OpenUntilStop(v0, ds, k, i); } else { StopCloses(v0, ds, k, i); }
    }
  }

  /** Labels: of the events that counted, the last one that carries a label decides it. */
  lemma {:induction false} LabelsOfTurn(v0: View, ds: seq<Dto>)
    requires TurnEventDtos(ds) && Open(v0) && v0.reason.None? && (ds != [] ==> NoStop(ds[..|ds| - 1]))
    ensures LabelIsLatest(v0.workspace, Workspaces(ds), FoldView(v0, ds).workspace)
    ensures LabelIsLatest(v0.operation, Operations(ds), FoldView(v0, ds).operation)
    decreases |ds|
  {
    if ds != [] {
      var init, d := ds[..|ds| - 1], ds[|ds| - 1];
      assert ds == init + [d];
      if init != [] {
        var front := init[..|init| - 1];
        forall i | 0 <= i < |front| ensures !Has(front, i, Stop) { assert !Has(init, i, Stop); }
      }
      LabelsOfTurn(v0, init);
      OpenTurn(v0, init);
      FoldSnoc(v0, init, d);
      NextLabel(v0.workspace, Workspaces(init), FoldView(v0, init).workspace, d.context.workspace);
      NextLabel(v0.operation, Operations(init), FoldView(v0, init).operation, d.context.operation);
    }
  }

  lemma LabelsOfOpenTurn(v0: View, ds: seq<Dto>)
    requires TurnEventDtos(ds) && Open(v0) && v0.reason.None? && NoStop(ds)
    ensures LabelIsLatest(v0.workspace, Workspaces(ds), FoldView(v0, ds).workspace)
    ensures LabelIsLatest(v0.operation, Operations(ds), FoldView(v0, ds).operation)
  {
    if ds != [] {
      var front := ds[..|ds| - 1];
      forall i | 0 <= i < |front| ensures !Has(front, i, Stop) { assert !Has(ds, i, Stop); }
    }
    LabelsOfTurn(v0, ds);
  }

  lemma NextLabel(before: Option<string>, labels: seq<Option<string>>, after: Option<string>, next: Option<string>)
    requires LabelIsLatest(before, labels, after)
    ensures LabelIsLatest(before, labels + [next], Coalesce(next, after))
  {
    var all := labels + [next];
    forall i | 0 <= i < |all| && all[i].Some? && Unlabelled(all, i + 1) ensures Coalesce(next, after) == all[i] {
      if i < |labels| {
        assert all[|labels|].None?;
        forall j | i + 1 <= j < |labels| ensures labels[j].None? { assert all[j].None?; }
        assert Unlabelled(labels, i + 1) && labels[i].Some?;
      }
    }
    if Unlabelled(all, 0) {
      assert all[|labels|].None?;
      forall j | 0 <= j < |labels| ensures labels[j].None? { assert all[j].None?; }
    }
  }

  // ---- What the server's state shows ----

  /** However its calls are ordered around its start, a turn without a Stop is running, or waits for the
      user if a permission request is pending. */
  lemma TurnWithoutStop(db: Db, user: Uuid, turn: Key, calls: seq<EventCall>, p: nat)
    requires Shape(db, user, turn, calls, p) && NoStop(Dtos(Others(calls, p)))
    ensures Deliverable(db, calls)
    ensures
      var end := DeliverAll(db, calls);
      var sid := FindByTurn(end.sessions, user, turn);
      && sid.Some? && sid.value in end.sessions && Active(end.sessions[sid.value])
      && FreshIds(db, calls[p]) && Validate(calls[p].dto, calls[p].appNow).None?
      && (end.sessions[sid.value].status.WaitingForUser? <==>
            PermissionPending(StartView(db, calls[p]).status.WaitingForUser?, Dtos(Others(calls, p))))
      && LabelIsLatest(StartView(db, calls[p]).workspace, Workspaces(Dtos(Others(calls, p))),
         end.sessions[sid.value].workspace)
      && LabelIsLatest(StartView(db, calls[p]).operation, Operations(Dtos(Others(calls, p))),
         end.sessions[sid.value].operation)
  {
    hide ProcessEvent, StartView, FirstDelivery, Increasing, InTime, SessionsOk, EventsOk, AllAudited, NoStrandedEvents,
         PermissionPending, LabelIsLatest, NoStop;
    var sid := TurnIsFold(db, user, turn, calls, p);
    StartIsOpen(db, user, turn, calls, p);
    LabelsOfOpenTurn(StartView(db, calls[p]), Dtos(Others(calls, p)));
    OpenTurn(StartView(db, calls[p]), Dtos(Others(calls, p)));
  }

  /** A turn with a Stop is completed, and its events counted up to the first Stop. */
  lemma TurnWithStop(db: Db, user: Uuid, turn: Key, calls: seq<EventCall>, p: nat, k: nat)
    requires Shape(db, user, turn, calls, p) && k < |Others(calls, p)|
    requires Has(Dtos(Others(calls, p)), k, Stop) && NoStop(Dtos(Others(calls, p))[..k])
    ensures Deliverable(db, calls)
    ensures
      var end := DeliverAll(db, calls);
      var sid := FindByTurn(end.sessions, user, turn);
      && sid.Some? && sid.value in end.sessions
      && end.sessions[sid.value].status.Completed? && end.sessions[sid.value].reason == Some(HookStop)
      && forall i | 0 <= i < |Others(calls, p)| ::
           Others(calls, p)[i].newEvent in end.events
           && end.events[Others(calls, p)[i].newEvent].result == if i <= k then Applied else IgnoredTerminal
  {
    hide ProcessEvent, StartView, FirstDelivery, Increasing, InTime, SessionsOk, EventsOk, AllAudited, NoStrandedEvents,
         NoStop, Has, FoldResult;
    var sid := TurnIsFold(db, user, turn, calls, p);
    StartIsOpen(db, user, turn, calls, p);
    StoppedTurn(StartView(db, calls[p]), Dtos(Others(calls, p)), k);
  }

  lemma StartIsOpen(db: Db, user: Uuid, turn: Key, calls: seq<EventCall>, p: nat)
    requires Shape(db, user, turn, calls, p)
    ensures Inv(db) && FreshIds(db, calls[p]) && Validate(calls[p].dto, calls[p].appNow).None?
    ensures Open(StartView(db, calls[p])) && StartView(db, calls[p]).reason.None?
  {
    hide Distinct, NotStoredYet, EventsOk, AllAudited, NoStrandedEvents, Increasing, InTime;
  }
}
