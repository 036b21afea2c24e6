/**
 The gate in front of the Stack Exchange API: a minimum distance between requests
 with the same key, the backoff the API asks for, and its daily quota. Times are
 milliseconds.
 */
module RequestGate {
  import opened Wrappers

  const MINIMUM_REQUEST_INTERVAL_MS := 60_000
  const MAXIMUM_BACKOFF_SECONDS := 86_400
  const DAY_MS := 86_400_000
  const MAX_SAFE_INTEGER := 9_007_199_254_740_991

  /** The text of a request; only its identity matters. */
  type RequestKey = nat

  datatype Error = RateLimited | InvalidResponse

  datatype Gate = Gate(nextRequestAt: map<RequestKey, int>, quotaAvailableAt: int)

  function ReadyAt(g: Gate, key: RequestKey): int { if key in g.nextRequestAt then g.nextRequestAt[key] else 0 }

  /** Date.UTC of the day after the one a time falls on. */
  function NextUtcDay(now: int): int { (now / DAY_MS + 1) * DAY_MS }

  predicate Admits(g: Gate, keys: seq<RequestKey>, now: int) {
    g.quotaAvailableAt <= now && forall k | k in keys :: ReadyAt(g, k) <= now
  }

  function Reserve(g: Gate, keys: seq<RequestKey>, now: int): Gate {
    if Admits(g, keys, now)
    then g.(nextRequestAt := map k | k in g.nextRequestAt.Keys + (set k | k in keys) ::
                             if k in keys then now + MINIMUM_REQUEST_INTERVAL_MS else g.nextRequestAt[k])
    else g
  }

  predicate ValidBackoff(seconds: int) { 0 < seconds <= MAXIMUM_BACKOFF_SECONDS }

  predicate ValidQuota(quota: int) { 0 <= quota <= MAX_SAFE_INTEGER }

  /** A response is recorded field by field: a bad quota is refused after the backoff was noted. */
  function RecordResponse(g: Gate, key: RequestKey, backoff: Option<int>, quota: int, now: int): (Gate, Option<Error>) {
    if backoff.Some? && !ValidBackoff(backoff.value) then (g, Some(InvalidResponse))
    else
      var noted := if backoff.None? then g
                   else g.(nextRequestAt := g.nextRequestAt[key := Max(ReadyAt(g, key), now + backoff.value * 1_000)]);
      if !ValidQuota(quota) then (noted, Some(InvalidResponse))
      else if quota == 0 then (noted.(quotaAvailableAt := NextUtcDay(now)), None)
      else (noted, None)
  }

  // ---- The object the server keeps ----

  class StackExchangeRequestGate {
    var nextRequestAt: map<RequestKey, int>
    var quotaAvailableAt: int

    function State(): Gate
      reads this
    {
      Gate(nextRequestAt, quotaAvailableAt)
    }

    constructor ()
      ensures State() == Gate(map[], 0)
    {
      nextRequestAt, quotaAvailableAt := map[], 0;
    }

    /** All keys are reserved, or none is and nothing changes. */
    method ReserveKeys(keys: seq<RequestKey>, now: int) returns (refused: Option<Error>)
      modifies this`nextRequestAt
      ensures State() == Reserve(old(State()), keys, now)
      ensures refused == if Admits(old(State()), keys, now) then None else Some(RateLimited)
      ensures refused.Some? ==> State() == old(State())
    {
      if now < quotaAvailableAt { return Some(RateLimited); }
      for i := 0 to |keys|
        invariant forall j | 0 <= j < i :: ReadyAt(State(), keys[j]) <= now
      {
        if now < ReadyAt(State(), keys[i]) { return Some(RateLimited); }
      }
      BlockKeys(keys, now + MINIMUM_REQUEST_INTERVAL_MS);
      return None;
    }

    /** Setting a key twice is setting it once, so repeated keys do not matter. */
    method BlockKeys(keys: seq<RequestKey>, until: int)
      modifies this`nextRequestAt
      ensures forall k :: k in nextRequestAt <==> k in old(nextRequestAt) || k in keys
      ensures forall k | k in nextRequestAt :: nextRequestAt[k] == if k in keys then until else old(nextRequestAt)[k]
    {
      ghost var before := nextRequestAt;
      for i := 0 to |keys|
        invariant forall k :: k in nextRequestAt <==> k in before || k in keys[..i]
        invariant forall k | k in nextRequestAt :: nextRequestAt[k] == if k in keys[..i] then until else before[k]
      {
        assert keys[..i + 1] == keys[..i] + [keys[i]];
        nextRequestAt := nextRequestAt[keys[i] := until];
      }
      assert keys[..|keys|] == keys;
    }

    method Record(key: RequestKey, backoff: Option<int>, quota: int, now: int) returns (refused: Option<Error>)
      modifies this
      ensures State() == RecordResponse(old(State()), key, backoff, quota, now).0
      ensures refused == RecordResponse(old(State()), key, backoff, quota, now).1
      ensures refused == if backoff.Some? && !(0 < backoff.value <= 86_400) then Some(InvalidResponse)
        else if !(0 <= quota <= 9_007_199_254_740_991) then Some(InvalidResponse) else None
    {
      if backoff.Some? {
        if !ValidBackoff(backoff.value) { return Some(InvalidResponse); }
        nextRequestAt := nextRequestAt[key := Max(ReadyAt(State(), key), now + backoff.value * 1_000)];
      }
      if !ValidQuota(quota) { return Some(InvalidResponse); }
      if quota == 0 { quotaAvailableAt := NextUtcDay(now); }
      return None;
    }

    method IsQuotaExhausted(now: int) returns (exhausted: bool)
      ensures exhausted ==> forall keys: seq<RequestKey> :: !Admits(State(), keys, now)
      ensures !exhausted ==> Admits(State(), [], now)
    {
      return now < quotaAvailableAt;
    }
  }

  // ---- Runs ----

  datatype Action =
    | Ask(keys: seq<RequestKey>, now: int)
    | Answer(key: RequestKey, backoff: Option<int>, quota: int, now: int)

  function Step(g: Gate, a: Action): Gate {
    match a
    case Ask(keys, now) => Reserve(g, keys, now)
    case Answer(key, backoff, quota, now) => RecordResponse(g, key, backoff, quota, now).0
  }

  function Run(g: Gate, actions: seq<Action>): Gate {
    if actions == [] then g else Step(Run(g, actions[..|actions| - 1]), actions[|actions| - 1])
  }

  /** A clock that never goes back. */
  predicate InOrder(actions: seq<Action>) { forall i, j | 0 <= i < j < |actions| :: actions[i].now <= actions[j].now }

  predicate Succeeds(g: Gate, actions: seq<Action>, i: nat)
    requires i < |actions|
  {
    actions[i].Ask? && Admits(Run(g, actions[..i]), actions[i].keys, actions[i].now)
  }

  lemma StepRaises(g: Gate, a: Action, key: RequestKey)
    ensures ReadyAt(Step(g, a), key) >= ReadyAt(g, key)
  {}

  /** Whatever the clock does, a key is never ready earlier than it was. */
  lemma {:induction false} ReadyNeverEarlier(g: Gate, actions: seq<Action>, i: nat, key: RequestKey)
    requires i <= |actions|
    ensures ReadyAt(Run(g, actions), key) >= ReadyAt(Run(g, actions[..i]), key)
  {
    if i < |actions| {
      var init := actions[..|actions| - 1];
      ReadyNeverEarlier(g, init, i, key);
      assert init[..i] == actions[..i];
      StepRaises(Run(g, init), actions[|actions| - 1], key);
    } else {
      assert actions[..i] == actions;
    }
  }

  lemma RunOneMore(g: Gate, actions: seq<Action>, i: nat)
    requires i < |actions|
    ensures Run(g, actions[..i + 1]) == Step(Run(g, actions[..i]), actions[i])
  {
    assert actions[..i + 1][..i] == actions[..i];
  }

  /** What step i made a key wait for, a later request of the key respects. */
  lemma LaterRequestWaits(g: Gate, actions: seq<Action>, i: nat, j: nat, key: RequestKey)
    requires i < j < |actions| && Succeeds(g, actions, j) && key in actions[j].keys
    ensures ReadyAt(Step(Run(g, actions[..i]), actions[i]), key) <= actions[j].now
  {
    RunOneMore(g, actions, i);
    ReadyNeverEarlier(g, actions[..j], i + 1, key);
    assert actions[..j][..i + 1] == actions[..i + 1];
  }

  /** Two requests admitted for the same key are at least a minute apart. */
  lemma RequestsAreApart(g: Gate, actions: seq<Action>, i: nat, j: nat, key: RequestKey)
    requires i < j < |actions| && Succeeds(g, actions, i) && Succeeds(g, actions, j)
    requires key in actions[i].keys && key in actions[j].keys
    ensures actions[j].now - actions[i].now >= 60_000
  {
    LaterRequestWaits(g, actions, i, j, key);
  }

  /** No request is admitted for a key before a backoff recorded for it ends, even if the response that
      carried the backoff was refused for its quota. */
  lemma BackoffIsRespected(g: Gate, actions: seq<Action>, i: nat, j: nat)
    requires i < j < |actions| && actions[i].Answer? && actions[i].backoff.Some?
    requires 0 < actions[i].backoff.value <= 86_400
    requires Succeeds(g, actions, j) && actions[i].key in actions[j].keys
    ensures actions[j].now >= actions[i].now + 1_000 * actions[i].backoff.value
  {
    LaterRequestWaits(g, actions, i, j, actions[i].key);
  }

  /** The next UTC midnight is strictly later, at most a day away, and a midnight. */
  lemma NextUtcDayIsNextMidnight(now: int)
    ensures now < NextUtcDay(now) <= now + 86_400_000 && NextUtcDay(now) % 86_400_000 == 0
    ensures forall later | now <= later :: NextUtcDay(now) <= NextUtcDay(later)
  {
    var q := now / DAY_MS;
    assert NextUtcDay(now) == q * DAY_MS + DAY_MS;
  }

  lemma {:induction false} QuotaNeverEarlier(g: Gate, actions: seq<Action>, i: nat, at: int)
    requires i < |actions| && InOrder(actions)
    requires at <= NextUtcDay(actions[i].now) && at <= Run(g, actions[..i + 1]).quotaAvailableAt
    ensures at <= Run(g, actions).quotaAvailableAt
  {
    if i + 1 < |actions| {
      var init, last := actions[..|actions| - 1], actions[|actions| - 1];
      assert init[..i + 1] == actions[..i + 1];
      QuotaNeverEarlier(g, init, i, at);
      NextUtcDayIsNextMidnight(actions[i].now);
    } else {
      assert actions[..i + 1] == actions;
    }
  }

  /** Once a response reports that the quota is used up, nothing is admitted before the next UTC
      midnight, whatever the key. */
  lemma QuotaBlocksUntilMidnight(g: Gate, actions: seq<Action>, i: nat, j: nat)
    requires i < j < |actions| && InOrder(actions)
    requires actions[i].Answer? && actions[i].quota == 0
    requires actions[i].backoff.Some? ==> 0 < actions[i].backoff.value <= 86_400
    requires Succeeds(g, actions, j)
    ensures actions[j].now >= NextUtcDay(actions[i].now)
  {
    RunOneMore(g, actions, i);
    assert actions[..j][..i + 1] == actions[..i + 1];
    QuotaNeverEarlier(g, actions[..j], i, NextUtcDay(actions[i].now));
  }

  const OPEN := Gate(map[], 0)

  /** No admitted request for the key less than a minute ago and no backoff for it that still lasts. */
  predicate KeyFree(actions: seq<Action>, key: RequestKey, now: int) {
    && (forall i | 0 <= i < |actions| && Succeeds(OPEN, actions, i) && key in actions[i].keys ::
         actions[i].now + 60_000 <= now)
    && (forall i | 0 <= i < |actions| && Backs(actions[i], key) ::
         actions[i].now + 1_000 * actions[i].backoff.value <= now)
  }

  predicate Backs(a: Action, key: RequestKey) {
    a.Answer? && a.key == key && a.backoff.Some? && 0 < a.backoff.value <= 86_400
  }

  /** A response that was accepted up to its quota, which is used up. */
  predicate UsesUp(a: Action) { a.Answer? && a.quota == 0 && (a.backoff.Some? ==> 0 < a.backoff.value <= 86_400) }

  /** Every used-up quota is from a past UTC day. */
  predicate QuotaFree(actions: seq<Action>, now: int) {
    forall i | 0 <= i < |actions| && UsesUp(actions[i]) :: NextUtcDay(actions[i].now) <= now
  }

  lemma SamePrefix(actions: seq<Action>)
    requires actions != []
    ensures forall i | 0 <= i < |actions| - 1 ::
      actions[..|actions| - 1][i] == actions[i]
        && Succeeds(OPEN, actions[..|actions| - 1], i) == Succeeds(OPEN, actions, i)
  {
    forall i | 0 <= i < |actions| - 1
      ensures Succeeds(OPEN, actions[..|actions| - 1], i) == Succeeds(OPEN, actions, i)
    {
      assert actions[..|actions| - 1][..i] == actions[..i];
    }
  }

  lemma {:induction false} ReadyIffFree(actions: seq<Action>, key: RequestKey, now: int)
    requires now >= 0
    ensures ReadyAt(Run(OPEN, actions), key) <= now <==> KeyFree(actions, key, now)
  {
    if actions != [] {
      var n := |actions| - 1;
      var init, last := actions[..n], actions[n];
      SamePrefix(actions);
      ReadyIffFree(init, key, now);
      assert KeyFree(actions, key, now) <==>
        && KeyFree(init, key, now)
        && (Succeeds(OPEN, actions, n) && key in last.keys ==> last.now + 60_000 <= now)
        && (Backs(last, key) ==> last.now + 1_000 * last.backoff.value <= now);
      hide KeyFree;
      StepReady(Run(OPEN, init), last, key, now);
    }
  }

  lemma StepReady(g: Gate, a: Action, key: RequestKey, now: int)
    ensures ReadyAt(Step(g, a), key) <= now <==>
      && ReadyAt(g, key) <= now
      && (a.Ask? && Admits(g, a.keys, a.now) && key in a.keys ==> a.now + 60_000 <= now)
      && (Backs(a, key) ==> Max(ReadyAt(g, key), a.now + 1_000 * a.backoff.value) <= now)
  {}

  lemma {:induction false} QuotaIffFree(actions: seq<Action>, now: int)
    requires now >= 0 && InOrder(actions)
    ensures Run(OPEN, actions).quotaAvailableAt <= now <==> QuotaFree(actions, now)
  {
    if actions != [] {
      var n := |actions| - 1;
      var init, last := actions[..n], actions[n];
      QuotaIffFree(init, now);
      NextUtcDayIsNextMidnight(last.now);
      if UsesUp(last) {
        forall i | 0 <= i < n
          ensures NextUtcDay(actions[i].now) <= NextUtcDay(last.now)
        {
          NextUtcDayIsNextMidnight(actions[i].now);
        }
      }
      assert forall i | 0 <= i < n :: init[i] == actions[i];
    }
  }

  /** The gate is no stricter than it must be: it admits a request exactly if no quota used up today, no
      admission within the last minute and no lasting backoff forbids any of its keys. */
  lemma AdmittedUnlessForbidden(actions: seq<Action>, keys: seq<RequestKey>, now: int)
    requires now >= 0 && InOrder(actions)
    ensures Admits(Run(OPEN, actions), keys, now) <==>
      QuotaFree(actions, now) && forall k | k in keys :: KeyFree(actions, k, now)
  {
    QuotaIffFree(actions, now);
    forall k | k in keys
      ensures ReadyAt(Run(OPEN, actions), k) <= now <==> KeyFree(actions, k, now)
    {
      ReadyIffFree(actions, k, now);
    }
  }
}
