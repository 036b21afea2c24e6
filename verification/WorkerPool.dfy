/**
 The cooperative worker pool that fetches Hacker News items: a number of workers
 share one index and one result array and give way at every await, in any
 interleaving.
 */
module WorkerPool {
  import opened Wrappers

  datatype Worker = Ready | Pending(index: nat) | Stopped

  /** The shared variables, the workers, and the log of all calls to work. */
  datatype State<R> = State(nextIndex: nat, results: map<nat, R>, workers: seq<Worker>, calls: seq<nat>)

  /** Array.from({ length }): no workers for a length below one. */
  function Start<T, R>(values: seq<T>, concurrency: int): State<R> {
    State(0, map[], seq(Max(0, Min(concurrency, |values|)), i => Ready), [])
  }

  datatype Action = Take(worker: nat) | Finish(worker: nat)

  predicate Enabled<R>(s: State<R>, a: Action) {
    match a
    case Take(w) => w < |s.workers| && s.workers[w].Ready?
    case Finish(w) => w < |s.workers| && s.workers[w].Pending?
  }

  /** A worker at the head of its loop takes the next index and calls work, or stops; a worker whose
      call has settled records the result. */
  function Step<T, R>(values: seq<T>, work: T -> R, s: State<R>, a: Action): State<R>
    requires Enabled(s, a)
  {
    match a
    case Take(w) =>
      if s.nextIndex < |values|
      then s.(nextIndex := s.nextIndex + 1, workers := s.workers[w := Pending(s.nextIndex)], calls :=
        s.calls + [s.nextIndex])
      else s.(workers := s.workers[w := Stopped])
    case Finish(w) =>
      var index := s.workers[w].index;
      var results := if index < |values| then s.results[index := work(values[index])] else s.results;
      s.(results := results, workers := s.workers[w := Ready])
  }

  /** Promise.all over the workers has resolved. */
  predicate Settled<R>(s: State<R>) { forall w | 0 <= w < |s.workers| :: s.workers[w].Stopped? }

  function PendingCalls<R>(s: State<R>): set<nat> { set w | 0 <= w < |s.workers| && s.workers[w].Pending? }

  // ---- Invariant ----

  ghost predicate IsPending<R>(s: State<R>, k: nat) {
    exists w :: 0 <= w < |s.workers| && s.workers[w] == Pending(k)
  }

  ghost predicate Inv<T, R>(values: seq<T>, work: T -> R, concurrency: int, s: State<R>) {
    && |s.workers| == Max(0, Min(concurrency, |values|))
    && s.nextIndex <= |values| && (s.workers == [] ==> s.nextIndex == 0)
    && |s.calls| == s.nextIndex && (forall k | 0 <= k < s.nextIndex :: s.calls[k] == k)
    && (forall k | k in s.results :: k < s.nextIndex && s.results[k] == work(values[k]))
    && (forall w | 0 <= w < |s.workers| && s.workers[w].Pending? ::
         s.workers[w].index < s.nextIndex && s.workers[w].index !in s.results)
    && (forall v, w | 0 <= v < w < |s.workers| && s.workers[v].Pending? && s.workers[w].Pending? ::
         s.workers[v] != s.workers[w])
    && (forall k | 0 <= k < s.nextIndex :: k in s.results || IsPending(s, k))
    && (forall w | 0 <= w < |s.workers| && s.workers[w].Stopped? :: s.nextIndex == |values|)
  }

  lemma StartInv<T, R>(values: seq<T>, work: T -> R, concurrency: int)
    ensures Inv(values, work, concurrency, Start<T, R>(values, concurrency))
  {}

  lemma StepKeeps<T, R>(values: seq<T>, work: T -> R, concurrency: int, s: State<R>, a: Action)
    requires Inv(values, work, concurrency, s) && Enabled(s, a)
    ensures Inv(values, work, concurrency, Step(values, work, s, a))
  {
    var t := Step(values, work, s, a);
    forall k | 0 <= k < t.nextIndex && k !in t.results ensures IsPending(t, k) {
      if k == s.nextIndex {
        assert t.workers[a.worker] == Pending(k);
      } else {
        var w :| 0 <= w < |s.workers| && s.workers[w] == Pending(k);
        assert t.workers[w] == Pending(k);
      }
    }
  }

  // ---- Runs ----

  ghost predicate Runnable<T(!new), R(!new)>(values: seq<T>, work: T -> R, s: State<R>, actions: seq<Action>)
    decreases |actions|
  {
    actions == [] || (Enabled(s, actions[0]) && Runnable(values, work, Step(values, work, s, actions[0]), actions[1..]))
  }

  ghost function Run<T(!new), R(!new)>(values: seq<T>, work: T -> R, s: State<R>, actions: seq<Action>): State<R>
    requires Runnable(values, work, s, actions)
    decreases |actions|
  {
    if actions == [] then s else Run(values, work, Step(values, work, s, actions[0]), actions[1..])
  }

  lemma {:induction false} RunKeeps<T(
    !new), R(!new)>(values: seq<T>, work: T -> R, concurrency: int, s: State<R>, actions: seq<Action>)
    requires Inv(values, work, concurrency, s) && Runnable(values, work, s, actions)
    ensures Inv(values, work, concurrency, Run(values, work, s, actions))
    decreases |actions|
  {
    hide Inv, Step, Enabled;
    if actions != [] {
      StepKeeps(values, work, concurrency, s, actions[0]);
      RunKeeps(values, work, concurrency, Step(values, work, s, actions[0]), actions[1..]);
    }
  }

  ghost predicate Reachable<T(!new), R(!new)>(values: seq<T>, work: T -> R, concurrency: int, s: State<R>) {
    exists actions :: Runnable(values, work, Start<T, R>(values, concurrency), actions)
                      && Run(values, work, Start<T, R>(values, concurrency), actions) == s
  }

  lemma ReachableInv<T(!new), R(!new)>(values: seq<T>, work: T -> R, concurrency: int)
    ensures forall s: State<R> | Reachable(values, work, concurrency, s) :: Inv(values, work, concurrency, s)
  {
    var start := Start<T, R>(values, concurrency);
    StartInv(values, work, concurrency);
    hide Inv;
    forall s: State<R> | Reachable(values, work, concurrency, s) ensures Inv(values, work, concurrency, s) {
      var actions :| Runnable(values, work, start, actions) && Run(values, work, start, actions) == s;
      RunKeeps(values, work, concurrency, start, actions);
    }
  }

  // ---- The promises ----

  /** In every interleaving work is called on each index at most once, in index order, and at most
      min(concurrency, n) calls are unsettled at a time. */
  lemma CalledOnceAndBounded<T(!new), R(!new)>(values: seq<T>, work: T -> R, concurrency: int, s: State<R>)
    requires Reachable(values, work, concurrency, s)
    ensures |s.calls| <= |values| && forall k | 0 <= k < |s.calls| :: s.calls[k] == k
    ensures |PendingCalls(s)| <= Max(0, Min(concurrency, |values|))
  {
    ReachableInv(values, work, concurrency);
    SubsetOfIndices(PendingCalls(s), |s.workers|);
  }

  lemma {:induction false} SubsetOfIndices(s: set<nat>, n: nat)
    requires forall x | x in s :: x < n
    ensures |s| <= n
  {
    if n == 0 {
      assert s == {};
    } else {
      SubsetOfIndices(s - {n - 1}, n - 1);
    }
  }

  /** When all workers have stopped, the results are work applied to every value in place and every index
      was worked exactly once, if and only if there was something to do it with: a concurrency of at
      least one, or no values. Otherwise there are no results at all. */
  lemma SettledIsComplete<T(!new), R(!new)>(values: seq<T>, work: T -> R, concurrency: int, s: State<R>)
    requires Reachable(values, work, concurrency, s) && Settled(s)
    ensures concurrency >= 1 || values == [] <==> s.results == map k | 0 <= k < |values| :: work(values[k])
    ensures concurrency >= 1 || values == [] <==> s.calls == seq(|values|, k => k)
    ensures concurrency < 1 ==> s.results == map[]
  {
    ReachableInv(values, work, concurrency);
    if concurrency >= 1 && values != [] {
      assert s.workers[0].Stopped?;
      forall k | 0 <= k < |values| ensures k in s.results {
        assert k in s.results || IsPending(s, k);
      }
    } else {
      assert s.results == map[];
      if values != [] { assert 0 in (map k | 0 <= k < |values| :: work(values[k])); }
    }
  }

  /** How much is left to do: every step does some of it. */
  function Remaining<T, R>(values: seq<T>, s: State<R>): int {
    3 * (|values| - s.nextIndex) + Weight(s.workers)
  }

  function Weight(workers: seq<Worker>): (weight: nat) {
    if workers == [] then 0 else
      (match workers[0] case Ready => 1 case Pending(_) => 2 case Stopped => 0) + Weight(workers[1..])
  }

  lemma {:induction false} WeightUpdate(workers: seq<Worker>, k: nat, w: Worker)
    requires k < |workers|
    ensures Weight(workers[k := w]) - Weight(workers) == Weight([w]) - Weight([workers[k]])
  {
    if k > 0 {
      WeightUpdate(workers[1..], k - 1, w);
      assert workers[k := w][1..] == workers[1..][k - 1 := w];
    } else {
      assert workers[k := w][1..] == workers[1..];
    }
  }

  /** The pool ends: as long as a worker has not stopped some worker can move, and no schedule has more
      than a fixed number of moves. */
  lemma PoolEnds<T(!new), R(!new)>(values: seq<T>, work: T -> R, concurrency: int, s: State<R>)
    requires Reachable(values, work, concurrency, s)
    ensures Remaining(values, s) >= 0
    ensures !Settled(s) ==> exists a: Action :: Enabled(s, a)
    ensures forall a: Action | Enabled(s, a) :: Remaining(values, Step(values, work, s, a)) < Remaining(values, s)
  {
    ReachableInv(values, work, concurrency);
    if !Settled(s) {
      var w :| 0 <= w < |s.workers| && !s.workers[w].Stopped?;
      assert if s.workers[w].Ready? then Enabled(s, Take(w)) else Enabled(s, Finish(w));
    }
    forall a: Action | Enabled(s, a) ensures Remaining(values, Step(values, work, s, a)) < Remaining(values, s) {
      WeightUpdate(s.workers, a.worker, Step(values, work, s, a).workers[a.worker]);
    }
  }
}
