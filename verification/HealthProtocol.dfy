/** Requests in flight that share one health repository, as an interleaved step system. A request
    reads the health of each candidate at its own moment, may attempt only models it did not see
    UNAVAILABLE, and attempts each at most once. */
module HealthProtocol {
  import opened Domain
  import opened HealthRepository

  type RequestId = nat

  datatype InFlight = InFlight(approved: set<string>, attempted: set<string>)

  datatype State = State(failures: Failures, requests: map<RequestId, InFlight>)

  datatype Step =
    | Begin(r: RequestId)
    | Check(r: RequestId, alias: string)
    | Invoke(r: RequestId, alias: string, status: AttemptStatus)
    | Finish(r: RequestId)

  predicate Enabled(s: State, step: Step) {
    match step
    case Begin(r) => r !in s.requests
    case Check(r, alias) => r in s.requests
    case Invoke(r, alias, status) =>
      r in s.requests && alias in s.requests[r].approved && alias !in s.requests[r].attempted
    case Finish(r) => r in s.requests
  }

  function Apply(s: State, limit: nat, step: Step): State
    requires Enabled(s, step)
  {
    match step
    case Begin(r) => s.(requests := s.requests[r := InFlight({}, {})])
    case Check(r, alias) =>
      if limit <= FailureCount(s.failures, alias) then s
      else s.(requests := s.requests[r := s.requests[r].(approved := s.requests[r].approved + {alias})])
    case Invoke(r, alias, status) =>
      State(Recorded(s.failures, alias, status),
            s.requests[r := s.requests[r].(attempted := s.requests[r].attempted + {alias})])
    case Finish(r) => s.(requests := s.requests - {r})
  }

  /** `limit` is the repository's `unavailable_after`. */
  ghost predicate IsRun(limit: nat, states: seq<State>, steps: seq<Step>) {
    && |states| == |steps| + 1
    && states[0].failures == map[] && states[0].requests == map[]
    && forall i | 0 <= i < |steps| ::
         Enabled(states[i], steps[i]) && states[i + 1] == Apply(states[i], limit, steps[i])
  }

  /** The requests that may still attempt `alias`. */
  ghost function Pending(s: State, alias: string): set<RequestId> {
    set r | r in s.requests && alias in s.requests[r].approved && alias !in s.requests[r].attempted
  }

  /** Above the limit, every recorded failure has used up one of the at most `k` pending attempts. */
  ghost predicate Bounded(s: State, limit: nat, k: nat, alias: string) {
    limit <= FailureCount(s.failures, alias) ==>
      FailureCount(s.failures, alias) - limit + 1 + |Pending(s, alias)| <= k
  }

  lemma SubsetSize<T>(a: set<T>, b: set<T>)
    requires a <= b
    ensures |a| <= |b|
  {
    assert b == a + (b - a);
  }

  lemma BoundPreserved(s: State, limit: nat, k: nat, step: Step, alias: string)
    requires Enabled(s, step) && Bounded(s, limit, k, alias) && |s.requests| <= k
    ensures Bounded(Apply(s, limit, step), limit, k, alias)
  {
    var t := Apply(s, limit, step);
    SubsetSize(Pending(s, alias), s.requests.Keys);
    if step.Invoke? && step.alias == alias {
      assert Pending(t, alias) == Pending(s, alias) - {step.r};
    } else if limit <= FailureCount(t.failures, alias) {
      assert Pending(t, alias) <= Pending(s, alias);
      SubsetSize(Pending(t, alias), Pending(s, alias));
    }
  }

  lemma {:induction false} BoundHolds(limit: nat, k: nat, states: seq<State>, steps: seq<Step>, alias: string, n: nat)
    requires IsRun(limit, states, steps) && n < |states| && 0 < limit
    requires forall i | 0 <= i < n :: |states[i].requests| <= k
    ensures Bounded(states[n], limit, k, alias)
  {
    if n > 0 {
      BoundHolds(limit, k, states, steps, alias, n - 1);
      BoundPreserved(states[n - 1], limit, k, steps[n - 1], alias);
    }
  }

  /** With at most `k` requests in flight a failure counter never exceeds `limit - 1 + k`. */
  lemma CounterBound(limit: nat, k: nat, states: seq<State>, steps: seq<Step>, alias: string, n: nat)
    requires IsRun(limit, states, steps) && n < |states| && 0 < limit
    requires forall i | 0 <= i < n :: |states[i].requests| <= k
    ensures FailureCount(states[n].failures, alias) <= limit - 1 + k
  {
    BoundHolds(limit, k, states, steps, alias, n);
  }

  /** The model is UNAVAILABLE and no request in flight may still attempt it. */
  ghost predicate Absorbed(s: State, limit: nat, alias: string) {
    limit <= FailureCount(s.failures, alias) && Pending(s, alias) == {}
  }

  lemma AbsorptionPreserved(s: State, limit: nat, step: Step, alias: string)
    requires Enabled(s, step) && Absorbed(s, limit, alias)
    ensures Absorbed(Apply(s, limit, step), limit, alias)
    ensures FailureCount(Apply(s, limit, step).failures, alias) == FailureCount(s.failures, alias)
    ensures step.Invoke? ==> step.alias != alias
  {
    if step.Invoke? {
      assert step.r !in Pending(s, alias);
    }
    forall r ensures r !in Pending(Apply(s, limit, step), alias) {
      assert r !in Pending(s, alias);
    }
  }

  /** Once absorbed, a model is never attempted again and its counter never changes, however many
      requests follow. */
  lemma {:induction false} UnavailableAbsorbs(limit: nat, states: seq<State>, steps: seq<Step>, alias: string, i: nat, n: nat)
    requires IsRun(limit, states, steps) && i <= n < |states| && Absorbed(states[i], limit, alias)
    ensures FailureCount(states[n].failures, alias) == FailureCount(states[i].failures, alias)
    ensures Absorbed(states[n], limit, alias)
    ensures n < |steps| && steps[n].Invoke? ==> steps[n].alias != alias
  {
    if n > i {
      UnavailableAbsorbs(limit, states, steps, alias, i, n - 1);
      AbsorptionPreserved(states[n - 1], limit, steps[n - 1], alias);
    }
    if n < |steps| {
      AbsorptionPreserved(states[n], limit, steps[n], alias);
    }
  }

  /** Sequential traffic: from the moment a model is UNAVAILABLE it is never attempted again. */
  lemma SequentialUnavailableAbsorbs(limit: nat, states: seq<State>, steps: seq<Step>, alias: string, i: nat, n: nat)
    requires IsRun(limit, states, steps) && i <= n < |states| && 0 < limit
    requires forall j | 0 <= j < i :: |states[j].requests| <= 1
    requires limit <= FailureCount(states[i].failures, alias)
    ensures FailureCount(states[n].failures, alias) == limit
    ensures n < |steps| && steps[n].Invoke? ==> steps[n].alias != alias
  {
    BoundHolds(limit, 1, states, steps, alias, i);
    UnavailableAbsorbs(limit, states, steps, alias, i, n);
  }

  // ---- The bound is reached ----

  /** A run that never has more than `k` requests in flight and ends in `last`. */
  ghost predicate Reaches(limit: nat, k: nat, states: seq<State>, steps: seq<Step>, last: State) {
    && IsRun(limit, states, steps) && states[|steps|] == last
    && forall i | 0 <= i < |states| :: |states[i].requests| <= k
  }

  lemma Extend(limit: nat, k: nat, states: seq<State>, steps: seq<Step>, last: State, step: Step)
    returns (states': seq<State>, steps': seq<Step>)
    requires Reaches(limit, k, states, steps, last) && Enabled(last, step)
    requires |Apply(last, limit, step).requests| <= k
    ensures Reaches(limit, k, states', steps', Apply(last, limit, step))
  {
    states', steps' := states + [Apply(last, limit, step)], steps + [step];
  }

  /** `n` requests, one after another, each see the model usable and are throttled. */
  lemma {:induction false} SequentialFailures(limit: nat, k: nat, alias: string, n: nat)
    returns (states: seq<State>, steps: seq<Step>, last: State)
    requires n < limit && 1 <= k
    ensures Reaches(limit, k, states, steps, last) && last.requests == map[] && FailureCount(last.failures, alias) == n
  {
    if n == 0 {
      last := State(map[], map[]);
      states, steps := [last], [];
    } else {
      states, steps, last := SequentialFailures(limit, k, alias, n - 1);
      states, steps := Extend(limit, k, states, steps, last, Begin(0));
      last := Apply(last, limit, Begin(0));
      states, steps := Extend(limit, k, states, steps, last, Check(0, alias));
      last := Apply(last, limit, Check(0, alias));
      states, steps := Extend(limit, k, states, steps, last, Invoke(0, alias, ThrottledCall));
      last := Apply(last, limit, Invoke(0, alias, ThrottledCall));
      states, steps := Extend(limit, k, states, steps, last, Finish(0));
      last := Apply(last, limit, Finish(0));
      assert last.requests == map[];
    }
  }

  /** `n` further requests are in flight together, all having seen the model usable. */
  lemma {:induction false} ConcurrentChecks(limit: nat, k: nat, alias: string, n: nat)
    returns (states: seq<State>, steps: seq<Step>, last: State)
    requires 0 < limit && n <= k && 1 <= k
    ensures Reaches(limit, k, states, steps, last) && FailureCount(last.failures, alias) == limit - 1 && |last.requests| == n
    ensures forall r: nat :: r in last.requests <==> r < n
    ensures forall r: nat | r < n :: last.requests[r] == InFlight({alias}, {})
  {
    if n == 0 {
      states, steps, last := SequentialFailures(limit, k, alias, limit - 1);
    } else {
      states, steps, last := ConcurrentChecks(limit, k, alias, n - 1);
      states, steps := Extend(limit, k, states, steps, last, Begin(n - 1));
      last := Apply(last, limit, Begin(n - 1));
      states, steps := Extend(limit, k, states, steps, last, Check(n - 1, alias));
      last := Apply(last, limit, Check(n - 1, alias));
    }
  }

  /** Of `k` such requests the first `n` have been throttled. */
  lemma {:induction false} ConcurrentFailures(limit: nat, k: nat, alias: string, n: nat)
    returns (states: seq<State>, steps: seq<Step>, last: State)
    requires 0 < limit && n <= k && 1 <= k
    ensures Reaches(limit, k, states, steps, last) && FailureCount(last.failures, alias) == limit - 1 + n
    ensures |last.requests| == k
    ensures forall r: nat | n <= r < k :: r in last.requests && last.requests[r] == InFlight({alias}, {})
  {
    if n == 0 {
      states, steps, last := ConcurrentChecks(limit, k, alias, k);
    } else {
      states, steps, last := ConcurrentFailures(limit, k, alias, n - 1);
      states, steps := Extend(limit, k, states, steps, last, Invoke(n - 1, alias, ThrottledCall));
      last := Apply(last, limit, Invoke(n - 1, alias, ThrottledCall));
    }
  }

  /** `CounterBound` is tight for every limit and every number of requests in flight. */
  lemma CounterBoundReached(limit: nat, k: nat, alias: string)
    returns (states: seq<State>, steps: seq<Step>, last: State)
    requires 0 < limit && 1 <= k
    ensures Reaches(limit, k, states, steps, last) && FailureCount(last.failures, alias) == limit - 1 + k
  {
    states, steps, last := ConcurrentFailures(limit, k, alias, k);
  }
}
