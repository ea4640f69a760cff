/** The counter bound of `OrchestratedHealth` is reached: requests that evaluate and walk their own chains
    drive a counter to `unavailable_after - 1 + k`. */
module OrchestratedTightness {
  import opened Domain
  import opened HealthRepository
  import opened SampleInputs
  import P = HealthProtocol
  import opened OrchestratedHealth

  /** A request for the one model of a sample catalogue. */
  function InputFor(alias: string, tag: string): Input {
    Input(alias, RequestOf(tag), PolicyFor(alias, [], tag), CatalogueOf(alias, [], tag), 0)
  }

  lemma InputIsValid(alias: string, tag: string)
    ensures InputFor(alias, tag).Valid()
  {
    PolicyIsValid(alias, [], tag);
    CatalogueIsLoaded(alias, [], tag);
  }

  /** A run with these thresholds that never has more than `k` requests in flight reaches the state. */
  ghost predicate Reaches(degradedAfter: nat, limit: nat, k: nat, states: seq<State>, steps: seq<Step>, s: State) {
    && IsRun(degradedAfter, limit, states, steps) && states[|steps|] == s
    && forall i | 0 <= i < |states| :: |states[i].requests| <= k
  }

  ghost predicate Reachable(degradedAfter: nat, limit: nat, k: nat, s: State) {
    exists states, steps :: Reaches(degradedAfter, limit, k, states, steps, s)
  }

  lemma AppendStep(degradedAfter: nat, limit: nat, states: seq<State>, steps: seq<Step>, step: Step, t: State)
    requires IsRun(degradedAfter, limit, states, steps)
    requires Enabled(states[|steps|], step) && t == Apply(states[|steps|], degradedAfter, limit, step)
    ensures IsRun(degradedAfter, limit, states + [t], steps + [step])
  {
  }

  lemma Advance(degradedAfter: nat, limit: nat, k: nat, s: State, step: Step, t: State)
    requires 1 <= degradedAfter < limit && Reachable(degradedAfter, limit, k, s)
    requires Enabled(s, step) && t == Apply(s, degradedAfter, limit, step) && |t.requests| <= k
    ensures Reachable(degradedAfter, limit, k, t)
  {
    var states, steps :| Reaches(degradedAfter, limit, k, states, steps, s);
    AppendStep(degradedAfter, limit, states, steps, step, t);
    assert Reaches(degradedAfter, limit, k, states + [t], steps + [step], t);
  }

  /** A request about to attempt the model. */
  ghost predicate Ready(work: Work, alias: string) {
    work.Walking? && work.chain == [alias] && work.next == 0
  }

  lemma BeginRequest(degradedAfter: nat, limit: nat, k: nat, s: State, r: P.RequestId, input: Input, t: State)
    requires 1 <= degradedAfter < limit && Reachable(degradedAfter, limit, k, s) && input.Valid()
    requires r !in s.requests && |s.requests| < k && t == s.(requests := s.requests[r := Reading(input, map[])])
    ensures Reachable(degradedAfter, limit, k, t)
  {
    Advance(degradedAfter, limit, k, s, Begin(r, input), t);
  }

  lemma ReadOne(degradedAfter: nat, limit: nat, k: nat, s: State, r: P.RequestId, alias: string, t: State)
    requires 1 <= degradedAfter < limit && Reachable(degradedAfter, limit, k, s)
    requires r in s.requests && s.requests[r].Reading? && s.requests[r].seen == map[] && |s.requests| <= k
    requires t == s.(requests := s.requests[r := Reading(s.requests[r].input, map[alias := Health(s.failures, degradedAfter, limit, alias)])])
    ensures Reachable(degradedAfter, limit, k, t)
  {
    Advance(degradedAfter, limit, k, s, Read(r, alias), t);
  }

  lemma RouteOne(degradedAfter: nat, limit: nat, k: nat, s: State, r: P.RequestId, chain: seq<string>, t: State)
    requires 1 <= degradedAfter < limit && Reachable(degradedAfter, limit, k, s)
    requires r in s.requests && s.requests[r].Reading? && |s.requests| <= k
    requires RoutesTo(s.requests[r].input, s.requests[r].seen, chain)
    requires t == s.(requests := s.requests[r := Walking(s.requests[r].input, s.requests[r].seen, chain, 0)])
    ensures Reachable(degradedAfter, limit, k, t)
  {
    Advance(degradedAfter, limit, k, s, Route(r, chain), t);
  }

  /** A fresh request reads the model. */
  lemma Arrive(degradedAfter: nat, limit: nat, k: nat, s: State, r: P.RequestId, input: Input, alias: string, t: State)
    requires 1 <= degradedAfter < limit && Reachable(degradedAfter, limit, k, s) && input.Valid()
    requires r !in s.requests && |s.requests| < k
    requires t == s.(requests := s.requests[r := Reading(input, map[alias := Health(s.failures, degradedAfter, limit, alias)])])
    ensures Reachable(degradedAfter, limit, k, t)
  {
    var begun := s.(requests := s.requests[r := Reading(input, map[])]);
    BeginRequest(degradedAfter, limit, k, s, r, input, begun);
    ReadOne(degradedAfter, limit, k, begun, r, alias, t);
  }

  /** A fresh request reads the model while it is usable, and routes to it. */
  lemma Prepare(degradedAfter: nat, limit: nat, k: nat, s: State, r: P.RequestId, alias: string, tag: string) returns (t: State)
    requires 1 <= degradedAfter < limit && Reachable(degradedAfter, limit, k, s)
    requires r !in s.requests && |s.requests| < k && FailureCount(s.failures, alias) < limit
    ensures Reachable(degradedAfter, limit, k, t) && t.failures == s.failures
    ensures r in t.requests && Ready(t.requests[r], alias) && t.requests == s.requests[r := t.requests[r]]
  {
    var h := Health(s.failures, degradedAfter, limit, alias);
    RoutesToModel(alias, tag, h);
    t := Settle(degradedAfter, limit, k, s, r, InputFor(alias, tag), alias, [alias]);
  }

  /** A request that reads one model and routes to `chain`. */
  lemma Settle(degradedAfter: nat, limit: nat, k: nat, s: State, r: P.RequestId, input: Input, alias: string, chain: seq<string>)
    returns (t: State)
    requires 1 <= degradedAfter < limit && Reachable(degradedAfter, limit, k, s) && r !in s.requests && |s.requests| < k
    requires RoutesTo(input, map[alias := Health(s.failures, degradedAfter, limit, alias)], chain)
    ensures Reachable(degradedAfter, limit, k, t) && t.failures == s.failures && r in t.requests
    ensures t.requests[r].Walking? && t.requests[r].chain == chain && t.requests[r].next == 0
    ensures t.requests == s.requests[r := t.requests[r]]
  {
    var seen := map[alias := Health(s.failures, degradedAfter, limit, alias)];
    var read := s.(requests := s.requests[r := Reading(input, seen)]);
    Arrive(degradedAfter, limit, k, s, r, input, alias, read);
    t := s.(requests := s.requests[r := Walking(input, seen, chain, 0)]);
    RouteOne(degradedAfter, limit, k, read, r, chain, t);
  }

  /** Read as usable, the one model is the whole chain. */
  lemma RoutesToModel(alias: string, tag: string, h: HealthStatus)
    requires !h.Unavailable?
    ensures RoutesTo(InputFor(alias, tag), map[alias := h], [alias])
  {
    var input := InputFor(alias, tag);
    InputIsValid(alias, tag);
    forall health | Answers(health, map[alias := h]) ensures [alias] == ChainFor(input, health) {
      assert health(alias) == h;
      AllUsableChain(alias, [], tag, health);
      assert [alias] + [] == [alias];
    }
  }

  /** A ready request is throttled. */
  lemma Throttle(degradedAfter: nat, limit: nat, k: nat, s: State, r: P.RequestId, alias: string) returns (t: State)
    requires 1 <= degradedAfter < limit && Reachable(degradedAfter, limit, k, s)
    requires r in s.requests && Ready(s.requests[r], alias) && |s.requests| <= k
    ensures Reachable(degradedAfter, limit, k, t) && FailureCount(t.failures, alias) == FailureCount(s.failures, alias) + 1
    ensures r in t.requests && t.requests == s.requests[r := t.requests[r]]
  {
    t := Apply(s, degradedAfter, limit, Step.Attempt(r, ThrottledCall));
    Advance(degradedAfter, limit, k, s, Step.Attempt(r, ThrottledCall), t);
  }

  /** `n` requests, one after another, are throttled. */
  lemma {:induction false} SequentialFailures(degradedAfter: nat, limit: nat, k: nat, alias: string, tag: string, n: nat)
    returns (s: State)
    requires 1 <= degradedAfter < limit && n < limit && 1 <= k
    ensures Reachable(degradedAfter, limit, k, s) && s.requests == map[] && FailureCount(s.failures, alias) == n
  {
    if n == 0 {
      s := State(map[], map[]);
      assert Reaches(degradedAfter, limit, k, [s], [], s);
    } else {
      s := SequentialFailures(degradedAfter, limit, k, alias, tag, n - 1);
      s := Prepare(degradedAfter, limit, k, s, 0, alias, tag);
      s := Throttle(degradedAfter, limit, k, s, 0, alias);
      assert s.requests - {0} == map[];
      var t := s.(requests := map[]);
      Advance(degradedAfter, limit, k, s, Finish(0), t);
      s := t;
    }
  }

  /** The requests from `m` up to `n` are ready, and there are no others but the first `m`. */
  ghost predicate ReadyBetween(s: State, m: nat, n: nat, alias: string) {
    && (forall r: nat :: r in s.requests <==> r < n) && |s.requests| == n
    && (forall r: nat | m <= r < n :: r in s.requests && Ready(s.requests[r], alias))
  }

  lemma OneMoreReady(s: State, t: State, n: nat, alias: string)
    requires ReadyBetween(s, 0, n, alias) && n in t.requests && Ready(t.requests[n], alias)
    requires t.requests == s.requests[n := t.requests[n]]
    ensures ReadyBetween(t, 0, n + 1, alias)
  {
  }

  /** Then `n` requests are ready together. */
  lemma {:induction false} ConcurrentlyReady(degradedAfter: nat, limit: nat, k: nat, alias: string, tag: string, n: nat)
    returns (s: State)
    requires 1 <= degradedAfter < limit && n <= k && 1 <= k
    ensures Reachable(degradedAfter, limit, k, s) && ReadyBetween(s, 0, n, alias) && FailureCount(s.failures, alias) == limit - 1
  {
    if n == 0 {
      s := SequentialFailures(degradedAfter, limit, k, alias, tag, limit - 1);
    } else {
      var before := ConcurrentlyReady(degradedAfter, limit, k, alias, tag, n - 1);
      s := Prepare(degradedAfter, limit, k, before, n - 1, alias, tag);
      OneMoreReady(before, s, n - 1, alias);
    }
  }

  /** Of `k` such requests the first `n` have been throttled. */
  lemma {:induction false} ConcurrentFailures(degradedAfter: nat, limit: nat, k: nat, alias: string, tag: string, n: nat)
    returns (s: State)
    requires 1 <= degradedAfter < limit && n <= k && 1 <= k
    ensures Reachable(degradedAfter, limit, k, s) && ReadyBetween(s, n, k, alias) && FailureCount(s.failures, alias) == limit - 1 + n
  {
    if n == 0 {
      s := ConcurrentlyReady(degradedAfter, limit, k, alias, tag, k);
    } else {
      s := ConcurrentFailures(degradedAfter, limit, k, alias, tag, n - 1);
      s := Throttle(degradedAfter, limit, k, s, n - 1, alias);
    }
  }

  /** `OrchestratedHealth.CounterBound` is tight for all thresholds and every number of requests in flight. */
  lemma CounterBoundReached(degradedAfter: nat, limit: nat, k: nat, alias: string, tag: string) returns (s: State)
    requires 1 <= degradedAfter < limit && 1 <= k
    ensures Reachable(degradedAfter, limit, k, s) && FailureCount(s.failures, alias) == limit - 1 + k
  {
    s := ConcurrentFailures(degradedAfter, limit, k, alias, tag, k);
  }
}
