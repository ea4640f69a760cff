/** The attempt history of one request, common to both invocation forms of
    src/application/invocation_orchestrator.py. */
module AttemptHistory {
  import opened Domain
  import opened HealthRepository

  /** What attempting one candidate of the chain would amount to: the attempt it records, whether the
      walk then moves on to the next candidate, and the code it contributes. */
  datatype Leg = Leg(attempt: Attempt, movesOn: bool, code: Option<ReasonCode>)

  /** The history of a chain, one leg per candidate: an in-order prefix, every attempt but the last
      moving on, and stopping early only at an attempt that does not. */
  ghost predicate IsHistory(legs: seq<Leg>, attempts: seq<Attempt>) {
    && |attempts| <= |legs| && (legs != [] ==> attempts != [])
    && (forall i | 0 <= i < |attempts| :: attempts[i] == legs[i].attempt)
    && (forall i | 0 <= i < |attempts| - 1 :: legs[i].movesOn)
    && (0 < |attempts| < |legs| ==> !legs[|attempts| - 1].movesOn)
  }

  /** Some of the first `n` attempts contributes the code. */
  ghost predicate CodeAdded(legs: seq<Leg>, n: nat, code: ReasonCode)
    requires n <= |legs|
  {
    exists i | 0 <= i < n :: legs[i].code == Some(code)
  }

  // ---- The same, step by step ----

  function Attempts(legs: seq<Leg>, n: nat): seq<Attempt>
    requires n <= |legs|
  {
    if n == 0 then [] else Attempts(legs, n - 1) + [legs[n - 1].attempt]
  }

  predicate AllMovedOn(legs: seq<Leg>, n: nat)
    requires n <= |legs|
  {
    n == 0 || (AllMovedOn(legs, n - 1) && legs[n - 1].movesOn)
  }

  function FailureCodes(legs: seq<Leg>, n: nat): seq<ReasonCode>
    requires n <= |legs|
  {
    if n == 0 then []
    else if legs[n - 1].code.Some? then FailureCodes(legs, n - 1) + [legs[n - 1].code.value]
    else FailureCodes(legs, n - 1)
  }

  /** The walk ends after `n` candidates: the first that does not move on, or the last. */
  ghost predicate StopsAfter(legs: seq<Leg>, n: nat) {
    && n <= |legs| && (legs != [] ==> 0 < n)
    && (0 < n ==> AllMovedOn(legs, n - 1))
    && (0 < n < |legs| ==> !legs[n - 1].movesOn)
  }

  /** Where the walk ends, having moved on from the first `n` candidates. */
  function StopFrom(legs: seq<Leg>, n: nat): (r: nat)
    requires n <= |legs| && AllMovedOn(legs, n)
    ensures StopsAfter(legs, r)
    decreases |legs| - n
  {
    if n == |legs| then n else if legs[n].movesOn then StopFrom(legs, n + 1) else n + 1
  }

  /** How many candidates the walk attempts. */
  function Stop(legs: seq<Leg>): (r: nat)
    ensures StopsAfter(legs, r)
  {
    StopFrom(legs, 0)
  }

  lemma StopUnique(legs: seq<Leg>, n: nat)
    requires StopsAfter(legs, n)
    ensures n == Stop(legs)
  {
    var m := Stop(legs);
    if 0 < m { AllMovedOnAt(legs, m - 1); }
    if 0 < n { AllMovedOnAt(legs, n - 1); }
  }

  /** A history is as long as the walk. */
  lemma HistoryLength(legs: seq<Leg>, attempts: seq<Attempt>)
    requires IsHistory(legs, attempts)
    ensures |attempts| == Stop(legs)
  {
    WalkIsHistory(legs, Stop(legs));
    HistoryUnique(legs, legs, attempts, Attempts(legs, Stop(legs)));
  }

  lemma {:induction false} AttemptsAt(legs: seq<Leg>, n: nat)
    requires n <= |legs|
    ensures |Attempts(legs, n)| == n && forall i | 0 <= i < n :: Attempts(legs, n)[i] == legs[i].attempt
  {
    if n > 0 { AttemptsAt(legs, n - 1); }
  }

  lemma {:induction false} AllMovedOnAt(legs: seq<Leg>, n: nat)
    requires n <= |legs| && AllMovedOn(legs, n)
    ensures forall i | 0 <= i < n :: legs[i].movesOn
  {
    if n > 0 { AllMovedOnAt(legs, n - 1); }
  }

  lemma WalkIsHistory(legs: seq<Leg>, n: nat)
    requires StopsAfter(legs, n)
    ensures |Attempts(legs, n)| == n && IsHistory(legs, Attempts(legs, n))
  {
    AttemptsAt(legs, n);
    if 0 < n { AllMovedOnAt(legs, n - 1); }
  }

  lemma {:induction false} FailureCodesAreAdded(legs: seq<Leg>, n: nat)
    requires n <= |legs|
    ensures forall code :: code in FailureCodes(legs, n) <==> CodeAdded(legs, n, code)
  {
    if n > 0 {
      FailureCodesAreAdded(legs, n - 1);
      forall code ensures code in FailureCodes(legs, n) <==> CodeAdded(legs, n, code) {
        assert CodeAdded(legs, n, code) <==> CodeAdded(legs, n - 1, code) || legs[n - 1].code == Some(code);
      }
    }
  }

  /** The health signal after the first `n` attempts. */
  function HealthAfter(failures: Failures, legs: seq<Leg>, n: nat): Failures
    requires n <= |legs|
  {
    if n == 0 then failures
    else Recorded(HealthAfter(failures, legs, n - 1), legs[n - 1].attempt.alias, legs[n - 1].attempt.status)
  }

  lemma {:induction false} HealthFollowsHistory(failures: Failures, legs: seq<Leg>, n: nat)
    requires n <= |legs|
    ensures HealthAfter(failures, legs, n) == RecordedAll(failures, Attempts(legs, n))
  {
    if n > 0 {
      HealthFollowsHistory(failures, legs, n - 1);
      RecordedAllAppend(failures, Attempts(legs, n - 1), legs[n - 1].attempt);
    }
  }

  // ---- Up to latency ----

  predicate SameAttempt(a: Attempt, b: Attempt) { a.alias == b.alias && a.status == b.status }

  ghost predicate SameUpToLatency(a: seq<Attempt>, b: seq<Attempt>) {
    |a| == |b| && forall i | 0 <= i < |a| :: SameAttempt(a[i], b[i])
  }

  ghost predicate SameLegs(legs: seq<Leg>, others: seq<Leg>) {
    && |legs| == |others|
    && forall i | 0 <= i < |legs| ::
         SameAttempt(legs[i].attempt, others[i].attempt) && legs[i].movesOn == others[i].movesOn && legs[i].code == others[i].code
  }

  /** Legs that agree up to latency have histories that do. */
  lemma HistoryUnique(legs: seq<Leg>, others: seq<Leg>, a: seq<Attempt>, b: seq<Attempt>)
    requires SameLegs(legs, others) && IsHistory(legs, a) && IsHistory(others, b)
    ensures SameUpToLatency(a, b)
  {
  }
}
