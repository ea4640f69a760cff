/** The consecutive-failure health signal (src/adapters/memory/in_memory_model_health_repository.py). */
module HealthRepository {
  import opened Domain

  type Failures = map<string, nat>

  predicate AffectsHealth(status: AttemptStatus) {
    status.ThrottledCall? || status.TransientError? || status.TimedOut?
  }

  function FailureCount(failures: Failures, alias: string): nat {
    if alias in failures then failures[alias] else 0
  }

  function Recorded(failures: Failures, alias: string, status: AttemptStatus): Failures {
    if status.Succeeded? then failures[alias := 0]
    else if AffectsHealth(status) then failures[alias := FailureCount(failures, alias) + 1]
    else failures
  }

  /** The effect of a whole attempt history, oldest attempt first. */
  function RecordedAll(failures: Failures, attempts: seq<Attempt>): Failures
    decreases |attempts|
  {
    if attempts == [] then failures
    else
      var last := attempts[|attempts| - 1];
      Recorded(RecordedAll(failures, attempts[..|attempts| - 1]), last.alias, last.status)
  }

  lemma RecordedAllAppend(failures: Failures, attempts: seq<Attempt>, a: Attempt)
    ensures RecordedAll(failures, attempts + [a]) == Recorded(RecordedAll(failures, attempts), a.alias, a.status)
  {
    assert (attempts + [a])[..|attempts|] == attempts;
  }

  lemma {:induction false} RecordedAllConcat(failures: Failures, a: seq<Attempt>, b: seq<Attempt>)
    ensures RecordedAll(failures, a + b) == RecordedAll(RecordedAll(failures, a), b)
    decreases |b|
  {
    if b == [] {
      assert a + b == a;
    } else {
      var front, last := b[..|b| - 1], b[|b| - 1];
      RecordedAllConcat(failures, a, front);
      assert a + b == (a + front) + [last] && b == front + [last];
      RecordedAllAppend(failures, a + front, last);
      RecordedAllAppend(RecordedAll(failures, a), front, last);
    }
  }

  /** Attempts on other models leave a counter alone. */
  lemma {:induction false} OthersKeepCount(failures: Failures, attempts: seq<Attempt>, alias: string)
    requires forall i | 0 <= i < |attempts| :: attempts[i].alias != alias
    ensures FailureCount(RecordedAll(failures, attempts), alias) == FailureCount(failures, alias)
    decreases |attempts|
  {
    if attempts != [] {
      OthersKeepCount(failures, attempts[..|attempts| - 1], alias);
    }
  }

  function Health(failures: Failures, degradedAfter: nat, unavailableAfter: nat, alias: string): (h: HealthStatus)
    requires 1 <= degradedAfter < unavailableAfter
    ensures h.Unavailable? <==> unavailableAfter <= FailureCount(failures, alias)
    ensures h.Healthy? <==> FailureCount(failures, alias) < degradedAfter
  {
    if unavailableAfter <= FailureCount(failures, alias) then Unavailable
    else if degradedAfter <= FailureCount(failures, alias) then Degraded
    else Healthy
  }

  /** The counter is the length of the current streak: health-affecting failures of the alias
      since its last success. Permanent failures neither extend nor break it. */
  function Streak(attempts: seq<Attempt>, alias: string): nat
    decreases |attempts|
  {
    if attempts == [] then 0
    else
      var last, before := attempts[|attempts| - 1], attempts[..|attempts| - 1];
      if last.alias != alias || last.status.NonRetryableError? then Streak(before, alias)
      else if last.status.Succeeded? then 0
      else Streak(before, alias) + 1
  }

  lemma {:induction false} CounterIsStreak(attempts: seq<Attempt>, alias: string)
    ensures FailureCount(RecordedAll(map[], attempts), alias) == Streak(attempts, alias)
    decreases |attempts|
  {
    if attempts != [] {
      CounterIsStreak(attempts[..|attempts| - 1], alias);
    }
  }

  class InMemoryModelHealthRepository {
    var failures: Failures
    const degradedAfter: nat
    const unavailableAfter: nat

    ghost predicate Valid() { 1 <= degradedAfter < unavailableAfter }

    constructor (degradedAfter: nat, unavailableAfter: nat)
      requires 1 <= degradedAfter < unavailableAfter
      ensures Valid() && failures == map[]
      ensures this.degradedAfter == degradedAfter && this.unavailableAfter == unavailableAfter
    {
      this.failures := map[];
      this.degradedAfter := degradedAfter;
      this.unavailableAfter := unavailableAfter;
    }

    method GetHealth(alias: string) returns (h: HealthStatus)
      requires Valid()
      ensures h == Health(failures, degradedAfter, unavailableAfter, alias)
    {
      var count: nat := 0;
      if alias in failures {
        count := failures[alias];
      }
      if unavailableAfter <= count {
        return Unavailable;
      }
      if degradedAfter <= count {
        return Degraded;
      }
      return Healthy;
    }

    method RecordOutcome(alias: string, status: AttemptStatus)
      modifies this
      ensures failures == Recorded(old(failures), alias, status)
    {
      if status == Succeeded {
        failures := failures[alias := 0];
      } else if status == ThrottledCall || status == TransientError || status == TimedOut {
        failures := failures[alias := FailureCount(failures, alias) + 1];
      }
    }
  }
}
