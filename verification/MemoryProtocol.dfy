/** Concurrent idempotent requests over the in-memory store, as an interleaved step system.

    Each client is one logical request of `InvocationOrchestrator._invoke_with_idempotency`:
    it reserves, and when it is told NEW it invokes and then completes or releases. */
module MemoryProtocol {
  import opened Domain
  import opened MemoryStore

  type ClientId = nat

  datatype Client =
    | Invoking(key: Key, hash: string, until: int)
    | Finished(reply: Reservation)

  datatype State = State(now: int, records: Records, clients: map<ClientId, Client>)

  datatype Step =
    | Reserve(c: ClientId, key: Key, hash: string)
    | Complete(c: ClientId, result: InferenceResult, caching: bool, retention: int)
    | Release(c: ClientId)
    | Tick(to: int)

  predicate IsInvoking(s: State, c: ClientId, key: Key) {
    c in s.clients && s.clients[c].Invoking? && s.clients[c].key == key
  }

  predicate Enabled(s: State, step: Step) {
    match step
    case Reserve(c, key, hash) => c !in s.clients
    case Complete(c, result, caching, retention) => c in s.clients && s.clients[c].Invoking?
    case Release(c) => c in s.clients && s.clients[c].Invoking?
    case Tick(to) => s.now <= to
  }

  function Apply(s: State, stale: int, step: Step): State
    requires Enabled(s, step)
  {
    match step
    case Reserve(c, key, hash) =>
      var reply := ReserveOutcome(s.records, key, hash, s.now);
      State(s.now, AfterReserve(s.records, key, hash, s.now, stale),
            s.clients[c := if reply.New? then Invoking(key, hash, s.now + stale) else Finished(reply)])
    case Complete(c, result, caching, retention) =>
      var client := s.clients[c];
      State(s.now, AfterComplete(s.records, client.key, client.hash, result, caching, retention, s.now),
            s.clients[c := Finished(New)])
    case Release(c) =>
      State(s.now, s.records - {s.clients[c].key}, s.clients[c := Finished(New)])
    case Tick(to) => s.(now := to)
  }

  /** A finite run from the empty store; `states[i]` is the state before `steps[i]`. */
  ghost predicate IsRun(stale: int, states: seq<State>, steps: seq<Step>) {
    && |states| == |steps| + 1
    && states[0].records == map[] && states[0].clients == map[]
    && forall i | 0 <= i < |steps| ::
         Enabled(states[i], steps[i]) && states[i + 1] == Apply(states[i], stale, steps[i])
  }

  /** Every holder of `key` is still inside its own reservation. */
  ghost predicate Timely(s: State, key: Key) {
    forall c | IsInvoking(s, c, key) :: s.now < s.clients[c].until
  }

  ghost predicate Exclusive(s: State, key: Key) {
    forall c, d | IsInvoking(s, c, key) && IsInvoking(s, d, key) :: c == d
  }

  /** The stored record of `key` is the one its holder wrote. */
  ghost predicate HoldersOwnRecord(s: State, key: Key) {
    forall c | IsInvoking(s, c, key) ::
      key in s.records && s.records[key] == Record(s.clients[c].hash, true, None, s.clients[c].until)
  }

  lemma HoldingPreserved(s: State, stale: int, step: Step, key: Key)
    requires Enabled(s, step) && Timely(s, key) && Exclusive(s, key) && HoldersOwnRecord(s, key)
    ensures Exclusive(Apply(s, stale, step), key) && HoldersOwnRecord(Apply(s, stale, step), key)
  {
    var t := Apply(s, stale, step);
    if step.Complete? || step.Release? {
      assert forall c | IsInvoking(t, c, key) :: IsInvoking(s, c, key) && c != step.c;
      assert IsInvoking(s, step.c, key) ==> forall c :: !IsInvoking(t, c, key);
    } else if step.Tick? {
      assert forall c :: IsInvoking(t, c, key) <==> IsInvoking(s, c, key);
    } else {
      assert forall c | IsInvoking(t, c, key) && c != step.c :: IsInvoking(s, c, key);
      assert IsInvoking(t, step.c, key) ==> forall c :: !IsInvoking(s, c, key);
    }
  }

  /** While every earlier state was timely for `key`, at most one client invokes under it. */
  lemma {:induction false} AtMostOneInvoker(stale: int, states: seq<State>, steps: seq<Step>, key: Key, n: nat)
    requires IsRun(stale, states, steps) && n < |states|
    requires forall i | 0 <= i < n :: Timely(states[i], key)
    ensures Exclusive(states[n], key) && HoldersOwnRecord(states[n], key)
  {
    if n > 0 {
      AtMostOneInvoker(stale, states, steps, key, n - 1);
      HoldingPreserved(states[n - 1], stale, steps[n - 1], key);
    }
  }

  /** The step reserves `key` while some holder of it is past its own reservation. */
  ghost predicate OverdueReserve(s: State, step: Step, key: Key) {
    step.Reserve? && step.key == key && exists c :: IsInvoking(s, c, key) && s.clients[c].until <= s.now
  }

  /** One step loses exclusion if and only if it reserves past an overdue holder; otherwise the holder
      keeps owning the record, however long it overstays. */
  lemma ExclusionLostIff(s: State, stale: int, step: Step, key: Key)
    requires Enabled(s, step) && Exclusive(s, key) && HoldersOwnRecord(s, key)
    ensures !Exclusive(Apply(s, stale, step), key) <==> OverdueReserve(s, step, key)
    ensures !OverdueReserve(s, step, key) ==> HoldersOwnRecord(Apply(s, stale, step), key)
  {
    var t := Apply(s, stale, step);
    if OverdueReserve(s, step, key) {
      var holder :| IsInvoking(s, holder, key) && s.clients[holder].until <= s.now;
      assert IsInvoking(t, holder, key) && IsInvoking(t, step.c, key);
    } else if step.Complete? || step.Release? {
      assert forall c | IsInvoking(t, c, key) :: IsInvoking(s, c, key) && c != step.c;
      assert IsInvoking(s, step.c, key) ==> forall c :: !IsInvoking(t, c, key);
    } else if step.Reserve? {
      assert forall c | IsInvoking(t, c, key) && c != step.c :: IsInvoking(s, c, key);
      assert IsInvoking(t, step.c, key) ==> forall c :: !IsInvoking(s, c, key);
    } else {
      assert forall c :: IsInvoking(t, c, key) <==> IsInvoking(s, c, key);
    }
  }

  ghost predicate AlwaysExclusive(states: seq<State>, key: Key, n: nat)
    requires n < |states|
  {
    forall i | 0 <= i <= n :: Exclusive(states[i], key)
  }

  ghost predicate NeverReservedOverdue(states: seq<State>, steps: seq<Step>, key: Key, n: nat)
    requires n < |states| && n <= |steps|
  {
    forall i | 0 <= i < n :: !OverdueReserve(states[i], steps[i], key)
  }

  /** The exact condition for exclusion over a whole run, with no timing hypothesis: the first overlap on a
      key is a reserve past an overdue holder, and a holder that overstays alone does no harm. */
  lemma {:induction false} RunExclusiveIff(stale: int, states: seq<State>, steps: seq<Step>, key: Key, n: nat)
    requires IsRun(stale, states, steps) && n < |states|
    ensures AlwaysExclusive(states, key, n) <==> NeverReservedOverdue(states, steps, key, n)
    ensures AlwaysExclusive(states, key, n) ==> HoldersOwnRecord(states[n], key)
  {
    if n > 0 {
      RunExclusiveIff(stale, states, steps, key, n - 1);
      var s, step := states[n - 1], steps[n - 1];
      assert Enabled(s, step) && states[n] == Apply(s, stale, step);
      if AlwaysExclusive(states, key, n - 1) {
        ExclusionLostIff(s, stale, step, key);
      }
      assert AlwaysExclusive(states, key, n) <==> AlwaysExclusive(states, key, n - 1) && Exclusive(states[n], key);
      assert NeverReservedOverdue(states, steps, key, n) <==>
             NeverReservedOverdue(states, steps, key, n - 1) && !OverdueReserve(s, step, key);
    }
  }

  /** A holder that outlives its reservation by nothing at all already admits a second. */
  lemma OverdueRunWithTwoInvokers(stale: int, key: Key, hash: string, now: int) returns (states: seq<State>, steps: seq<Step>)
    requires 0 <= stale
    ensures IsRun(stale, states, steps) && !Exclusive(states[|steps|], key)
  {
    var s0 := State(now, map[], map[]);
    steps := [Reserve(0, key, hash), Tick(now + stale), Reserve(1, key, hash)];
    var s1 := Apply(s0, stale, steps[0]);
    var s2 := Apply(s1, stale, steps[1]);
    var s3 := Apply(s2, stale, steps[2]);
    states := [s0, s1, s2, s3];
    assert IsInvoking(s3, 0, key) && IsInvoking(s3, 1, key);
  }

  lemma {:induction false} ClockMonotone(stale: int, states: seq<State>, steps: seq<Step>, i: nat, n: nat)
    requires IsRun(stale, states, steps) && i <= n < |states|
    ensures states[i].now <= states[n].now
  {
    if i < n {
      ClockMonotone(stale, states, steps, i, n - 1);
      assert Enabled(states[n - 1], steps[n - 1]);
    }
  }

  /** After a caching completion at step `i` by the only invoker nobody invokes under the key until the cached
      record expires, whatever other clients do. */
  lemma {:induction false} CachedResultShields(stale: int, states: seq<State>, steps: seq<Step>, i: nat, n: nat)
    requires IsRun(stale, states, steps) && i < n < |states|
    requires Enabled(states[i], steps[i]) && steps[i].Complete? && steps[i].caching
    requires Exclusive(states[i], states[i].clients[steps[i].c].key)
    requires states[n].now < states[i].now + steps[i].retention
    ensures var client := states[i].clients[steps[i].c];
            && (forall c :: !IsInvoking(states[n], c, client.key))
            && client.key in states[n].records
            && states[n].records[client.key]
               == Record(client.hash, false, Some(steps[i].result), states[i].now + steps[i].retention)
  {
    var key := states[i].clients[steps[i].c].key;
    if n == i + 1 {
      assert IsInvoking(states[i], steps[i].c, key);
      assert !IsInvoking(states[n], steps[i].c, key);
      assert forall c :: IsInvoking(states[n], c, key) ==> IsInvoking(states[i], c, key);
    } else {
      ClockMonotone(stale, states, steps, n - 1, n);
      CachedResultShields(stale, states, steps, i, n - 1);
      var s, step := states[n - 1], steps[n - 1];
      assert Enabled(s, step) && states[n] == Apply(s, stale, step);
      assert Live(s.records, key, s.now);
      if step.Complete? || step.Release? {
        assert !IsInvoking(s, step.c, key);
      }
      forall c ensures !IsInvoking(states[n], c, key) {
        assert !IsInvoking(s, c, key);
      }
    }
  }

  /** What a reserve tells its client, over the record it meets. */
  lemma ReserveAnswers(stale: int, states: seq<State>, steps: seq<Step>, n: nat)
    requires IsRun(stale, states, steps) && n < |steps| && steps[n].Reserve?
    ensures steps[n].c in states[n + 1].clients
    ensures var key, hash, s, after := steps[n].key, steps[n].hash, states[n], states[n + 1].clients[steps[n].c];
            if key in s.records && s.now < s.records[key].expiresAt then
              var record := s.records[key];
              && (after == Finished(Conflict) <==> record.requestHash != hash)
              && (after == Finished(InProgress) <==> record.requestHash == hash && record.inProgress)
              && (record.requestHash == hash && !record.inProgress ==> after == Finished(Completed(record.result)))
              && states[n + 1].records == s.records
            else
              && after == Invoking(key, hash, s.now + stale)
              && states[n + 1].records == s.records[key := Record(hash, true, None, s.now + stale)]
  {
    assert states[n + 1] == Apply(states[n], stale, steps[n]);
  }

  /** Step `j` stored `result` for (`key`, `hash`) with expiry `expiresAt`. */
  ghost predicate CachedAt(states: seq<State>, steps: seq<Step>, j: int, key: Key, hash: string,
                           result: InferenceResult, expiresAt: int)
    requires |states| == |steps| + 1
  {
    && 0 <= j < |steps| && steps[j].Complete? && steps[j].caching
    && IsInvoking(states[j], steps[j].c, key) && states[j].clients[steps[j].c].hash == hash
    && steps[j].result == result && expiresAt == states[j].now + steps[j].retention
  }

  lemma {:induction false} StoredResultsHaveOrigin(stale: int, states: seq<State>, steps: seq<Step>, n: nat, key: Key)
    requires IsRun(stale, states, steps) && n < |states|
    requires key in states[n].records && !states[n].records[key].inProgress
    ensures states[n].records[key].result.Some?
    ensures exists j :: j < n && CachedAt(states, steps, j, key, states[n].records[key].requestHash,
                                          states[n].records[key].result.value, states[n].records[key].expiresAt)
  {
    assert n > 0;
    var s, step := states[n - 1], steps[n - 1];
    assert Enabled(s, step) && states[n] == Apply(s, stale, step);
    if key in s.records && s.records[key] == states[n].records[key] {
      StoredResultsHaveOrigin(stale, states, steps, n - 1, key);
      var j :| j < n - 1 && CachedAt(states, steps, j, key, s.records[key].requestHash,
                                     s.records[key].result.value, s.records[key].expiresAt);
      assert j < n;
    } else {
      assert step.Complete? && step.caching && s.clients[step.c].key == key;
      assert CachedAt(states, steps, n - 1, key, states[n].records[key].requestHash,
                      states[n].records[key].result.value, states[n].records[key].expiresAt);
    }
  }

  /** Replay integrity, with no timing hypothesis: a COMPLETED reply carries the result of an
      earlier caching completion of the same key and hash, less than its retention ago. */
  lemma CompletedRepliesReplayFaithfully(stale: int, states: seq<State>, steps: seq<Step>, n: nat)
    requires IsRun(stale, states, steps) && n < |steps| && steps[n].Reserve?
    requires ReserveOutcome(states[n].records, steps[n].key, steps[n].hash, states[n].now).Completed?
    ensures var reply := ReserveOutcome(states[n].records, steps[n].key, steps[n].hash, states[n].now);
            && reply.cached.Some?
            && exists j :: && 0 <= j < n && steps[j].Complete?
                           && CachedAt(states, steps, j, steps[n].key, steps[n].hash, reply.cached.value,
                                       states[j].now + steps[j].retention)
                           && states[j].now <= states[n].now < states[j].now + steps[j].retention
  {
    var key := steps[n].key;
    StoredResultsHaveOrigin(stale, states, steps, n, key);
    var record := states[n].records[key];
    var j :| j < n && CachedAt(states, steps, j, key, record.requestHash, record.result.value, record.expiresAt);
    ClockMonotone(stale, states, steps, j, n);
  }
}
