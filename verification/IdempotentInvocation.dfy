/** The orchestrator's use of the store (`_invoke_with_idempotency` in
    src/application/invocation_orchestrator.py). */
module IdempotentInvocation {
  import opened Domain
  import opened MemoryStore
  import P = MemoryProtocol

  /** What the wrapped invocation does, if it is run. */
  datatype Work = Produced(result: InferenceResult) | Threw

  datatype Answer = Returned(result: InferenceResult) | ConflictError | InProgressError | MissingResultError | Rethrown

  /** Completed records carry their result. */
  ghost predicate Sound(records: Records) {
    forall key | key in records && !records[key].inProgress :: records[key].result.Some?
  }

  /** The protocol state of a lone client 0 about to reserve. */
  function Alone(records: Records, now: int): P.State { P.State(now, records, map[]) }

  function Reserved(records: Records, stale: int, key: Key, hash: string, now: int): P.State {
    P.Apply(Alone(records, now), stale, P.Reserve(0, key, hash))
  }

  /** Other clients of the store act while a request is being invoked, unless the store is quiet. Their
      steps keep completed records carrying results (`MemoryProtocol.StoredResultsHaveOrigin`). */
  method OtherClients(store: InMemoryIdempotencyStore, ghost quiet: bool)
    modifies store
    ensures quiet ==> store.records == old(store.records)
    ensures Sound(old(store.records)) ==> Sound(store.records)
  {
  }

  /** The step by which an invoking client leaves the protocol. */
  function Leave(work: Work, caching: bool, retention: int): P.Step {
    if work.Produced? then P.Complete(0, work.result, caching, retention) else P.Release(0)
  }

  /** One request is exactly one client of the protocol: a reserve step and, when told NEW, a completing
      or releasing step on whatever records (`met`) the other clients have left by then. `reservedAt` and
      `finishedAt` are the store's clock readings. */
  method InvokeWithIdempotency(store: InMemoryIdempotencyStore, key: Key, hash: string, work: Work, caching: bool,
                               retention: int, reservedAt: int, finishedAt: int, ghost quiet: bool)
    returns (answer: Answer, invoked: bool, ghost met: Records)
    modifies store
    ensures var s := Reserved(old(store.records), store.stale, key, hash, reservedAt);
            && (invoked <==> P.IsInvoking(s, 0, key))
            && (quiet ==> met == s.records)
            && store.records ==
               if invoked then P.Apply(s.(now := finishedAt, records := met), store.stale, Leave(work, caching, retention)).records
               else s.records
    ensures invoked && (work.Threw? || !caching) ==> store.records == met - {key}
    ensures invoked && work.Produced? && caching ==>
              store.records == met[key := Record(hash, false, Some(work.result), finishedAt + retention)]
    ensures invoked ==> answer == if work.Produced? then Returned(work.result) else Rethrown
    ensures Sound(old(store.records)) ==> Sound(store.records) && !answer.MissingResultError?
    ensures !invoked ==>
              && Live(old(store.records), key, reservedAt)
              && var record := old(store.records)[key];
                 answer == if record.requestHash != hash then ConflictError
                           else if record.inProgress then InProgressError
                           else if record.result.Some? then Returned(record.result.value)
                           else MissingResultError
  {
    var reservation := store.Reserve(key, hash, reservedAt);
    invoked, met := false, store.records;
    match reservation
    case Conflict => answer := ConflictError;
    case InProgress => answer := InProgressError;
    case Completed(cached) => answer := if cached.Some? then Returned(cached.value) else MissingResultError;
    case New =>
      invoked := true;
      OtherClients(store, quiet);
      met := store.records;
      if work.Threw? {
        store.Release(key);
        answer := Rethrown;
      } else {
        store.Complete(key, hash, work.result, caching, retention, finishedAt);
        answer := Returned(work.result);
      }
  }

  /** A duplicate sent within the retention of a cached first request is answered with the first
      result and not invoked; one with other content is a conflict. Where the policy forbids caching, the
      second request is invoked like the first, whatever its content. */
  method SendTwice(store: InMemoryIdempotencyStore, key: Key, first: string, second: string, work: Work, other: Work,
                   caching: bool, retention: int, t0: int, t1: int, t2: int, t3: int)
    returns (a: Answer, b: Answer, invokedAgain: bool)
    requires t0 <= t1 <= t2 <= t3 && t2 < t1 + retention
    requires !Live(store.records, key, t0) && work.Produced?
    modifies store
    ensures a == Returned(work.result) && (invokedAgain <==> !caching)
    ensures caching ==> b == if first == second then a else ConflictError
    ensures !caching ==> b == if other.Produced? then Returned(other.result) else Rethrown
  {
    var invoked;
    ghost var met;
    a, invoked, met := InvokeWithIdempotency(store, key, first, work, caching, retention, t0, t1, true);
    b, invokedAgain, met := InvokeWithIdempotency(store, key, second, other, caching, retention, t2, t3, true);
  }
}
