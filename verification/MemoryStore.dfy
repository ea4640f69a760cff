/** The single-process idempotency store (src/adapters/memory/in_memory_idempotency_store.py). */
module MemoryStore {
  import opened Domain

  datatype Key = Key(applicationId: string, idempotencyKey: string)

  datatype Record = Record(
    requestHash: string,
    inProgress: bool,
    result: Option<InferenceResult>,
    expiresAt: int)

  type Records = map<Key, Record>

  datatype Reservation = New | InProgress | Completed(cached: Option<InferenceResult>) | Conflict

  /** A record is honoured strictly before its expiry instant. */
  predicate Live(records: Records, key: Key, now: int) {
    key in records && now < records[key].expiresAt
  }

  function ReserveOutcome(records: Records, key: Key, hash: string, now: int): (r: Reservation)
    ensures r.New? <==> !Live(records, key, now)
    ensures r.Conflict? <==> Live(records, key, now) && records[key].requestHash != hash
    ensures r.InProgress? <==> Live(records, key, now) && records[key].requestHash == hash && records[key].inProgress
    ensures r.Completed? ==> r.cached == records[key].result
  {
    if !Live(records, key, now) then New
    else if records[key].requestHash != hash then Conflict
    else if records[key].inProgress then InProgress
    else Completed(records[key].result)
  }

  function AfterReserve(records: Records, key: Key, hash: string, now: int, stale: int): Records {
    if Live(records, key, now) then records
    else records[key := Record(hash, true, None, now + stale)]
  }

  function AfterComplete(records: Records, key: Key, hash: string, result: InferenceResult,
                         caching: bool, retention: int, now: int): Records
  {
    if caching then records[key := Record(hash, false, Some(result), now + retention)]
    else records - {key}
  }

  class InMemoryIdempotencyStore {
    var records: Records
    const stale: int

    constructor (stale: int)
      ensures records == map[] && this.stale == stale
    {
      this.records := map[];
      this.stale := stale;
    }

    /** `now` is the clock reading taken inside the critical section. */
    method Reserve(key: Key, hash: string, now: int) returns (r: Reservation)
      modifies this
      ensures r == ReserveOutcome(old(records), key, hash, now)
      ensures records == AfterReserve(old(records), key, hash, now, stale)
    {
      if key in records {
        var record := records[key];
        if now < record.expiresAt {
          if record.requestHash != hash {
            return Conflict;
          }
          if record.inProgress {
            return InProgress;
          }
          return Completed(record.result);
        }
      }
      records := records[key := Record(hash, true, None, now + stale)];
      return New;
    }

    method Complete(key: Key, hash: string, result: InferenceResult, caching: bool, retention: int, now: int)
      modifies this
      ensures records == AfterComplete(old(records), key, hash, result, caching, retention, now)
    {
      if !caching {
        records := records - {key};
        return;
      }
      records := records[key := Record(hash, false, Some(result), now + retention)];
    }

    method Release(key: Key)
      modifies this
      ensures records == old(records) - {key}
    {
      records := records - {key};
    }
  }
}
