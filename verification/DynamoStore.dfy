/** The multi-host idempotency store over a remote table
    (src/adapters/dynamodb/dynamodb_idempotency_store.py). Times are whole seconds. */
module DynamoStore {
  import opened Domain
  import opened MemoryStore

  datatype ItemStatus = Pending | Stored(result: InferenceResult)

  datatype Item = Item(requestHash: string, status: ItemStatus, expiresAt: int)

  type Table = map<Key, Item>

  const MAX_RESERVE_ATTEMPTS := 2

  /** The put's condition: no item, or an item whose expiry is strictly in the past. */
  predicate PutAllowed(table: Table, key: Key, now: int) {
    key !in table || table[key].expiresAt < now
  }

  /** What a successful get tells a reserving client. */
  function Classify(item: Item, hash: string): (r: Reservation)
    ensures !r.New?
  {
    if item.requestHash != hash then Conflict
    else if item.status.Pending? then InProgress
    else Completed(Some(item.status.result))
  }

  /** The outcome of a reserve that nobody disturbs. */
  function QuietOutcome(table: Table, key: Key, hash: string, now: int): Reservation {
    if PutAllowed(table, key, now) then New else Classify(table[key], hash)
  }

  function AfterPut(table: Table, key: Key, hash: string, now: int, stale: int): Table {
    if PutAllowed(table, key, now) then table[key := Item(hash, Pending, now + stale)] else table
  }

  function AfterStore(table: Table, key: Key, hash: string, result: InferenceResult, retention: int, now: int): Table {
    table[key := Item(hash, Stored(result), now + retention)]
  }

  class DynamoDbIdempotencyStore {
    var table: Table
    const stale: int

    constructor (stale: int)
      ensures table == map[] && this.stale == stale
    {
      this.table := map[];
      this.stale := stale;
    }

    /** Other hosts may change the remote table here, unless the caller is told it is quiet. */
    method Interference(ghost quiet: bool)
      modifies this
      ensures quiet ==> table == old(table)
    {
    }

    /** `clock(i)` is the whole second read by attempt `i`. `fellThrough` reports the final NEW
        that no put backs. */
    method Reserve(key: Key, hash: string, clock: nat -> int, ghost quiet: bool)
      returns (r: Reservation, ghost fellThrough: bool)
      modifies this
      ensures fellThrough ==> r == New
      ensures r == New && !fellThrough ==>
                exists i: nat :: i < MAX_RESERVE_ATTEMPTS && key in table && table[key] == Item(hash, Pending, clock(i) + stale)
      ensures quiet ==> !fellThrough
      ensures quiet ==> r == QuietOutcome(old(table), key, hash, clock(0))
      ensures quiet ==> table == AfterPut(old(table), key, hash, clock(0), stale)
    {
      fellThrough := false;
      var attempt: nat := 0;
      while attempt < MAX_RESERVE_ATTEMPTS
        invariant quiet ==> attempt == 0 && table == old(table)
        invariant attempt <= MAX_RESERVE_ATTEMPTS
      {
        var now := clock(attempt);
        Interference(quiet);
        if PutAllowed(table, key, now) {
          table := table[key := Item(hash, Pending, now + stale)];
          return New, false;
        }
        Interference(quiet);
        if key in table {
          return Classify(table[key], hash), false;
        }
        attempt := attempt + 1;
      }
      return New, true;
    }

    method Complete(key: Key, hash: string, result: InferenceResult, caching: bool, retention: int, now: int)
      modifies this
      ensures table == if caching then AfterStore(old(table), key, hash, result, retention, now)
                       else old(table) - {key}
    {
      if !caching {
        Release(key);
        return;
      }
      table := table[key := Item(hash, Stored(result), now + retention)];
    }

    method Release(key: Key)
      modifies this
      ensures table == old(table) - {key}
    {
      table := table - {key};
    }
  }
}
