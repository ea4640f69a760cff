/** The two stores, driven by the same sequential operations at whole-second times. The remote
    table may additionally drop expired items at any moment. */
module StoreEquivalence {
  import opened Domain
  import opened MemoryStore
  import opened DynamoStore

  datatype Op =
    | Reserve(at: int, key: Key, hash: string)
    | Complete(at: int, key: Key, hash: string, result: InferenceResult, caching: bool, retention: int)
    | Release(at: int, key: Key)
    | Sweep(at: int, key: Key)

  function MemoryReply(records: Records, op: Op): Option<Reservation> {
    if op.Reserve? then Some(ReserveOutcome(records, op.key, op.hash, op.at)) else None
  }

  function MemoryNext(records: Records, stale: int, op: Op): Records {
    match op
    case Reserve(at, key, hash) => AfterReserve(records, key, hash, at, stale)
    case Complete(at, key, hash, result, caching, retention) =>
      AfterComplete(records, key, hash, result, caching, retention, at)
    case Release(at, key) => records - {key}
    case Sweep(at, key) => records
  }

  function DynamoReply(table: Table, op: Op): Option<Reservation> {
    if op.Reserve? then Some(QuietOutcome(table, op.key, op.hash, op.at)) else None
  }

  function DynamoNext(table: Table, stale: int, op: Op): Table {
    match op
    case Reserve(at, key, hash) => AfterPut(table, key, hash, at, stale)
    case Complete(at, key, hash, result, caching, retention) =>
      if caching then AfterStore(table, key, hash, result, retention, at) else table - {key}
    case Release(at, key) => table - {key}
    case Sweep(at, key) => if key in table && table[key].expiresAt < at then table - {key} else table
  }

  function MemoryReplies(records: Records, stale: int, ops: seq<Op>): (r: seq<Option<Reservation>>)
    ensures |r| == |ops|
    decreases ops
  {
    if ops == [] then []
    else [MemoryReply(records, ops[0])] + MemoryReplies(MemoryNext(records, stale, ops[0]), stale, ops[1..])
  }

  function DynamoReplies(table: Table, stale: int, ops: seq<Op>): (r: seq<Option<Reservation>>)
    ensures |r| == |ops|
    decreases ops
  {
    if ops == [] then []
    else [DynamoReply(table, ops[0])] + DynamoReplies(DynamoNext(table, stale, ops[0]), stale, ops[1..])
  }

  /** Some reserve falls exactly on the expiry instant of the record it meets. */
  predicate HitsExpiryInstant(records: Records, stale: int, ops: seq<Op>)
    decreases ops
  {
    && ops != []
    && ((ops[0].Reserve? && ops[0].key in records && records[ops[0].key].expiresAt == ops[0].at)
        || HitsExpiryInstant(MemoryNext(records, stale, ops[0]), stale, ops[1..]))
  }

  /** Operation times never go back, starting from `from`. */
  predicate InOrder(from: int, ops: seq<Op>)
    decreases ops
  {
    ops == [] || (from <= ops[0].at && InOrder(ops[0].at, ops[1..]))
  }

  ghost predicate SameEntry(record: Record, item: Item) {
    && record.requestHash == item.requestHash
    && record.expiresAt == item.expiresAt
    && (if record.inProgress then record.result == None && item.status == Pending
        else record.result.Some? && item.status == Stored(record.result.value))
  }

  /** Equal contents, except that the table may already have dropped entries expired by `time`. */
  ghost predicate Agree(records: Records, table: Table, time: int) {
    && (forall key | key in table :: key in records && SameEntry(records[key], table[key]))
    && (forall key | key in records && key !in table :: records[key].expiresAt < time)
  }

  lemma StepAgrees(records: Records, table: Table, time: int, stale: int, op: Op)
    requires Agree(records, table, time) && time <= op.at
    ensures MemoryReply(records, op) == DynamoReply(table, op) <==>
            !(op.Reserve? && op.key in records && records[op.key].expiresAt == op.at)
    ensures MemoryReply(records, op) == DynamoReply(table, op) ==>
            Agree(MemoryNext(records, stale, op), DynamoNext(table, stale, op), op.at)
  {
    if op.Reserve? && op.key in records && op.key in table {
      assert SameEntry(records[op.key], table[op.key]);
    }
  }

  /** From agreeing contents the two stores give the same replies if and only if no reserve
      falls exactly on an expiry instant. */
  lemma {:induction false} RepliesEqualIff(records: Records, table: Table, time: int, stale: int, ops: seq<Op>)
    requires Agree(records, table, time) && InOrder(time, ops)
    ensures MemoryReplies(records, stale, ops) == DynamoReplies(table, stale, ops)
            <==> !HitsExpiryInstant(records, stale, ops)
    decreases ops
  {
    if ops != [] {
      var op := ops[0];
      StepAgrees(records, table, time, stale, op);
      var m := MemoryReplies(MemoryNext(records, stale, op), stale, ops[1..]);
      var d := DynamoReplies(DynamoNext(table, stale, op), stale, ops[1..]);
      assert MemoryReplies(records, stale, ops) == [MemoryReply(records, op)] + m;
      assert DynamoReplies(table, stale, ops) == [DynamoReply(table, op)] + d;
      assert ([MemoryReply(records, op)] + m)[1..] == m && ([DynamoReply(table, op)] + d)[1..] == d;
      if MemoryReply(records, op) == DynamoReply(table, op) {
        RepliesEqualIff(MemoryNext(records, stale, op), DynamoNext(table, stale, op), op.at, stale, ops[1..]);
      } else {
        assert MemoryReplies(records, stale, ops)[0] != DynamoReplies(table, stale, ops)[0];
      }
    }
  }

  /** A second reserve at the very expiry instant of the first is NEW in memory, IN_PROGRESS remotely. */
  lemma StoresDifferAtExpiry(stale: int, at: int, key: Key, hash: string)
    requires 0 <= stale
    ensures var ops := [Reserve(at, key, hash), Reserve(at + stale, key, hash)];
            && InOrder(at, ops)
            && MemoryReplies(map[], stale, ops) == [Some(New), Some(New)]
            && DynamoReplies(map[], stale, ops) == [Some(New), Some(InProgress)]
  {
    var first, second := Reserve(at, key, hash), Reserve(at + stale, key, hash);
    var ops := [first, second];
    assert ops[1..] == [second] && [second][1..] == [];
    var records, table := MemoryNext(map[], stale, first), DynamoNext(map[], stale, first);
    assert MemoryReplies(records, stale, [second]) == [Some(New)] + MemoryReplies(MemoryNext(records, stale, second), stale, []);
    assert DynamoReplies(table, stale, [second]) == [Some(InProgress)] + DynamoReplies(DynamoNext(table, stale, second), stale, []);
  }

  /** The stores are interchangeable from empty, away from expiry instants. */
  lemma StoresInterchangeable(stale: int, from: int, ops: seq<Op>)
    requires InOrder(from, ops)
    ensures MemoryReplies(map[], stale, ops) == DynamoReplies(map[], stale, ops)
            <==> !HitsExpiryInstant(map[], stale, ops)
  {
    RepliesEqualIff(map[], map[], from, stale, ops);
  }
}
