/** Concurrent idempotent requests over the remote table. Reading the clock, the conditional
    put, the get, the storing put, the delete and the table's own expiry are separate steps. */
module DynamoProtocol {
  import opened Domain
  import MemoryStore
  import opened DynamoStore

  type Key = MemoryStore.Key
  type ClientId = nat

  datatype Client =
    | Reading(key: Key, hash: string, attempt: nat)
    | Putting(key: Key, hash: string, attempt: nat, now: int)
    | Getting(key: Key, hash: string, attempt: nat)
    | Invoking(key: Key, hash: string, until: int, wrote: bool)
    | Storing(key: Key, hash: string, until: int, wrote: bool, result: InferenceResult, expiresAt: int)
    | Finished(reply: MemoryStore.Reservation)

  datatype State = State(now: int, table: Table, clients: map<ClientId, Client>)

  datatype Step =
    | Begin(c: ClientId, key: Key, hash: string)
    | ReadClock(c: ClientId)
    | Put(c: ClientId)
    | Get(c: ClientId)
    | ReadExpiry(c: ClientId, result: InferenceResult, retention: int)
    | Store(c: ClientId)
    | Delete(c: ClientId)
    | Expire(key: Key)
    | Tick(to: int)

  /** From NEW until its storing put or its delete, a client holds the key. */
  predicate Holds(s: State, c: ClientId, key: Key) {
    && c in s.clients
    && (s.clients[c].Invoking? || s.clients[c].Storing?)
    && s.clients[c].key == key
  }

  predicate Enabled(s: State, step: Step) {
    match step
    case Begin(c, key, hash) => c !in s.clients
    case ReadClock(c) => c in s.clients && s.clients[c].Reading?
    case Put(c) => c in s.clients && s.clients[c].Putting?
    case Get(c) => c in s.clients && s.clients[c].Getting?
    case ReadExpiry(c, result, retention) => c in s.clients && s.clients[c].Invoking?
    case Store(c) => c in s.clients && s.clients[c].Storing?
    case Delete(c) => c in s.clients && s.clients[c].Invoking?
    case Expire(key) => key in s.table && s.table[key].expiresAt < s.now
    case Tick(to) => s.now <= to
  }

  function Apply(s: State, stale: int, step: Step): State
    requires Enabled(s, step)
  {
    match step
    case Begin(c, key, hash) => s.(clients := s.clients[c := Reading(key, hash, 1)])
    case ReadClock(c) =>
      var client := s.clients[c];
      s.(clients := s.clients[c := Putting(client.key, client.hash, client.attempt, s.now)])
    case Put(c) =>
      var client := s.clients[c];
      State(s.now, AfterPut(s.table, client.key, client.hash, client.now, stale),
            s.clients[c := if PutAllowed(s.table, client.key, client.now)
                           then Invoking(client.key, client.hash, client.now + stale, true)
                           else Getting(client.key, client.hash, client.attempt)])
    case Get(c) =>
      var client := s.clients[c];
      s.(clients := s.clients[c :=
           if client.key in s.table then Finished(Classify(s.table[client.key], client.hash))
           else if client.attempt < MAX_RESERVE_ATTEMPTS then Reading(client.key, client.hash, client.attempt + 1)
           else Invoking(client.key, client.hash, s.now + stale, false)])
    case ReadExpiry(c, result, retention) =>
      var client := s.clients[c];
      s.(clients := s.clients[c :=
           Storing(client.key, client.hash, client.until, client.wrote, result, s.now + retention)])
    case Store(c) =>
      var client := s.clients[c];
      State(s.now, s.table[client.key := Item(client.hash, Stored(client.result), client.expiresAt)],
            s.clients[c := Finished(MemoryStore.New)])
    case Delete(c) =>
      State(s.now, s.table - {s.clients[c].key}, s.clients[c := Finished(MemoryStore.New)])
    case Expire(key) => s.(table := s.table - {key})
    case Tick(to) => s.(now := to)
  }

  ghost predicate IsRun(stale: int, states: seq<State>, steps: seq<Step>) {
    && |states| == |steps| + 1
    && states[0].table == map[] && states[0].clients == map[]
    && forall i | 0 <= i < |steps| ::
         Enabled(states[i], steps[i]) && states[i + 1] == Apply(states[i], stale, steps[i])
  }

  /** Every holder of `key` is still inside its own reservation. */
  ghost predicate Timely(s: State, key: Key) {
    forall c | Holds(s, c, key) :: s.now <= s.clients[c].until
  }

  /** No holder of `key` got its NEW from the final fall-through of `reserve`. */
  ghost predicate NoFallThrough(s: State, key: Key) {
    forall c | Holds(s, c, key) :: s.clients[c].wrote
  }

  ghost predicate Exclusive(s: State, key: Key) {
    forall c, d | Holds(s, c, key) && Holds(s, d, key) :: c == d
  }

  ghost predicate HoldersOwnItem(s: State, key: Key) {
    forall c | Holds(s, c, key) ::
      key in s.table && s.table[key] == Item(s.clients[c].hash, Pending, s.clients[c].until)
  }

  /** Clock readings a client still carries are not in the future. */
  ghost predicate ReadingsPast(s: State) {
    forall c | c in s.clients && s.clients[c].Putting? :: s.clients[c].now <= s.now
  }

  lemma HoldingPreserved(s: State, stale: int, step: Step, key: Key)
    requires Enabled(s, step) && ReadingsPast(s)
    requires Timely(s, key) && Exclusive(s, key) && HoldersOwnItem(s, key)
    requires NoFallThrough(Apply(s, stale, step), key)
    ensures Exclusive(Apply(s, stale, step), key) && HoldersOwnItem(Apply(s, stale, step), key)
  {
    var t := Apply(s, stale, step);
    match step
    case Put(c) =>
      assert forall d | Holds(t, d, key) && d != c :: Holds(s, d, key);
      assert Holds(t, c, key) ==> forall d :: !Holds(s, d, key);
    case Store(c) =>
      assert forall d | Holds(t, d, key) :: Holds(s, d, key) && d != c;
      assert Holds(s, c, key) ==> forall d :: !Holds(t, d, key);
    case Delete(c) =>
      assert forall d | Holds(t, d, key) :: Holds(s, d, key) && d != c;
      assert Holds(s, c, key) ==> forall d :: !Holds(t, d, key);
    case _ =>
      assert forall d | Holds(t, d, key) :: Holds(s, d, key) && t.clients[d].until == s.clients[d].until;
  }

  lemma {:induction false} ReadingsStayPast(stale: int, states: seq<State>, steps: seq<Step>, n: nat)
    requires IsRun(stale, states, steps) && n < |states|
    ensures ReadingsPast(states[n])
  {
    if n > 0 {
      ReadingsStayPast(stale, states, steps, n - 1);
      assert Enabled(states[n - 1], steps[n - 1]) && states[n] == Apply(states[n - 1], stale, steps[n - 1]);
    }
  }

  /** The step would tell its client NEW for `key`: a put that is allowed, or a final get that finds nothing. */
  predicate Admits(s: State, step: Step, key: Key)
    requires Enabled(s, step)
  {
    match step
    case Put(c) => s.clients[c].key == key && PutAllowed(s.table, key, s.clients[c].now)
    case Get(c) => s.clients[c].key == key && key !in s.table && MAX_RESERVE_ATTEMPTS <= s.clients[c].attempt
    case _ => false
  }

  ghost predicate Held(s: State, key: Key) {
    exists c :: Holds(s, c, key)
  }

  /** Exclusion goes exactly when a client is admitted while the key is held. */
  lemma LostWhenAdmitted(s: State, stale: int, step: Step, key: Key)
    requires Enabled(s, step) && Exclusive(s, key)
    ensures !Exclusive(Apply(s, stale, step), key) <==> Held(s, key) && Admits(s, step, key)
  {
    var t := Apply(s, stale, step);
    if Admits(s, step, key) {
      assert Holds(t, step.c, key) && !Holds(s, step.c, key);
      assert forall d | d != step.c :: Holds(t, d, key) <==> Holds(s, d, key);
    } else {
      assert forall d :: Holds(t, d, key) ==> Holds(s, d, key);
    }
  }

  /** What stands in the table for a holder: its own item, until that expires and is swept; nothing, if it
      fell through. */
  ghost predicate OwnedBy(s: State, h: ClientId, key: Key)
    requires Holds(s, h, key)
  {
    var holder := s.clients[h];
    if key in s.table then holder.wrote && s.table[key] == Item(holder.hash, Pending, holder.until)
    else holder.wrote ==> holder.until < s.now
  }

  ghost predicate Owned(s: State, key: Key) {
    forall h | Holds(s, h, key) :: OwnedBy(s, h, key)
  }

  /** A put on `key` although `h` holds it from an item of its own: the holder is overdue, and the put's clock
      reading is past its reservation or its item has been swept. */
  predicate PutsPastOverdue(s: State, step: Step, key: Key, h: ClientId) {
    && Enabled(s, step) && step.Put? && s.clients[step.c].key == key && Holds(s, h, key) && s.clients[h].wrote
    && s.clients[h].until < s.now && (key !in s.table || s.clients[h].until < s.clients[step.c].now)
  }

  /** A put on `key` although `h`, which fell through and so wrote no item, holds it. */
  predicate PutsPastFallThrough(s: State, step: Step, key: Key, h: ClientId) {
    && Enabled(s, step) && step.Put? && s.clients[step.c].key == key && Holds(s, h, key) && !s.clients[h].wrote
  }

  /** A second failed get on `key` although `h` holds it: the holder fell through, or is overdue and swept. */
  predicate FallsThroughPast(s: State, step: Step, key: Key, h: ClientId) {
    && Enabled(s, step) && step.Get? && s.clients[step.c].key == key && MAX_RESERVE_ATTEMPTS <= s.clients[step.c].attempt
    && Holds(s, h, key) && key !in s.table && (s.clients[h].wrote ==> s.clients[h].until < s.now)
  }

  ghost predicate OverduePut(s: State, step: Step, key: Key) {
    exists h :: PutsPastOverdue(s, step, key, h)
  }

  /** The steps that let a second client in. */
  ghost predicate Intrudes(s: State, step: Step, key: Key) {
    exists h :: PutsPastOverdue(s, step, key, h) || PutsPastFallThrough(s, step, key, h) || FallsThroughPast(s, step, key, h)
  }

  lemma IntrudesIffAdmitted(s: State, step: Step, key: Key)
    requires Enabled(s, step) && ReadingsPast(s) && Owned(s, key)
    ensures Intrudes(s, step, key) <==> Held(s, key) && Admits(s, step, key)
  {
    if Held(s, key) && Admits(s, step, key) {
      var h :| Holds(s, h, key);
      assert OwnedBy(s, h, key);
      assert PutsPastOverdue(s, step, key, h) || PutsPastFallThrough(s, step, key, h) || FallsThroughPast(s, step, key, h);
    }
    if Intrudes(s, step, key) {
      var h :| PutsPastOverdue(s, step, key, h) || PutsPastFallThrough(s, step, key, h) || FallsThroughPast(s, step, key, h);
      assert OwnedBy(s, h, key);
    }
  }

  /** One step loses exclusion if and only if it is such an intrusion; otherwise every holder keeps what it
      owns, however long it overstays. */
  lemma ExclusionLostIff(s: State, stale: int, step: Step, key: Key)
    requires Enabled(s, step) && ReadingsPast(s) && Exclusive(s, key) && Owned(s, key)
    ensures !Exclusive(Apply(s, stale, step), key) <==> Intrudes(s, step, key)
    ensures !Intrudes(s, step, key) ==> Owned(Apply(s, stale, step), key)
  {
    LostWhenAdmitted(s, stale, step, key);
    IntrudesIffAdmitted(s, step, key);
    if !(Held(s, key) && Admits(s, step, key)) {
      OwnershipKept(s, stale, step, key);
    }
  }

  lemma OwnershipKept(s: State, stale: int, step: Step, key: Key)
    requires Enabled(s, step) && Exclusive(s, key) && Owned(s, key) && !(Held(s, key) && Admits(s, step, key))
    ensures Owned(Apply(s, stale, step), key)
  {
    var t := Apply(s, stale, step);
    forall h | Holds(t, h, key) ensures OwnedBy(t, h, key) {
      if Holds(s, h, key) {
        assert OwnedBy(s, h, key);
        assert (step.Store? || step.Delete?) && s.clients[step.c].key == key ==> Holds(s, step.c, key);
      }
    }
  }

  ghost predicate AlwaysExclusive(states: seq<State>, key: Key, n: nat)
    requires n < |states|
  {
    forall i | 0 <= i <= n :: Exclusive(states[i], key)
  }

  ghost predicate NeverIntruded(states: seq<State>, steps: seq<Step>, key: Key, n: nat)
    requires n < |states| && n <= |steps|
  {
    forall i | 0 <= i < n :: !Intrudes(states[i], steps[i], key)
  }

  /** The exact condition for exclusion over a whole run, with no hypothesis on timing or fall-throughs: the
      first overlap on a key is a put past an overdue holder, or involves a fall-through. */
  lemma {:induction false} RunExclusiveIff(stale: int, states: seq<State>, steps: seq<Step>, key: Key, n: nat)
    requires IsRun(stale, states, steps) && n < |states|
    ensures AlwaysExclusive(states, key, n) <==> NeverIntruded(states, steps, key, n)
    ensures AlwaysExclusive(states, key, n) ==> Owned(states[n], key)
  {
    if n > 0 {
      RunExclusiveIff(stale, states, steps, key, n - 1);
      var s, step := states[n - 1], steps[n - 1];
      assert Enabled(s, step) && states[n] == Apply(s, stale, step);
      if AlwaysExclusive(states, key, n - 1) {
        ReadingsStayPast(stale, states, steps, n - 1);
        ExclusionLostIff(s, stale, step, key);
      }
      assert AlwaysExclusive(states, key, n) <==> AlwaysExclusive(states, key, n - 1) && Exclusive(states[n], key);
      assert NeverIntruded(states, steps, key, n) <==> NeverIntruded(states, steps, key, n - 1) && !Intrudes(s, step, key);
    }
  }

  lemma FallThroughShows(s: State, stale: int, step: Step, key: Key)
    requires Enabled(s, step)
    ensures step.Get? && Admits(s, step, key) ==> !NoFallThrough(Apply(s, stale, step), key)
  {
    if step.Get? && Admits(s, step, key) {
      var t := Apply(s, stale, step);
      assert Holds(t, step.c, key) && !t.clients[step.c].wrote;
    }
  }

  /** With no holder that fell through, before or after the step, an intrusion is an overdue put. */
  lemma IntrusionWithoutFallThrough(s: State, stale: int, step: Step, key: Key)
    requires Enabled(s, step) && NoFallThrough(s, key) && NoFallThrough(Apply(s, stale, step), key)
    ensures Intrudes(s, step, key) <==> OverduePut(s, step, key)
  {
    FallThroughShows(s, stale, step, key);
  }

  /** In runs whose holders never fell through, exclusion holds throughout if and only if no put ever got past
      an overdue holder: one whose reservation had run out, and whose item the put's reading is past or the
      table has swept. */
  lemma WritersExclusiveIff(stale: int, states: seq<State>, steps: seq<Step>, key: Key, n: nat)
    requires IsRun(stale, states, steps) && n < |states|
    requires forall i | 0 <= i <= n :: NoFallThrough(states[i], key)
    ensures AlwaysExclusive(states, key, n) <==> forall i | 0 <= i < n :: !OverduePut(states[i], steps[i], key)
  {
    RunExclusiveIff(stale, states, steps, key, n);
    forall i | 0 <= i < n ensures Intrudes(states[i], steps[i], key) <==> OverduePut(states[i], steps[i], key) {
      assert Enabled(states[i], steps[i]) && states[i + 1] == Apply(states[i], stale, steps[i]);
      assert NoFallThrough(states[i], key) && NoFallThrough(states[i + 1], key);
      IntrusionWithoutFallThrough(states[i], stale, steps[i], key);
    }
  }

  /** With timely holders and no fall-through, at most one client holds a key. */
  lemma {:induction false} AtMostOneHolder(stale: int, states: seq<State>, steps: seq<Step>, key: Key, n: nat)
    requires IsRun(stale, states, steps) && n < |states|
    requires forall i | 0 <= i < n :: Timely(states[i], key)
    requires forall i | 0 <= i <= n :: NoFallThrough(states[i], key)
    ensures Exclusive(states[n], key) && HoldersOwnItem(states[n], key)
  {
    if n > 0 {
      AtMostOneHolder(stale, states, steps, key, n - 1);
      ReadingsStayPast(stale, states, steps, n - 1);
      assert states[n] == Apply(states[n - 1], stale, steps[n - 1]) && NoFallThrough(states[n], key);
      HoldingPreserved(states[n - 1], stale, steps[n - 1], key);
    }
  }

  lemma {:induction false} ClockMonotone(stale: int, states: seq<State>, steps: seq<Step>, i: nat, n: nat)
    requires IsRun(stale, states, steps) && i <= n < |states|
    ensures states[i].now <= states[n].now
  {
    if i < n {
      ClockMonotone(stale, states, steps, i, n - 1);
      assert Enabled(states[n - 1], steps[n - 1]);
    }
  }

  /** After a caching completion at step `i` by the only holder nobody holds the key until the stored item expires:
      neither a put nor a fall-through can get past the item. */
  lemma {:induction false} StoredItemShields(stale: int, states: seq<State>, steps: seq<Step>, i: nat, n: nat)
    requires IsRun(stale, states, steps) && i < n < |states|
    requires Enabled(states[i], steps[i]) && steps[i].Store?
    requires Exclusive(states[i], states[i].clients[steps[i].c].key)
    requires states[n].now <= states[i].clients[steps[i].c].expiresAt
    ensures var client := states[i].clients[steps[i].c];
            && (forall c :: !Holds(states[n], c, client.key))
            && client.key in states[n].table
            && states[n].table[client.key] == Item(client.hash, Stored(client.result), client.expiresAt)
  {
    var key := states[i].clients[steps[i].c].key;
    if n == i + 1 {
      assert Holds(states[i], steps[i].c, key);
      assert !Holds(states[n], steps[i].c, key);
      assert forall c :: Holds(states[n], c, key) ==> Holds(states[i], c, key);
    } else {
      ClockMonotone(stale, states, steps, n - 1, n);
      StoredItemShields(stale, states, steps, i, n - 1);
      ReadingsStayPast(stale, states, steps, n - 1);
      var s, step := states[n - 1], steps[n - 1];
      assert Enabled(s, step) && states[n] == Apply(s, stale, step);
      if step.Store? || step.Delete? {
        assert !Holds(s, step.c, key);
      }
      forall c ensures !Holds(states[n], c, key) {
        assert !Holds(s, c, key);
      }
    }
  }

  // ---- The fall-through ----

  ghost predicate Present(states: seq<State>, i: int, key: Key) {
    0 <= i < |states| && key in states[i].table
  }

  ghost predicate Absent(states: seq<State>, i: int, key: Key) {
    0 <= i < |states| && key !in states[i].table
  }

  /** Step `i` removes the item of `key`. */
  ghost predicate Removes(states: seq<State>, i: int, key: Key) {
    Present(states, i, key) && Absent(states, i + 1, key)
  }

  /** Step `i` creates an item for `key`. */
  ghost predicate Creates(states: seq<State>, i: int, key: Key) {
    Absent(states, i, key) && Present(states, i + 1, key)
  }

  lemma {:induction false} RemovalBetween(states: seq<State>, i: nat, n: nat, key: Key) returns (d: nat)
    requires i < n && Present(states, i, key) && Absent(states, n, key)
    ensures i <= d < n && Removes(states, d, key)
    decreases n
  {
    if Present(states, n - 1, key) {
      d := n - 1;
    } else {
      d := RemovalBetween(states, i, n - 1, key);
    }
  }

  lemma {:induction false} CreationBetween(states: seq<State>, i: nat, n: nat, key: Key) returns (d: nat)
    requires i < n && Absent(states, i, key) && Present(states, n, key)
    ensures i <= d < n && Creates(states, d, key)
    decreases n
  {
    if Absent(states, n - 1, key) {
      d := n - 1;
    } else {
      d := CreationBetween(states, i, n - 1, key);
    }
  }

  /** Client `c` is executing `reserve` in state `i`. */
  ghost predicate Reserving(states: seq<State>, i: int, c: ClientId) {
    && 0 <= i < |states| && c in states[i].clients
    && (states[i].clients[c].Reading? || states[i].clients[c].Putting? || states[i].clients[c].Getting?)
  }

  /** How one step can leave a client inside `reserve`. */
  ghost predicate ReserveStep(s: State, t: State, c: ClientId)
    requires c in s.clients && c in t.clients
  {
    var before, after := s.clients[c], t.clients[c];
    || after == before
    || (before.Reading? && after == Putting(before.key, before.hash, before.attempt, s.now))
    || (before.Putting? && before.key in s.table && after == Getting(before.key, before.hash, before.attempt))
    || (before.Getting? && before.attempt < MAX_RESERVE_ATTEMPTS && before.key !in s.table &&
        after == Reading(before.key, before.hash, before.attempt + 1))
  }

  lemma ReserveProgress(stale: int, states: seq<State>, steps: seq<Step>, n: nat, c: ClientId)
    requires IsRun(stale, states, steps) && n < |steps| && Reserving(states, n + 1, c)
    ensures if Reserving(states, n, c) then ReserveStep(states[n], states[n + 1], c)
            else states[n + 1].clients[c].Reading? && states[n + 1].clients[c].attempt == 1
  {
    assert Enabled(states[n], steps[n]) && states[n + 1] == Apply(states[n], stale, steps[n]);
  }

  /** The first put of a reserving client that got past it saw an item. */
  lemma {:induction false} FirstPutSaw(stale: int, states: seq<State>, steps: seq<Step>, n: nat, c: ClientId) returns (i: nat)
    requires IsRun(stale, states, steps) && Reserving(states, n, c)
    requires states[n].clients[c].Getting? || states[n].clients[c].attempt != 1
    ensures i < n && Reserving(states, i, c) && Present(states, i, states[n].clients[c].key)
  {
    ReserveProgress(stale, states, steps, n - 1, c);
    var before := states[n - 1].clients[c];
    if before.Getting? || before.attempt != 1 {
      i := FirstPutSaw(stale, states, steps, n - 1, c);
    } else {
      i := n - 1;
    }
  }

  /** The get before a second attempt saw none. */
  lemma {:induction false} FirstGetSaw(stale: int, states: seq<State>, steps: seq<Step>, n: nat, c: ClientId)
    returns (i: nat, j: nat)
    requires IsRun(stale, states, steps) && Reserving(states, n, c) && states[n].clients[c].attempt != 1
    ensures states[n].clients[c].attempt == 2
    ensures i < j < n && Reserving(states, i, c)
    ensures Present(states, i, states[n].clients[c].key) && Absent(states, j, states[n].clients[c].key)
  {
    ReserveProgress(stale, states, steps, n - 1, c);
    if states[n - 1].clients[c].attempt != 1 {
      i, j := FirstGetSaw(stale, states, steps, n - 1, c);
    } else {
      j := n - 1;
      i := FirstPutSaw(stale, states, steps, j, c);
    }
  }

  /** The second put saw one again. */
  lemma {:induction false} SecondPutSaw(stale: int, states: seq<State>, steps: seq<Step>, n: nat, c: ClientId)
    returns (i: nat, j: nat, k: nat)
    requires IsRun(stale, states, steps) && Reserving(states, n, c)
    requires states[n].clients[c].Getting? && states[n].clients[c].attempt != 1
    ensures i < j < k < n && Reserving(states, i, c) && Present(states, i, states[n].clients[c].key)
    ensures Absent(states, j, states[n].clients[c].key) && Present(states, k, states[n].clients[c].key)
  {
    ReserveProgress(stale, states, steps, n - 1, c);
    if states[n - 1].clients[c].Getting? {
      i, j, k := SecondPutSaw(stale, states, steps, n - 1, c);
    } else {
      k := n - 1;
      i, j := FirstGetSaw(stale, states, steps, k, c);
    }
  }

  /** A fall-through needs, within that one call, two removals of the key with a re-creation
      between them. */
  lemma FallThroughNeedsChurn(stale: int, states: seq<State>, steps: seq<Step>, n: nat, c: ClientId)
    returns (start: nat, removed: nat, created: nat, removedAgain: nat)
    requires IsRun(stale, states, steps) && n < |steps| && steps[n] == Get(c)
    requires c in states[n].clients && states[n].clients[c].Getting?
    requires states[n].clients[c].attempt == MAX_RESERVE_ATTEMPTS
    requires states[n].clients[c].key !in states[n].table
    ensures start <= removed < created < removedAgain < n && Reserving(states, start, c)
    ensures Removes(states, removed, states[n].clients[c].key)
    ensures Creates(states, created, states[n].clients[c].key)
    ensures Removes(states, removedAgain, states[n].clients[c].key)
  {
    var key := states[n].clients[c].key;
    var i, j, k := SecondPutSaw(stale, states, steps, n, c);
    start := i;
    removed := RemovalBetween(states, i, j, key);
    created := CreationBetween(states, j, k, key);
    removedAgain := RemovalBetween(states, k, n, key);
  }
}
