/** Runs of the remote store that break its promises: neither hypothesis of
    `DynamoProtocol.AtMostOneHolder` can be dropped, and a replay can outlive its retention. */
module DynamoCounterexamples {
  import opened Domain
  import MemoryStore
  import opened DynamoStore
  import opened DynamoProtocol

  /** A run in which every holder of `key` is timely throughout, and that ends in `last`. */
  ghost predicate Reaches(stale: int, key: Key, states: seq<State>, steps: seq<Step>, last: State) {
    && IsRun(stale, states, steps) && states[|steps|] == last
    && forall i | 0 <= i < |states| :: Timely(states[i], key)
  }

  /** Some run reaches the state. */
  ghost predicate Reachable(stale: int, key: Key, s: State) {
    exists states, steps :: Reaches(stale, key, states, steps, s)
  }

  lemma InitiallyReachable(stale: int, key: Key, now: int)
    ensures Reachable(stale, key, State(now, map[], map[]))
  {
    assert Reaches(stale, key, [State(now, map[], map[])], [], State(now, map[], map[]));
  }

  lemma Advance(stale: int, key: Key, s: State, step: Step)
    requires Reachable(stale, key, s) && Enabled(s, step) && Timely(Apply(s, stale, step), key)
    ensures Reachable(stale, key, Apply(s, stale, step))
  {
    var states, steps :| Reaches(stale, key, states, steps, s);
    assert Reaches(stale, key, states + [Apply(s, stale, step)], steps + [step], Apply(s, stale, step));
  }

  /** A client still reserving, or finished, never makes a state untimely. */
  lemma QuietStep(stale: int, key: Key, s: State, step: Step)
    requires Reachable(stale, key, s) && Enabled(s, step) && Timely(s, key) && 0 <= stale
    requires step.Begin? || step.ReadClock? || step.Delete? || step.Get? || (step.Put? && s.clients[step.c].now == s.now)
    ensures Reachable(stale, key, Apply(s, stale, step)) && Timely(Apply(s, stale, step), key)
  {
    Advance(stale, key, s, step);
  }

  /** A fresh client reserves an absent key. */
  lemma Enter(stale: int, key: Key, hash: string, s: State, c: ClientId) returns (t: State)
    requires Reachable(stale, key, s) && Timely(s, key) && 0 <= stale && c !in s.clients && key !in s.table
    ensures Reachable(stale, key, t) && Timely(t, key) && t.now == s.now
    ensures t.table == s.table[key := Item(hash, Pending, s.now + stale)]
    ensures t.clients == s.clients[c := Invoking(key, hash, s.now + stale, true)]
  {
    QuietStep(stale, key, s, Begin(c, key, hash));
    t := Apply(s, stale, Begin(c, key, hash));
    QuietStep(stale, key, t, ReadClock(c));
    t := Apply(t, stale, ReadClock(c));
    QuietStep(stale, key, t, Put(c));
    t := Apply(t, stale, Put(c));
  }

  /** A reserving client's put misses because the key is held, and the holder then leaves before the get. */
  lemma MissThenVacate(stale: int, key: Key, hash: string, s: State, c: ClientId, holder: ClientId, attempt: nat)
    returns (t: State)
    requires Reachable(stale, key, s) && Timely(s, key) && 0 <= stale && c in s.clients && c != holder
    requires s.clients[c] == Reading(key, hash, attempt) && Holds(s, holder, key) && s.clients[holder].Invoking?
    requires key in s.table && s.now <= s.table[key].expiresAt
    ensures Reachable(stale, key, t) && Timely(t, key) && t.now == s.now && t.table == s.table - {key}
    ensures t.clients.Keys == s.clients.Keys && t.clients[c] == Getting(key, hash, attempt)
  {
    QuietStep(stale, key, s, ReadClock(c));
    t := Apply(s, stale, ReadClock(c));
    QuietStep(stale, key, t, Put(c));
    t := Apply(t, stale, Put(c));
    QuietStep(stale, key, t, Delete(holder));
    t := Apply(t, stale, Delete(holder));
  }

  /** A client whose `reserve` met two other requests that were released, each between its put and its get. */
  lemma FallThroughReachable(stale: int, key: Key, hash: string, now: int) returns (s: State)
    requires 0 <= stale
    ensures Reachable(stale, key, s) && Timely(s, key)
    ensures s.clients.Keys == {0, 1, 2} && s.clients[0] == Getting(key, hash, MAX_RESERVE_ATTEMPTS) && key !in s.table
  {
    s := State(now, map[], map[]);
    InitiallyReachable(stale, key, now);
    s := Enter(stale, key, hash, s, 1);
    QuietStep(stale, key, s, Begin(0, key, hash));
    s := Apply(s, stale, Begin(0, key, hash));
    s := MissThenVacate(stale, key, hash, s, 0, 1, 1);
    QuietStep(stale, key, s, Get(0));
    s := Apply(s, stale, Get(0));
    s := Enter(stale, key, hash, s, 2);
    s := MissThenVacate(stale, key, hash, s, 0, 2, 2);
  }

  /** Two clients hold one key at once, in a run whose holders were all timely. */
  lemma TimelyRunWithTwoHolders(stale: int, key: Key, hash: string, now: int) returns (s: State)
    requires 0 <= stale
    ensures Reachable(stale, key, s) && Timely(s, key) && !Exclusive(s, key) && !NoFallThrough(s, key)
  {
    s := FallThroughReachable(stale, key, hash, now);
    QuietStep(stale, key, s, Get(0));
    s := Apply(s, stale, Get(0));
    s := Enter(stale, key, hash, s, 3);
    assert Holds(s, 0, key) && Holds(s, 3, key);
  }

  // ---- Untimely runs ----

  /** Some run reaches the state, timely or not. */
  ghost predicate Reached(stale: int, s: State) {
    exists states, steps :: IsRun(stale, states, steps) && states[|steps|] == s
  }

  lemma Forget(stale: int, key: Key, s: State)
    requires Reachable(stale, key, s)
    ensures Reached(stale, s)
  {
    var states, steps :| Reaches(stale, key, states, steps, s);
    assert IsRun(stale, states, steps) && states[|steps|] == s;
  }

  lemma Follow(stale: int, s: State, step: Step)
    requires Reached(stale, s) && Enabled(s, step)
    ensures Reached(stale, Apply(s, stale, step))
  {
    var states, steps :| IsRun(stale, states, steps) && states[|steps|] == s;
    var t := Apply(s, stale, step);
    assert IsRun(stale, states + [t], steps + [step]) && (states + [t])[|steps + [step]|] == t;
  }

  /** Two clients that both wrote their items hold one key, the first of them overdue. */
  lemma OverdueRunWithTwoHolders(stale: int, key: Key, hash: string, now: int) returns (s: State)
    requires 0 <= stale
    ensures Reached(stale, s) && NoFallThrough(s, key) && !Exclusive(s, key)
  {
    InitiallyReachable(stale, key, now);
    s := Enter(stale, key, hash, State(now, map[], map[]), 0);
    Forget(stale, key, s);
    Follow(stale, s, Tick(now + stale + 1));
    s := Apply(s, stale, Tick(now + stale + 1));
    Follow(stale, s, Begin(1, key, hash));
    s := Apply(s, stale, Begin(1, key, hash));
    Follow(stale, s, ReadClock(1));
    s := Apply(s, stale, ReadClock(1));
    Follow(stale, s, Put(1));
    s := Apply(s, stale, Put(1));
    assert Holds(s, 0, key) && Holds(s, 1, key);
  }

  /** One client holds the key, another is about to put with a reading taken at the same moment. */
  lemma ReaderWaits(stale: int, key: Key, hash: string, now: int) returns (s: State)
    requires 0 <= stale
    ensures Reached(stale, s) && s.now == now && s.table == map[key := Item(hash, Pending, now + stale)]
    ensures s.clients == map[0 := Invoking(key, hash, now + stale, true), 1 := Putting(key, hash, 1, now)]
  {
    InitiallyReachable(stale, key, now);
    s := Enter(stale, key, hash, State(now, map[], map[]), 0);
    Forget(stale, key, s);
    Follow(stale, s, Begin(1, key, hash));
    s := Apply(s, stale, Begin(1, key, hash));
    Follow(stale, s, ReadClock(1));
    s := Apply(s, stale, ReadClock(1));
  }

  /** The same through the table's own sweep, with a clock reading inside the first holder's reservation. */
  lemma SweptRunWithTwoHolders(stale: int, key: Key, hash: string, now: int) returns (s: State)
    requires 0 <= stale
    ensures Reached(stale, s) && NoFallThrough(s, key) && !Exclusive(s, key)
    ensures Holds(s, 0, key) && Holds(s, 1, key) && s.clients[1].until == now + stale <= s.clients[0].until
  {
    s := ReaderWaits(stale, key, hash, now);
    Follow(stale, s, Tick(now + stale + 1));
    s := Apply(s, stale, Tick(now + stale + 1));
    Follow(stale, s, Expire(key));
    s := Apply(s, stale, Expire(key));
    Follow(stale, s, Put(1));
    s := Apply(s, stale, Put(1));
    assert Holds(s, 0, key) && Holds(s, 1, key);
  }

  /** A client stores its result for a key it entered. */
  lemma StoreResult(stale: int, key: Key, hash: string, now: int, result: InferenceResult, retention: int) returns (s: State)
    requires 0 <= stale
    ensures Reached(stale, s) && s.now == now && s.clients.Keys == {0}
    ensures key in s.table && s.table[key] == Item(hash, Stored(result), now + retention)
  {
    InitiallyReachable(stale, key, now);
    s := Enter(stale, key, hash, State(now, map[], map[]), 0);
    Forget(stale, key, s);
    Follow(stale, s, ReadExpiry(0, result, retention));
    s := Apply(s, stale, ReadExpiry(0, result, retention));
    Follow(stale, s, Store(0));
    s := Apply(s, stale, Store(0));
  }

  /** A fresh client's put is refused by an unexpired item. */
  lemma Refuse(stale: int, key: Key, hash: string, s: State, c: ClientId) returns (t: State)
    requires Reached(stale, s) && c !in s.clients && key in s.table && s.now <= s.table[key].expiresAt
    ensures Reached(stale, t) && t == s.(clients := s.clients[c := Getting(key, hash, 1)])
  {
    Follow(stale, s, Begin(c, key, hash));
    t := Apply(s, stale, Begin(c, key, hash));
    Follow(stale, t, ReadClock(c));
    t := Apply(t, stale, ReadClock(c));
    Follow(stale, t, Put(c));
    t := Apply(t, stale, Put(c));
  }

  /** A get that replays a stored result after its retention has passed. */
  lemma ReplayAfterRetention(stale: int, key: Key, hash: string, now: int, result: InferenceResult, retention: int)
    returns (s: State)
    requires 0 <= stale && 0 <= retention
    ensures Reached(stale, s) && Enabled(s, Get(1)) && key in s.table && s.table[key].expiresAt < s.now
    ensures Apply(s, stale, Get(1)).clients[1] == Finished(MemoryStore.Completed(Some(result)))
  {
    s := StoreResult(stale, key, hash, now, result, retention);
    s := Refuse(stale, key, hash, s, 1);
    Follow(stale, s, Tick(now + retention + 1));
    s := Apply(s, stale, Tick(now + retention + 1));
  }

  /** The other way: a storing put that lands after the reader's put was refused, and after its own expiry. */
  lemma ReplayOfDelayedStore(stale: int, key: Key, hash: string, now: int, result: InferenceResult, retention: int)
    returns (s: State)
    requires 0 <= stale && 0 <= retention
    ensures Reached(stale, s) && Enabled(s, Get(1)) && key in s.table && s.table[key].expiresAt < s.now
    ensures Apply(s, stale, Get(1)).clients[1] == Finished(MemoryStore.Completed(Some(result)))
  {
    InitiallyReachable(stale, key, now);
    s := Enter(stale, key, hash, State(now, map[], map[]), 0);
    Forget(stale, key, s);
    Follow(stale, s, ReadExpiry(0, result, retention));
    s := Apply(s, stale, ReadExpiry(0, result, retention));
    s := Refuse(stale, key, hash, s, 1);
    Follow(stale, s, Tick(now + retention + 1));
    s := Apply(s, stale, Tick(now + retention + 1));
    Follow(stale, s, Store(0));
    s := Apply(s, stale, Store(0));
  }
}
