/** Replay integrity over the remote table. */
module DynamoReplay {
  import opened Domain
  import MemoryStore
  import opened DynamoStore
  import opened DynamoProtocol

  /** Step `i` fixed the expiry of `result` for (`key`, `hash`), some later step stored it. */
  ghost predicate ExpiryReadAt(states: seq<State>, steps: seq<Step>, i: int, c: ClientId, key: Key, hash: string,
                               result: InferenceResult, expiresAt: int)
    requires |states| == |steps| + 1
  {
    && 0 <= i < |steps| && steps[i].ReadExpiry? && steps[i].c == c && steps[i].result == result
    && Holds(states[i], c, key) && states[i].clients[c].hash == hash && expiresAt == states[i].now + steps[i].retention
  }

  /** A client about to store has read the clock for that very result. */
  lemma {:induction false} StoringHasOrigin(stale: int, states: seq<State>, steps: seq<Step>, n: nat, c: ClientId) returns (i: nat)
    requires IsRun(stale, states, steps) && n < |states| && c in states[n].clients && states[n].clients[c].Storing?
    ensures i < n && var client := states[n].clients[c];
                     ExpiryReadAt(states, steps, i, c, client.key, client.hash, client.result, client.expiresAt)
  {
    assert n > 0;
    var s, step := states[n - 1], steps[n - 1];
    assert Enabled(s, step) && states[n] == Apply(s, stale, step);
    if c in s.clients && s.clients[c].Storing? {
      i := StoringHasOrigin(stale, states, steps, n - 1, c);
    } else {
      i := n - 1;
    }
  }

  /** Step `j` is the storing put of `c` for (`key`, `hash`). */
  ghost predicate StoredAt(states: seq<State>, steps: seq<Step>, j: int, c: ClientId, key: Key, hash: string)
    requires |states| == |steps| + 1
  {
    && 0 <= j < |steps| && steps[j] == Store(c) && Holds(states[j], c, key) && states[j].clients[c].hash == hash
  }

  /** Every stored item was written by a storing put, whose client had fixed its result and expiry before. */
  lemma {:induction false} StoredItemsHaveOrigin(stale: int, states: seq<State>, steps: seq<Step>, n: nat, key: Key)
    returns (i: nat, j: nat, c: ClientId)
    requires IsRun(stale, states, steps) && n < |states| && key in states[n].table && states[n].table[key].status.Stored?
    ensures i < j < n && var item := states[n].table[key];
                         && StoredAt(states, steps, j, c, key, item.requestHash)
                         && ExpiryReadAt(states, steps, i, c, key, item.requestHash, item.status.result, item.expiresAt)
                         && forall x | j < x <= n :: key in states[x].table && states[x].table[key] == item
  {
    assert n > 0;
    var s, step := states[n - 1], steps[n - 1];
    assert Enabled(s, step) && states[n] == Apply(s, stale, step);
    if key in s.table && s.table[key] == states[n].table[key] {
      i, j, c := StoredItemsHaveOrigin(stale, states, steps, n - 1, key);
    } else {
      assert step.Store? && s.clients[step.c].key == key;
      j, c := n - 1, step.c;
      i := StoringHasOrigin(stale, states, steps, n - 1, c);
    }
  }

  /** Step `m` is a put of `c` that met `item` and was refused. */
  ghost predicate RefusedAt(states: seq<State>, steps: seq<Step>, m: int, c: ClientId, key: Key)
    requires |states| == |steps| + 1
  {
    && 0 <= m < |steps| && steps[m] == Put(c) && c in states[m].clients && states[m].clients[c].Putting?
    && states[m].clients[c].key == key && !PutAllowed(states[m].table, key, states[m].clients[c].now)
  }

  /** A client about to get has just been refused. */
  lemma {:induction false} GettingWasRefused(stale: int, states: seq<State>, steps: seq<Step>, n: nat, c: ClientId) returns (m: nat)
    requires IsRun(stale, states, steps) && n < |states| && c in states[n].clients && states[n].clients[c].Getting?
    ensures m < n && RefusedAt(states, steps, m, c, states[n].clients[c].key) && forall x | m < x < n :: steps[x] != Put(c)
  {
    assert n > 0;
    var s, step := states[n - 1], steps[n - 1];
    assert Enabled(s, step) && states[n] == Apply(s, stale, step);
    if c in s.clients && s.clients[c].Getting? {
      m := GettingWasRefused(stale, states, steps, n - 1, c);
    } else {
      m := n - 1;
    }
  }

  /** What a get that finds an item tells its client, over the item's own fields: a different request under the
      key, the same one still pending, or the same one's stored result. */
  lemma GetAnswers(stale: int, states: seq<State>, steps: seq<Step>, n: nat, c: ClientId)
    requires IsRun(stale, states, steps) && n < |steps| && steps[n] == Get(c)
    requires c in states[n].clients && states[n].clients[c].Getting? && states[n].clients[c].key in states[n].table
    ensures c in states[n + 1].clients && states[n + 1].table == states[n].table
    ensures var client, after := states[n].clients[c], states[n + 1].clients[c];
            var item := states[n].table[client.key];
            && (after == Finished(MemoryStore.Conflict) <==> item.requestHash != client.hash)
            && (after == Finished(MemoryStore.InProgress) <==> item.requestHash == client.hash && item.status == Pending)
            && (item.requestHash == client.hash && item.status.Stored? ==>
                  after == Finished(MemoryStore.Completed(Some(item.status.result))))
  {
    assert states[n + 1] == Apply(states[n], stale, steps[n]);
  }

  /** And one that finds none: another attempt while one is left, NEW otherwise. */
  lemma GetFindsNothing(stale: int, states: seq<State>, steps: seq<Step>, n: nat, c: ClientId)
    requires IsRun(stale, states, steps) && n < |steps| && steps[n] == Get(c)
    requires c in states[n].clients && states[n].clients[c].Getting? && states[n].clients[c].key !in states[n].table
    ensures c in states[n + 1].clients && states[n + 1].table == states[n].table
    ensures var client, after := states[n].clients[c], states[n + 1].clients[c];
            if client.attempt < 2 then after == Reading(client.key, client.hash, client.attempt + 1)
            else after == Invoking(client.key, client.hash, states[n].now + stale, false)
  {
    assert states[n + 1] == Apply(states[n], stale, steps[n]);
  }

  /** A get answers its client COMPLETED. */
  predicate Replays(s: State, step: Step) {
    && Enabled(s, step) && step.Get? && s.clients[step.c].key in s.table
    && Classify(s.table[s.clients[step.c].key], s.clients[step.c].hash).Completed?
  }

  /** Replay integrity, with no timing hypothesis: a COMPLETED reply carries the result that an earlier
      completion (`i` its clock reading, `j` its storing put) of the same key and hash stored; it is within
      the retention exactly while a put would still be refused. */
  lemma CompletedRepliesReplayFaithfully(stale: int, states: seq<State>, steps: seq<Step>, n: nat)
    returns (i: nat, j: nat, c: ClientId)
    requires IsRun(stale, states, steps) && n < |steps| && Replays(states[n], steps[n])
    ensures var client := states[n].clients[steps[n].c];
            var item := states[n].table[client.key];
            && item.status.Stored?
            && Apply(states[n], stale, steps[n]).clients[steps[n].c] == Finished(MemoryStore.Completed(Some(item.status.result)))
            && i < j < n && StoredAt(states, steps, j, c, client.key, client.hash)
            && ExpiryReadAt(states, steps, i, c, client.key, client.hash, item.status.result, item.expiresAt)
            && (forall x | j < x <= n :: client.key in states[x].table && states[x].table[client.key] == item)
            && states[i].now <= states[n].now
            && (states[n].now <= states[i].now + steps[i].retention <==> !PutAllowed(states[n].table, client.key, states[n].now))
  {
    i, j, c := StoredItemsHaveOrigin(stale, states, steps, n, states[n].clients[steps[n].c].key);
    ClockMonotone(stale, states, steps, i, n);
  }

  /** What makes a stale reply possible, since the get ignores the expiry: past its retention, a reply was
      either still within it at the reserving client's own clock reading (`m` is its last put, refused), or was stored
      only after that put was refused. Without a delayed put and with the clock still at the client's reading,
      every reply is within its retention. */
  lemma StaleReplyHasCause(stale: int, states: seq<State>, steps: seq<Step>, n: nat) returns (i: nat, j: nat, c: ClientId, m: nat)
    requires IsRun(stale, states, steps) && n < |steps| && Replays(states[n], steps[n])
    ensures var reader := steps[n].c;
            var client := states[n].clients[reader];
            && i < j < n && m < n && StoredAt(states, steps, j, c, client.key, client.hash)
            && RefusedAt(states, steps, m, reader, client.key) && (forall x | m < x < n :: steps[x] != Put(reader))
            && ExpiryReadAt(states, steps, i, c, client.key, client.hash,
                            states[n].table[client.key].status.result, states[n].table[client.key].expiresAt)
            && (m < j || states[m].clients[reader].now <= states[i].now + steps[i].retention)
  {
    i, j, c := CompletedRepliesReplayFaithfully(stale, states, steps, n);
    m := GettingWasRefused(stale, states, steps, n, steps[n].c);
    if j < m {
      assert states[m].table[states[n].clients[steps[n].c].key] == states[n].table[states[n].clients[steps[n].c].key];
    }
  }
}
