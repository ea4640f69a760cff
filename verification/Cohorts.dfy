/** Weighted experiment cohorts (src/domain/experiment.py), in exact arithmetic over every
    32-bit hash prefix. */
module Cohorts {
  import opened Domain
  import CostEstimation

  /** The largest hash prefix; the source divides by it. */
  const HASH_SPACE: nat := 0xFFFF_FFFF

  function Cumulative(arms: seq<Arm>, i: nat): int
    requires i <= |arms|
  {
    if i == 0 then 0 else Cumulative(arms, i - 1) + arms[i - 1].weight
  }

  function TotalWeight(arms: seq<Arm>): int { Cumulative(arms, |arms|) }

  lemma {:induction false} CumulativeIncreases(arms: seq<Arm>, i: nat, j: nat)
    requires forall k | 0 <= k < |arms| :: 0 < arms[k].weight
    requires i <= j <= |arms|
    ensures 0 <= Cumulative(arms, i) <= Cumulative(arms, j)
    ensures i < j ==> Cumulative(arms, i) < Cumulative(arms, j)
  {
    if i < j {
      CumulativeIncreases(arms, i, j - 1);
    } else if 0 < i {
      CumulativeIncreases(arms, 0, i - 1);
    }
  }

  /** The first hash prefix of arm `i`: the least one not below its cumulative share. */
  function Start(arms: seq<Arm>, i: nat): int
    requires Experiment(arms).Valid() && i <= |arms|
  {
    CumulativeIncreases(arms, 0, |arms|);
    if i == |arms| then HASH_SPACE + 1
    else (Cumulative(arms, i) * HASH_SPACE + TotalWeight(arms) - 1) / TotalWeight(arms)
  }

  /** Arm `i` owns the hash prefixes from its start up to the next arm's start. */
  predicate Owns(arms: seq<Arm>, i: nat, hash: nat)
    requires Experiment(arms).Valid() && i < |arms|
  {
    Start(arms, i) <= hash < Start(arms, i + 1)
  }

  lemma ProductMonotone(x: int, y: int, w: nat)
    requires x <= y
    ensures x * w <= y * w
  {
    assert 0 <= (y - x) * w == y * w - x * w;
  }

  lemma CeilingThreshold(h: nat, a: nat, w: nat)
    requires 0 < w
    ensures (a + w - 1) / w <= h <==> a <= h * w
  {
    CostEstimation.CeilingDivision(a, w);
    var q := (a + w - 1) / w;
    if q <= h {
      ProductMonotone(q, h, w);
    } else {
      ProductMonotone(h, q - 1, w);
    }
  }

  /** Being at or past an inner start is the source's threshold comparison. */
  lemma StartIsThreshold(arms: seq<Arm>, i: nat, hash: nat)
    requires Experiment(arms).Valid() && i < |arms|
    ensures Start(arms, i) <= hash <==> Cumulative(arms, i) * HASH_SPACE <= hash * TotalWeight(arms)
  {
    CumulativeIncreases(arms, 0, i);
    CumulativeIncreases(arms, 0, |arms|);
    CeilingThreshold(hash, Cumulative(arms, i) * HASH_SPACE, TotalWeight(arms));
  }

  lemma FirstStartsAtZero(arms: seq<Arm>)
    requires Experiment(arms).Valid()
    ensures Start(arms, 0) == 0
  {
    CumulativeIncreases(arms, 0, |arms|);
    CostEstimation.CeilingDivision(0, TotalWeight(arms));
  }

  /** The assignment loop finds the one arm that owns the prefix. */
  method AssignCohort(arms: seq<Arm>, hash: nat) returns (i: nat)
    requires Experiment(arms).Valid() && hash <= HASH_SPACE
    ensures i < |arms| && Owns(arms, i, hash) && i == CohortOf(arms, hash)
  {
    var total := 0;
    for k := 0 to |arms|
      invariant total == Cumulative(arms, k)
    {
      total := total + arms[k].weight;
    }
    var cumulative := 0;
    i := 0;
    FirstStartsAtZero(arms);
    while i < |arms|
      invariant i <= |arms| && cumulative == Cumulative(arms, i)
      invariant i < |arms| ==> Start(arms, i) <= hash
      invariant i == |arms| ==> Start(arms, |arms| - 1) <= hash
    {
      StartIsThreshold(arms, i, hash);
      cumulative := cumulative + arms[i].weight;
      if hash * total < cumulative * HASH_SPACE {
        if i + 1 < |arms| { StartIsThreshold(arms, i + 1, hash); }
        IntervalsPartition(arms, hash, i, CohortOf(arms, hash));
        return;
      }
      if i + 1 < |arms| { StartIsThreshold(arms, i + 1, hash); }
      i := i + 1;
    }
    i := |arms| - 1;
    IntervalsPartition(arms, hash, i, CohortOf(arms, hash));
  }

  function OwnerFrom(arms: seq<Arm>, i: nat, hash: nat): (r: nat)
    requires Experiment(arms).Valid() && i < |arms| && Start(arms, i) <= hash <= HASH_SPACE
    ensures r < |arms| && Owns(arms, r, hash)
    decreases |arms| - i
  {
    if hash < Start(arms, i + 1) then i else OwnerFrom(arms, i + 1, hash)
  }

  /** The arm a prefix belongs to; total, since the intervals cover the space. */
  function CohortOf(arms: seq<Arm>, hash: nat): (r: nat)
    requires Experiment(arms).Valid() && hash <= HASH_SPACE
    ensures r < |arms| && Owns(arms, r, hash)
  {
    FirstStartsAtZero(arms);
    OwnerFrom(arms, 0, hash)
  }

  lemma StartsOrdered(arms: seq<Arm>, i: nat, j: nat)
    requires Experiment(arms).Valid() && i <= j <= |arms|
    ensures 0 <= Start(arms, i) <= Start(arms, j)
  {
    CumulativeIncreases(arms, 0, i);
    CumulativeIncreases(arms, i, j);
    if j < |arms| {
      var w, h := TotalWeight(arms), Start(arms, j);
      CumulativeIncreases(arms, 0, |arms|);
      CostEstimation.CeilingDivision(Cumulative(arms, j) * HASH_SPACE, w);
      StartIsThreshold(arms, j, h);
      StartIsThreshold(arms, i, h);
    } else if i < |arms| {
      CumulativeIncreases(arms, i, |arms|);
      assert Cumulative(arms, i) * HASH_SPACE <= HASH_SPACE * TotalWeight(arms);
      StartIsThreshold(arms, i, HASH_SPACE);
    }
  }

  /** The arms' intervals partition the space of prefixes: every prefix has exactly one owner. */
  lemma IntervalsPartition(arms: seq<Arm>, hash: nat, i: nat, j: nat)
    requires Experiment(arms).Valid() && hash <= HASH_SPACE
    requires i < |arms| && j < |arms| && Owns(arms, i, hash) && Owns(arms, j, hash)
    ensures i == j && Start(arms, 0) == 0 && Start(arms, |arms|) == HASH_SPACE + 1
  {
    if i < j { StartsOrdered(arms, i + 1, j); }
    if j < i { StartsOrdered(arms, j + 1, i); }
    FirstStartsAtZero(arms);
  }

  /** Proportionality: an arm's share of the prefixes is within one of
      `weight * (2^32 - 1) / total`, end point included. */
  lemma SharesProportional(arms: seq<Arm>, i: nat)
    requires Experiment(arms).Valid() && i < |arms|
    ensures var size, w := Start(arms, i + 1) - Start(arms, i), TotalWeight(arms);
            -w <= size * w - arms[i].weight * HASH_SPACE <= w
  {
    var w := TotalWeight(arms);
    CumulativeIncreases(arms, 0, i);
    CumulativeIncreases(arms, 0, i + 1);
    CumulativeIncreases(arms, 0, |arms|);
    var a, b := Cumulative(arms, i) * HASH_SPACE, Cumulative(arms, i + 1) * HASH_SPACE;
    var s, t := Start(arms, i), Start(arms, i + 1);
    assert b - a == arms[i].weight * HASH_SPACE;
    CostEstimation.CeilingDivision(a, w);
    assert a <= s * w < a + w by { assert (s - 1) * w == s * w - w; }
    assert b <= t * w <= b + w by {
      if i + 1 < |arms| {
        CostEstimation.CeilingDivision(b, w);
        assert (t - 1) * w == t * w - w;
      } else {
        assert t * w == HASH_SPACE * w + w;
      }
    }
    assert (t - s) * w == t * w - s * w;
  }

  predicate Between(h: int, lo: int, hi: int) { lo <= h < hi }

  lemma {:induction false} RangeSize(lo: int, hi: int)
    requires lo <= hi
    ensures |set h: int | lo <= h < hi && Between(h, lo, hi)| == hi - lo
    decreases hi - lo
  {
    var range := set h: int | lo <= h < hi && Between(h, lo, hi);
    if lo < hi {
      RangeSize(lo, hi - 1);
      var top := hi - 1;
      var shorter := set h: int | lo <= h < top && Between(h, lo, top);
      assert range == shorter + {top} by {
        assert forall h :: Between(h, lo, hi) <==> Between(h, lo, top) || h == top;
      }
    } else {
      assert range == {};
    }
  }

  /** The interval length counts exactly the prefixes the arm owns. */
  lemma ShareCountsPrefixes(arms: seq<Arm>, i: nat)
    requires Experiment(arms).Valid() && i < |arms|
    ensures |set h: nat | h <= HASH_SPACE && Owns(arms, i, h)| == Start(arms, i + 1) - Start(arms, i)
  {
    StartsOrdered(arms, i, i + 1);
    StartsOrdered(arms, i + 1, |arms|);
    var lo, hi := Start(arms, i), Start(arms, i + 1);
    RangeSize(lo, hi);
    assert (set h: nat | h <= HASH_SPACE && Owns(arms, i, h)) == (set h: int | lo <= h < hi && Between(h, lo, hi)) by {
      assert forall h: nat :: Owns(arms, i, h) <==> Between(h, lo, hi);
    }
  }
}
