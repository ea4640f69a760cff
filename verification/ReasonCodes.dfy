/** Canonical ordering of reason codes (src/domain/reason_codes.py). */
module ReasonCodes {
  import opened Domain

  const CODE_COUNT := 19

  function CodeAt(i: int): ReasonCode
    requires 0 <= i < CODE_COUNT
  {
    if i == 0 then CapabilityMatch
    else if i == 1 then ModelAllowed
    else if i == 2 then ModelNotAllowed
    else if i == 3 then WithinCostLimit
    else if i == 4 then CostLimitExceeded
    else if i == 5 then TokenLimitExceeded
    else if i == 6 then LowestEstimatedCost
    else if i == 7 then LatencyPreferenceMatch
    else if i == 8 then QualityTierMatch
    else if i == 9 then RegionPolicyMatch
    else if i == 10 then ModelUnhealthy
    else if i == 11 then ModelDegraded
    else if i == 12 then ModelThrottled
    else if i == 13 then ModelUnavailable
    else if i == 14 then FallbackSelected
    else if i == 15 then ExperimentRouteSelected
    else if i == 16 then NoEligibleModel
    else if i == 17 then InvalidRoutingPolicy
    else RequiredCapabilityUnavailable
  }

  /** Position of a code in the declaration order. */
  function Rank(code: ReasonCode): (i: int)
    ensures 0 <= i < CODE_COUNT && CodeAt(i) == code
  {
    match code
    case CapabilityMatch => 0
    case ModelAllowed => 1
    case ModelNotAllowed => 2
    case WithinCostLimit => 3
    case CostLimitExceeded => 4
    case TokenLimitExceeded => 5
    case LowestEstimatedCost => 6
    case LatencyPreferenceMatch => 7
    case QualityTierMatch => 8
    case RegionPolicyMatch => 9
    case ModelUnhealthy => 10
    case ModelDegraded => 11
    case ModelThrottled => 12
    case ModelUnavailable => 13
    case FallbackSelected => 14
    case ExperimentRouteSelected => 15
    case NoEligibleModel => 16
    case InvalidRoutingPolicy => 17
    case RequiredCapabilityUnavailable => 18
  }

  /** Canonical order: strictly ascending, hence free of duplicates. */
  ghost predicate Ascending(codes: seq<ReasonCode>) {
    forall i, j | 0 <= i < j < |codes| :: Rank(codes[i]) < Rank(codes[j])
  }

  /** Inserts a code into a canonical list, dropping it when already present. */
  function Insert(code: ReasonCode, codes: seq<ReasonCode>): (r: seq<ReasonCode>)
    requires Ascending(codes)
    ensures Ascending(r)
    ensures forall c :: c in r <==> c == code || c in codes
  {
    if codes == [] || Rank(code) < Rank(codes[0]) then [code] + codes
    else if codes[0] == code then codes
    else
      assert codes == [codes[0]] + codes[1..];
      var rest := Insert(code, codes[1..]);
      assert Rank(codes[0]) != Rank(code);
      assert forall j | 0 <= j < |rest| :: rest[j] in rest;
      [codes[0]] + rest
  }

  /** Deduplicates and sorts into canonical order. */
  function SortReasonCodes(codes: seq<ReasonCode>): (r: seq<ReasonCode>)
    ensures Ascending(r)
    ensures forall c :: c in r <==> c in codes
  {
    if codes == [] then []
    else
      assert codes == [codes[0]] + codes[1..];
      Insert(codes[0], SortReasonCodes(codes[1..]))
  }

  /** Identical routing outcomes give identical lists: the canonical list of a set is unique. */
  lemma {:induction false} CanonicalListUnique(a: seq<ReasonCode>, b: seq<ReasonCode>)
    requires Ascending(a) && Ascending(b)
    requires forall c :: c in a <==> c in b
    ensures a == b
  {
    assert b != [] ==> b[0] in b;
    if a == [] {
      assert b == [];
    } else {
      assert a[0] in b && b != [];
      assert b[0] in a;
      var i :| 0 <= i < |a| && a[i] == b[0];
      var j :| 0 <= j < |b| && b[j] == a[0];
      assert Rank(a[0]) == Rank(b[0]);
      assert a[0] == b[0];
      forall c ensures c in a[1..] <==> c in b[1..] {
        HeadOccursOnce(a, c);
        HeadOccursOnce(b, c);
      }
      CanonicalListUnique(a[1..], b[1..]);
      assert a == [a[0]] + a[1..] && b == [b[0]] + b[1..];
    }
  }

  lemma HeadOccursOnce(a: seq<ReasonCode>, c: ReasonCode)
    requires Ascending(a) && a != []
    ensures c in a[1..] <==> c in a && c != a[0]
  {
    if c in a[1..] {
      var i :| 0 <= i < |a[1..]| && a[1..][i] == c;
      assert a[i + 1] == c;
    }
    assert a == [a[0]] + a[1..];
  }
}
