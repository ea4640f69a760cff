/** The four routing strategies (src/domain/strategy.py). */
module Strategy {
  import opened Domain
  import opened Cohorts

  /** Code-point order on aliases. */
  predicate AliasLess(a: string, b: string) {
    b != [] && (a == [] || a[0] < b[0] || (a[0] == b[0] && AliasLess(a[1..], b[1..])))
  }

  /** The order is decided at the first difference: there `a` has ended, or has the smaller character. */
  lemma {:induction false} AliasLessAt(a: string, b: string)
    ensures AliasLess(a, b) <==> exists k: nat :: LessAt(a, b, k)
  {
    if a != [] && b != [] && a[0] == b[0] {
      AliasLessAt(a[1..], b[1..]);
      assert a == [a[0]] + a[1..] && b == [b[0]] + b[1..];
      if k: nat :| LessAt(a[1..], b[1..], k) {
        assert LessAt(a, b, k + 1);
      }
      if k: nat :| LessAt(a, b, k) {
        assert k > 0;
        assert a[1..][..k - 1] == a[..k][1..] && b[1..][..k - 1] == b[..k][1..];
        assert LessAt(a[1..], b[1..], k - 1);
      }
    } else {
      assert AliasLess(a, b) ==> LessAt(a, b, 0);
      assert forall k: nat | k > 0 && LessAt(a, b, k) :: a[..k][0] == b[..k][0];
    }
  }

  predicate LessAt(a: string, b: string, k: nat) {
    k <= |a| && k < |b| && a[..k] == b[..k] && (k == |a| || a[k] < b[k])
  }

  lemma {:induction false} AliasOrderTotal(a: string, b: string)
    ensures AliasLess(a, b) || a == b || AliasLess(b, a)
  {
    if a != [] && b != [] && a[0] == b[0] {
      AliasOrderTotal(a[1..], b[1..]);
      assert a == [a[0]] + a[1..] && b == [b[0]] + b[1..];
    }
  }

  lemma {:induction false} AliasOrderAsymmetric(a: string, b: string)
    requires AliasLess(a, b)
    ensures !AliasLess(b, a) && a != b
  {
    if a != [] && a[0] == b[0] {
      AliasOrderAsymmetric(a[1..], b[1..]);
    }
  }

  lemma {:induction false} AliasOrderTransitive(a: string, b: string, c: string)
    requires AliasLess(a, b) && AliasLess(b, c)
    ensures AliasLess(a, c)
  {
    if a != [] && a[0] == b[0] == c[0] {
      AliasOrderTransitive(a[1..], b[1..], c[1..]);
    }
  }

  /** The sort key: estimated cost then alias, or alias alone. */
  predicate Before(c: Candidate, d: Candidate, byCost: bool) {
    if byCost && c.cost != d.cost then c.cost < d.cost else AliasLess(c.alias, d.alias)
  }

  lemma BeforeIsStrictOrder(c: Candidate, d: Candidate, e: Candidate, byCost: bool)
    ensures !(Before(c, d, byCost) && Before(d, c, byCost))
    ensures Before(c, d, byCost) && Before(d, e, byCost) ==> Before(c, e, byCost)
    ensures c.alias != d.alias ==> Before(c, d, byCost) || Before(d, c, byCost)
  {
    AliasOrderTotal(c.alias, d.alias);
    if AliasLess(c.alias, d.alias) { AliasOrderAsymmetric(c.alias, d.alias); }
    if AliasLess(c.alias, d.alias) && AliasLess(d.alias, e.alias) {
      AliasOrderTransitive(c.alias, d.alias, e.alias);
    }
  }

  /** The first candidate no other candidate precedes. */
  function Least(s: seq<Candidate>, byCost: bool): (r: Candidate)
    requires s != []
    ensures r in s
    ensures forall c | c in s :: !Before(c, r, byCost)
    decreases |s|
  {
    var last := s[|s| - 1];
    if |s| == 1 then
      BeforeIsStrictOrder(last, last, last, byCost);
      last
    else
      var best := Least(s[..|s| - 1], byCost);
      BeforeIsStrictOrder(last, best, best, byCost);
      assert forall c | c in s :: c in s[..|s| - 1] || c == last;
      if Before(last, best, byCost) then
        assert forall c | c in s[..|s| - 1] :: !Before(c, last, byCost) by {
          forall c | c in s[..|s| - 1] ensures !Before(c, last, byCost) {
            BeforeIsStrictOrder(c, last, best, byCost);
          }
        }
        BeforeIsStrictOrder(last, last, last, byCost);
        last
      else best
  }

  /** The first candidate with the alias, if any. */
  function Find(s: seq<Candidate>, alias: string): (r: Option<Candidate>)
    ensures r.Some? ==> r.value in s && r.value.alias == alias
    ensures r.None? <==> forall c | c in s :: c.alias != alias
  {
    if s == [] then None
    else
      assert s == [s[0]] + s[1..];
      if s[0].alias == alias then Some(s[0]) else Find(s[1..], alias)
  }

  datatype Selection = Selection(selected: Option<Candidate>, extraCodes: seq<ReasonCode>)

  /** `hash` is the 32-bit prefix of the subject key's digest. Only eligible candidates are offered,
      and only an offered candidate is ever selected. */
  function Select(eligible: seq<Candidate>, policy: Policy, hash: nat): (r: Selection)
    requires policy.ExperimentValid() && hash <= HASH_SPACE
    ensures r.selected.Some? ==> r.selected.value in eligible
    ensures r.extraCodes == [] || r.extraCodes == [LowestEstimatedCost] || r.extraCodes == [ExperimentRouteSelected]
  {
    match policy.strategy
    case PreferredModel =>
      if policy.preferredAlias.None? then Selection(None, []) else Selection(Find(eligible, policy.preferredAlias.value), [])
    case LowestCost =>
      if eligible == [] then Selection(None, []) else Selection(Some(Least(eligible, true)), [LowestEstimatedCost])
    case ByQualityTier =>
      if eligible == [] then Selection(None, []) else Selection(Some(Least(eligible, false)), [])
    case ByExperiment =>
      if policy.experiment.None? then Selection(None, [])
      else
        var arms := policy.experiment.value.arms;
        var found := Find(eligible, arms[CohortOf(arms, hash)].alias);
        Selection(found, if found.Some? then [ExperimentRouteSelected] else [])
  }

  ghost predicate UniqueAliases(s: seq<Candidate>) {
    forall c, d | c in s && d in s && c.alias == d.alias :: c == d
  }

  /** What each strategy promises about its choice. */
  lemma SelectionMeetsStrategy(eligible: seq<Candidate>, policy: Policy, hash: nat)
    requires policy.ExperimentValid() && hash <= HASH_SPACE
    ensures var chosen := Select(eligible, policy, hash).selected;
            match policy.strategy
            case PreferredModel =>
              && (chosen.Some? ==> Some(chosen.value.alias) == policy.preferredAlias)
              && (chosen.None? ==> forall c | c in eligible :: Some(c.alias) != policy.preferredAlias)
            case LowestCost =>
              && (chosen.None? <==> eligible == [])
              && (chosen.Some? ==> forall c | c in eligible ::
                    chosen.value.cost <= c.cost && (chosen.value.cost == c.cost ==> !AliasLess(c.alias, chosen.value.alias)))
            case ByQualityTier =>
              && (chosen.None? <==> eligible == [])
              && (chosen.Some? ==> forall c | c in eligible :: !AliasLess(c.alias, chosen.value.alias))
            case ByExperiment =>
              policy.experiment.Some? ==>
                var arms := policy.experiment.value.arms;
                var alias := arms[CohortOf(arms, hash)].alias;
                && (chosen.Some? ==> chosen.value.alias == alias)
                && (chosen.None? ==> forall c | c in eligible :: c.alias != alias)
  {
  }

  /** Selection depends on which candidates are offered, not on their order. */
  lemma SelectionIgnoresOrder(s: seq<Candidate>, t: seq<Candidate>, policy: Policy, hash: nat)
    requires policy.ExperimentValid() && hash <= HASH_SPACE
    requires (forall c :: c in s <==> c in t) && UniqueAliases(s)
    ensures Select(s, policy, hash) == Select(t, policy, hash)
  {
    assert s != [] ==> s[0] in s;
    assert t != [] ==> t[0] in t;
    match policy.strategy {
      case LowestCost => if s != [] { LeastIgnoresOrder(s, t, true); }
      case ByQualityTier => if s != [] { LeastIgnoresOrder(s, t, false); }
      case _ => FindIgnoresOrder(s, t);
    }
  }

  lemma FindIgnoresOrder(s: seq<Candidate>, t: seq<Candidate>)
    requires (forall c :: c in s <==> c in t) && UniqueAliases(s)
    ensures forall alias :: Find(s, alias) == Find(t, alias)
  {
    forall alias ensures Find(s, alias) == Find(t, alias) {
      assert Find(s, alias).Some? ==> Find(s, alias).value in t;
      assert Find(t, alias).Some? ==> Find(t, alias).value in s;
    }
  }

  lemma LeastIgnoresOrder(s: seq<Candidate>, t: seq<Candidate>, byCost: bool)
    requires s != [] && t != [] && (forall c :: c in s <==> c in t) && UniqueAliases(s)
    ensures Least(s, byCost) == Least(t, byCost)
  {
    var a, b := Least(s, byCost), Least(t, byCost);
    BeforeIsStrictOrder(a, b, b, byCost);
  }
}
