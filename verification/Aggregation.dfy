/** Folding the attempts back into the decision (`_aggregate_decision` in
    src/application/invocation_orchestrator.py). */
module Aggregation {
  import opened Domain
  import opened ReasonCodes
  import Strategy

  function WithoutNoEligible(codes: seq<ReasonCode>): (r: seq<ReasonCode>)
    ensures forall c :: c in r <==> c in codes && !c.NoEligibleModel?
  {
    if codes == [] then []
    else
      assert codes == [codes[0]] + codes[1..];
      (if codes[0].NoEligibleModel? then [] else [codes[0]]) + WithoutNoEligible(codes[1..])
  }

  /** `succeeded` must be a considered candidate: the source's lookup raises otherwise. */
  function Aggregate(original: Decision, succeeded: Option<string>, extra: seq<ReasonCode>): Decision
    requires succeeded.Some? ==> Strategy.Find(original.candidates, succeeded.value).Some?
  {
    var candidate := if succeeded.Some? then Strategy.Find(original.candidates, succeeded.value) else None;
    original.(
      selected := succeeded,
      provider := if candidate.Some? then Some(candidate.value.provider) else None,
      fallbackUsed := succeeded.Some? && succeeded != original.selected,
      reasonCodes := SortReasonCodes(WithoutNoEligible(original.reasonCodes) + extra),
      usage := if candidate.Some? then Some(candidate.value.usage) else None,
      cost := if candidate.Some? then Some(candidate.value.cost) else None)
  }

  /** What the final decision must say, told without computing it: `adds` names the codes the
      attempts contribute. */
  ghost predicate Reports(original: Decision, succeeded: Option<string>, adds: set<ReasonCode>, final: Decision) {
    && final.selected == succeeded
    && (final.fallbackUsed <==> succeeded.Some? && succeeded != original.selected)
    && Ascending(final.reasonCodes)
    && (forall c :: c in final.reasonCodes <==> (c in original.reasonCodes && !c.NoEligibleModel?) || c in adds)
    && (succeeded.None? ==> final.provider.None? && final.usage.None? && final.cost.None?)
    && (succeeded.Some? ==>
          exists c :: && Strategy.Find(original.candidates, succeeded.value) == Some(c)
                      && final.provider == Some(c.provider) && final.usage == Some(c.usage) && final.cost == Some(c.cost))
    && final == original.(selected := final.selected, provider := final.provider, fallbackUsed := final.fallbackUsed,
                          reasonCodes := final.reasonCodes, usage := final.usage, cost := final.cost)
  }

  lemma AggregateReports(original: Decision, succeeded: Option<string>, extra: seq<ReasonCode>, adds: set<ReasonCode>)
    requires succeeded.Some? ==> Strategy.Find(original.candidates, succeeded.value).Some?
    requires forall c :: c in extra <==> c in adds
    ensures Reports(original, succeeded, adds, Aggregate(original, succeeded, extra))
  {
  }

  /** The report is exact: it determines the final decision. */
  lemma ReportDetermines(original: Decision, succeeded: Option<string>, adds: set<ReasonCode>,
                         a: Decision, b: Decision)
    requires Reports(original, succeeded, adds, a) && Reports(original, succeeded, adds, b)
    ensures a == b
  {
    CanonicalListUnique(a.reasonCodes, b.reasonCodes);
  }
}
