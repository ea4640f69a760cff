/** Token and cost estimates (src/domain/cost_estimation.py). Decimals are exact reals; the one
    rounding, to six places half-even, is explicit. */
module CostEstimation {
  import opened Domain

  /** The default estimator's characters per token. */
  const CHARS_PER_TOKEN: nat := 4

  function TotalChars(messages: seq<Message>): nat {
    if messages == [] then 0 else |messages[0].content| + TotalChars(messages[1..])
  }

  /** Estimated input tokens: the least count, at least one, whose characters cover the text. */
  function EstimateUsage(messages: seq<Message>, maximumOutputTokens: int, charsPerToken: nat): (u: Usage)
    requires 0 < charsPerToken
    ensures u.outputTokens == maximumOutputTokens
    ensures 1 <= u.inputTokens && TotalChars(messages) <= u.inputTokens * charsPerToken
    ensures u.inputTokens == 1 || (u.inputTokens - 1) * charsPerToken < TotalChars(messages)
  {
    var chars := TotalChars(messages);
    var tokens := (chars + charsPerToken - 1) / charsPerToken;
    CeilingDivision(chars, charsPerToken);
    Usage(if 1 < tokens then tokens else 1, maximumOutputTokens)
  }

  lemma CeilingDivision(a: nat, b: nat)
    requires 0 < b
    ensures var q := (a + b - 1) / b; a <= q * b && (a == 0 || (q - 1) * b < a) && 0 <= q && (a == 0 ==> q == 0)
  {
    var q := (a + b - 1) / b;
    assert a + b - 1 == q * b + (a + b - 1) % b;
    assert (q - 1) * b == q * b - b;
    if a == 0 { assert (b - 1) / b == 0; }
  }

  /** Round to the nearest integer, ties to even. */
  function RoundHalfEven(x: real): (r: int)
    ensures -0.5 <= r as real - x <= 0.5
    ensures r as real - x == 0.5 || r as real - x == -0.5 ==> r % 2 == 0
  {
    var f := x.Floor;
    var d := x - f as real;
    if d < 0.5 || (d == 0.5 && f % 2 == 0) then f else f + 1
  }

  function Quantize(x: real): real {
    RoundHalfEven(x * 1000000.0) as real / 1000000.0
  }

  function TokenCost(tokens: int, pricePer1k: real): real {
    (tokens as real / 1000.0) * pricePer1k
  }

  function ExactCost(usage: Usage, pricing: Pricing): real {
    TokenCost(usage.inputTokens, pricing.inputPer1k) + TokenCost(usage.outputTokens, pricing.outputPer1k)
  }

  function EstimateCost(usage: Usage, pricing: Pricing): real {
    Quantize(ExactCost(usage, pricing))
  }

  /** A thousand tokens cost their own price, and costs add up over tokens. */
  lemma CostPerToken(usage: Usage, pricing: Pricing)
    ensures 1000.0 * ExactCost(usage, pricing) ==
            usage.inputTokens as real * pricing.inputPer1k + usage.outputTokens as real * pricing.outputPer1k
  {
    ThousandTokens(usage.inputTokens, pricing.inputPer1k);
    ThousandTokens(usage.outputTokens, pricing.outputPer1k);
  }

  lemma ThousandTokens(tokens: int, pricePer1k: real)
    ensures 1000.0 * TokenCost(tokens, pricePer1k) == tokens as real * pricePer1k
  {
    var thousands := tokens as real / 1000.0;
    assert tokens as real == 1000.0 * thousands;
  }

  /** Every message counts, by its own length. */
  lemma {:induction false} CharsAddUp(a: seq<Message>, b: seq<Message>)
    ensures TotalChars(a + b) == TotalChars(a) + TotalChars(b)
    ensures |a| == 1 ==> TotalChars(a) == |a[0].content|
  {
    if a == [] {
      assert a + b == b;
    } else {
      assert (a + b)[1..] == a[1..] + b;
      CharsAddUp(a[1..], b);
    }
  }

  lemma RoundHalfEvenMonotone(x: real, y: real)
    requires x <= y
    ensures RoundHalfEven(x) <= RoundHalfEven(y)
  {
    assert x.Floor <= y.Floor;
  }

  /** The estimate is the nearest multiple of a millionth: within half a millionth of exact. */
  lemma EstimateCloseToExact(usage: Usage, pricing: Pricing)
    ensures -0.0000005 <= EstimateCost(usage, pricing) - ExactCost(usage, pricing) <= 0.0000005
  {
    var x := ExactCost(usage, pricing) * 1000000.0;
    var r := RoundHalfEven(x) as real;
    assert EstimateCost(usage, pricing) * 1000000.0 == r;
  }

  /** The estimate is a whole number of millionths; a tie goes to the even one. */
  lemma EstimateIsRounded(usage: Usage, pricing: Pricing) returns (millionths: int)
    ensures EstimateCost(usage, pricing) * 1000000.0 == millionths as real
    ensures var off := millionths as real - ExactCost(usage, pricing) * 1000000.0; off == 0.5 || off == -0.5 ==> millionths % 2 == 0
  {
    millionths := RoundHalfEven(ExactCost(usage, pricing) * 1000000.0);
  }

  lemma TokenCostMonotone(a: int, b: int, price: real)
    requires a <= b && 0.0 <= price
    ensures TokenCost(a, price) <= TokenCost(b, price)
  {
    var x, y := a as real / 1000.0, b as real / 1000.0;
    assert x <= y;
    assert 0.0 <= (y - x) * price == y * price - x * price;
  }

  lemma QuantizeMonotone(x: real, y: real)
    requires x <= y
    ensures Quantize(x) <= Quantize(y)
  {
    RoundHalfEvenMonotone(x * 1000000.0, y * 1000000.0);
  }

  /** With non-negative prices, estimating fewer tokens never costs more, rounding included. */
  lemma EstimateMonotone(u: Usage, v: Usage, pricing: Pricing)
    requires u.inputTokens <= v.inputTokens && u.outputTokens <= v.outputTokens
    requires 0.0 <= pricing.inputPer1k && 0.0 <= pricing.outputPer1k
    ensures ExactCost(u, pricing) <= ExactCost(v, pricing)
    ensures EstimateCost(u, pricing) <= EstimateCost(v, pricing)
  {
    TokenCostMonotone(u.inputTokens, v.inputTokens, pricing.inputPer1k);
    TokenCostMonotone(u.outputTokens, v.outputTokens, pricing.outputPer1k);
    QuantizeMonotone(ExactCost(u, pricing), ExactCost(v, pricing));
  }
}
