/** What a model call costs, and the most it can cost. Rates are whole micros per million
    tokens, as the price list stores them. */
module ModelPricing {
  import opened Options
  import opened Decimal

  const MILLION: nat := 1_000_000

  datatype Currency = USD | EUR

  datatype Price = Price(currency: Currency, input: nat, cachedInput: nat, output: nat, reasoning: nat)

  /** Totals, and the parts of them that were cached or spent on reasoning. */
  datatype Usage = Usage(input: int, cachedInput: int, output: int, reasoning: int)

  datatype Bound = Bound(input: int, output: int)

  predicate Safe(n: int) { 0 <= n <= MAX_SAFE_INTEGER }

  predicate ValidUsage(u: Usage) {
    && Safe(u.input) && Safe(u.cachedInput) && Safe(u.output) && Safe(u.reasoning)
    && u.cachedInput <= u.input && u.reasoning <= u.output
  }

  predicate ValidBound(b: Bound) { Safe(b.input) && Safe(b.output) }

  predicate Within(u: Usage, b: Bound) { u.input <= b.input && u.output <= b.output }

  function Larger(a: nat, b: nat): nat { if a > b then a else b }

  /** A total, part of it at another rate. */
  function Mixed(total: nat, part: nat, rate: nat, partRate: nat): nat
    requires part <= total
  {
    var rest: nat := total - part;
    rest * rate + part * partRate
  }

  /** Micros times a million, before the division drops the fraction. */
  function Weight(u: Usage, p: Price): nat
    requires ValidUsage(u)
  {
    Mixed(u.input, u.cachedInput, p.input, p.cachedInput) + Mixed(u.output, u.reasoning, p.output, p.reasoning)
  }

  /** `None` for usage that is refused: parts that exceed their totals, or a count that is none. */
  function CalculateCost(u: Usage, p: Price): Option<nat> {
    if ValidUsage(u) then Some(Weight(u, p) / MILLION) else None
  }

  function CalculateMaximumCost(b: Bound, p: Price): Option<nat> {
    if !ValidBound(b) then None
    else Some((b.input * Larger(p.input, p.cachedInput) + b.output * Larger(p.output, p.reasoning)) / MILLION)
  }

  lemma SplitAtDearerRate(total: nat, part: nat, limit: nat, rate: nat, partRate: nat)
    requires part <= total <= limit
    ensures Mixed(total, part, rate, partRate) <= limit * Larger(rate, partRate)
  {
    var top := Larger(rate, partRate);
    assert (total - part) * rate <= (total - part) * top;
    assert part * partRate <= part * top;
    assert (total - part) * top + part * top == total * top;
    assert total * top <= limit * top;
  }

  lemma DivisionKeepsOrder(a: nat, b: nat)
    requires a <= b
    ensures a / MILLION <= b / MILLION
  {
  }

  /** No usage within the bound costs more than the maximum. */
  lemma MaximumIsUpperBound(u: Usage, b: Bound, p: Price)
    requires ValidUsage(u) && ValidBound(b) && Within(u, b)
    ensures CalculateCost(u, p).value <= CalculateMaximumCost(b, p).value
  {
    SplitAtDearerRate(u.input, u.cachedInput, b.input, p.input, p.cachedInput);
    SplitAtDearerRate(u.output, u.reasoning, b.output, p.output, p.reasoning);
    DivisionKeepsOrder(Weight(u, p), b.input * Larger(p.input, p.cachedInput) + b.output * Larger(p.output, p.reasoning));
  }

  /** Every token at its dearer rate. */
  function DearestUsage(b: Bound, p: Price): Usage {
    Usage(b.input, if p.cachedInput > p.input then b.input else 0, b.output, if p.reasoning > p.output then b.output else 0)
  }

  /** The maximum is a price some usage within the bound really has. */
  lemma MaximumIsAttained(b: Bound, p: Price)
    requires ValidBound(b)
    ensures ValidUsage(DearestUsage(b, p)) && Within(DearestUsage(b, p), b)
    ensures CalculateCost(DearestUsage(b, p), p) == CalculateMaximumCost(b, p)
  {
    var u := DearestUsage(b, p);
    assert Mixed(u.input, u.cachedInput, p.input, p.cachedInput) == b.input * Larger(p.input, p.cachedInput);
    assert Mixed(u.output, u.reasoning, p.output, p.reasoning) == b.output * Larger(p.output, p.reasoning);
  }

  /** So the maximum is the least amount that covers every usage within the bound. */
  lemma MaximumIsTight(b: Bound, p: Price, amount: nat)
    requires ValidBound(b)
    ensures amount >= CalculateMaximumCost(b, p).value <==>
            forall u :: ValidUsage(u) && Within(u, b) ==> CalculateCost(u, p).value <= amount
  {
    MaximumIsAttained(b, p);
    forall u | ValidUsage(u) && Within(u, b)
      ensures CalculateCost(u, p).value <= CalculateMaximumCost(b, p).value
    {
      MaximumIsUpperBound(u, b, p);
    }
    assert CalculateCost(DearestUsage(b, p), p).value == CalculateMaximumCost(b, p).value;
  }

  /** The dearest candidate's maximum. */
  method FindEnvelope(prices: seq<Price>, b: Bound) returns (index: nat, micros: nat)
    requires prices != [] && ValidBound(b)
    ensures index < |prices| && CalculateMaximumCost(b, prices[index]) == Some(micros)
    ensures forall i :: 0 <= i < |prices| ==> CalculateMaximumCost(b, prices[i]).value <= micros
    ensures forall i :: 0 <= i < index ==> CalculateMaximumCost(b, prices[i]).value < micros
  {
    hide CalculateMaximumCost;
    index, micros := 0, MaximumOf(b, prices[0]);
    var i := 1;
    while i < |prices|
      invariant 1 <= i <= |prices| && index < i
      invariant micros == MaximumOf(b, prices[index])
      invariant forall j :: 0 <= j < i ==> MaximumOf(b, prices[j]) <= micros
      invariant forall j :: 0 <= j < index ==> MaximumOf(b, prices[j]) < micros
    {
      var candidate := MaximumOf(b, prices[i]);
      if candidate > micros {
        index, micros := i, candidate;
      }
      i := i + 1;
    }
  }

  function MaximumOf(b: Bound, p: Price): (m: nat)
    requires ValidBound(b)
    ensures CalculateMaximumCost(b, p) == Some(m)
  {
    CalculateMaximumCost(b, p).value
  }

  /** Whichever candidate answers, the envelope covers what its usage costs. */
  lemma EnvelopeCoversAnswer(prices: seq<Price>, b: Bound, micros: nat, i: nat, u: Usage)
    requires ValidBound(b) && i < |prices| && ValidUsage(u) && Within(u, b)
    requires forall j :: 0 <= j < |prices| ==> CalculateMaximumCost(b, prices[j]).value <= micros
    ensures CalculateCost(u, prices[i]).value <= micros
  {
    MaximumIsUpperBound(u, b, prices[i]);
  }
}
