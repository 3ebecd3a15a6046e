/** The two cost formulas: what the adapter charges for reported usage and what the driver reserves
    before dispatch. */
module ProviderCost {
  import opened Basics

  datatype Pricing = Pricing(inputPerMillion: U64, outputPerMillion: U64)

  function CeilMillions(numerator: U64): U64 {
    if numerator == 0 then 0 else SaturatingAdd(numerator, 999_999) / 1_000_000
  }

  /** `token_cost`: the adapter's charge. */
  function TokenCost(input: U64, output: U64, pricing: Pricing): U64 {
    var inputPart := SaturatingMul(input, pricing.inputPerMillion);
    var outputPart := SaturatingMul(output, pricing.outputPerMillion);
    CeilMillions(SaturatingAdd(inputPart, outputPart))
  }

  /** `maximum_provider_cost`: the driver's reservation. */
  function MaximumProviderCost(input: U64, output: U64, pricing: Pricing): U64 {
    var numerator := SaturatingAdd(
                       SaturatingMul(input, pricing.inputPerMillion),
                       SaturatingMul(output, pricing.outputPerMillion));
    if numerator == 0 then 0 else SaturatingAdd(numerator, 999_999) / 1_000_000
  }

  lemma MulMonotone(a: nat, b: nat, p: nat)
    requires a <= b
    ensures a * p <= b * p
  {
    assert b * p == a * p + (b - a) * p;
  }

  lemma SaturatingMulMonotone(a: U64, b: U64, p: U64)
    requires a <= b
    ensures SaturatingMul(a, p) <= SaturatingMul(b, p)
  {
    MulMonotone(a, b, p);
  }

  /** Usage within its reservation never costs more than was reserved for it. */
  lemma CostWithinReservation(input: U64, output: U64, reservedInput: U64, reservedOutput: U64, pricing: Pricing)
    requires input <= reservedInput && output <= reservedOutput
    ensures TokenCost(input, output, pricing) <= MaximumProviderCost(reservedInput, reservedOutput, pricing)
  {
    SaturatingMulMonotone(input, reservedInput, pricing.inputPerMillion);
    SaturatingMulMonotone(output, reservedOutput, pricing.outputPerMillion);
  }

  /** The charge is the exact price rounded up, unless an intermediate product left 64 bits: then
      it is the largest representable charge, which is below the exact one. */
  lemma TokenCostExactIff(input: U64, output: U64, pricing: Pricing)
    ensures var exact := input * pricing.inputPerMillion + output * pricing.outputPerMillion;
            TokenCost(input, output, pricing) == (exact + 999_999) / 1_000_000
            <==> (exact + 999_999) / 1_000_000 <= U64_MAX / 1_000_000
  {
    var exact := input * pricing.inputPerMillion + output * pricing.outputPerMillion;
    if exact <= U64_MAX {
      assert SaturatingAdd(SaturatingMul(input, pricing.inputPerMillion),
                           SaturatingMul(output, pricing.outputPerMillion)) == exact;
    } else {
      assert SaturatingAdd(SaturatingMul(input, pricing.inputPerMillion),
                           SaturatingMul(output, pricing.outputPerMillion)) == U64_MAX;
    }
  }
}
