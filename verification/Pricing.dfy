/** The price of a job in minor units: tokens times a rate per million tokens, in saturating 64-bit
    arithmetic, rounded down separately for input and output. */
module Pricing {
  const U64_MAX: nat := 0xFFFF_FFFF_FFFF_FFFF
  const PER: nat := 1_000_000
  /** The largest charge that one side of a job can have. */
  const CAP: nat := 18446744073709

  type U64 = n: int | 0 <= n < 0x1_0000_0000_0000_0000

  function SaturatingMul(a: U64, b: U64): U64 {
    if a * b <= U64_MAX then a * b else U64_MAX
  }

  function SaturatingAdd(a: U64, b: U64): U64 {
    if a + b <= U64_MAX then a + b else U64_MAX
  }

  datatype Rate = Rate(inputPerMtok: U64, outputPerMtok: U64)

  function Charge(perMtok: U64, tokens: U64): U64 {
    SaturatingMul(perMtok, tokens) / PER
  }

  function PriceMinor(rate: Rate, input: U64, output: U64): U64 {
    SaturatingAdd(Charge(rate.inputPerMtok, input), Charge(rate.outputPerMtok, output))
  }

  // ---------------------------------------------------------------- arithmetic

  lemma MulMonotone(a: nat, b: nat, c: nat, d: nat)
    requires a <= c && b <= d
    ensures a * b <= c * d
  {
    assert c * d - a * b == (c - a) * d + a * (d - b);
    assert (c - a) * d >= 0 && a * (d - b) >= 0;
  }

  lemma DivSplit(a: nat, b: nat)
    ensures a / PER + b / PER <= (a + b) / PER <= a / PER + b / PER + 1
  {}

  lemma DivMonotone(a: nat, b: nat)
    requires a <= b
    ensures a / PER <= b / PER
  {}

  // ---------------------------------------------------------------- saturation

  /** One side's charge is the exact quotient, capped; and the two sides never saturate when added. */
  lemma ChargeIsCapped(perMtok: U64, tokens: U64)
    ensures Charge(perMtok, tokens) ==
      if perMtok * tokens / 1_000_000 < 18446744073709 then perMtok * tokens / 1_000_000 else 18446744073709
  {
    assert U64_MAX / PER == CAP;
    if perMtok * tokens <= U64_MAX { DivMonotone(perMtok * tokens, U64_MAX); }
    else { DivMonotone(U64_MAX, perMtok * tokens); }
  }

  lemma SidesAdd(rate: Rate, input: U64, output: U64)
    ensures PriceMinor(rate, input, output) == Charge(rate.inputPerMtok, input) + Charge(rate.outputPerMtok, output)
  {
    ChargeIsCapped(rate.inputPerMtok, input);
    ChargeIsCapped(rate.outputPerMtok, output);
  }

  lemma ChargeIsMonotone(perMtok: U64, tokens: U64, dearer: U64, more: U64)
    requires perMtok <= dearer && tokens <= more
    ensures Charge(perMtok, tokens) <= Charge(dearer, more)
  {
    MulMonotone(perMtok, tokens, dearer, more);
    DivMonotone(SaturatingMul(perMtok, tokens), SaturatingMul(dearer, more));
  }

  /** More tokens or a higher rate never cost less, even when the arithmetic saturates. */
  lemma PriceIsMonotone(rate: Rate, input: U64, output: U64, dearer: Rate, moreIn: U64, moreOut: U64)
    requires rate.inputPerMtok <= dearer.inputPerMtok && rate.outputPerMtok <= dearer.outputPerMtok
    requires input <= moreIn && output <= moreOut
    ensures PriceMinor(rate, input, output) <= PriceMinor(dearer, moreIn, moreOut)
  {
    SidesAdd(rate, input, output);
    SidesAdd(dearer, moreIn, moreOut);
    ChargeIsMonotone(rate.inputPerMtok, input, dearer.inputPerMtok, moreIn);
    ChargeIsMonotone(rate.outputPerMtok, output, dearer.outputPerMtok, moreOut);
  }

  /** At one unit per token the price is the token count, up to where a side saturates. */
  lemma UnitRateIsExactIff(input: U64, output: U64)
    ensures PriceMinor(Rate(1_000_000, 1_000_000), input, output) == input + output <==>
      input <= 18446744073709 && output <= 18446744073709
  {
    SidesAdd(Rate(PER, PER), input, output);
    ChargeIsCapped(PER, input);
    ChargeIsCapped(PER, output);
    assert PER * input / PER == input && PER * output / PER == output;
  }

  // ---------------------------------------------------------------- splitting a job

  datatype Part = Part(input: nat, output: nat)

  function TotalIn(parts: seq<Part>): nat {
    if parts == [] then 0 else parts[0].input + TotalIn(parts[1..])
  }

  function TotalOut(parts: seq<Part>): nat {
    if parts == [] then 0 else parts[0].output + TotalOut(parts[1..])
  }

  /** No multiplication saturates on the whole job, so none does on a part. */
  ghost predicate Unsaturated(rate: Rate, parts: seq<Part>) {
    && TotalIn(parts) <= U64_MAX && TotalOut(parts) <= U64_MAX
    && rate.inputPerMtok * TotalIn(parts) <= U64_MAX
    && rate.outputPerMtok * TotalOut(parts) <= U64_MAX
  }

  lemma UnsaturatedTail(rate: Rate, parts: seq<Part>)
    requires parts != [] && Unsaturated(rate, parts)
    ensures Unsaturated(rate, parts[1..]) && Unsaturated(rate, parts[..1])
    ensures TotalIn(parts[..1]) == parts[0].input && TotalOut(parts[..1]) == parts[0].output
  {
    assert parts[..1] == [parts[0]] && parts[..1][1..] == [];
    MulMonotone(rate.inputPerMtok, TotalIn(parts[1..]), rate.inputPerMtok, TotalIn(parts));
    MulMonotone(rate.outputPerMtok, TotalOut(parts[1..]), rate.outputPerMtok, TotalOut(parts));
    MulMonotone(rate.inputPerMtok, parts[0].input, rate.inputPerMtok, TotalIn(parts));
    MulMonotone(rate.outputPerMtok, parts[0].output, rate.outputPerMtok, TotalOut(parts));
  }

  function PriceOfParts(rate: Rate, parts: seq<Part>): nat
    requires TotalIn(parts) <= U64_MAX && TotalOut(parts) <= U64_MAX
  {
    if parts == [] then 0
    else PriceMinor(rate, parts[0].input, parts[0].output) + PriceOfParts(rate, parts[1..])
  }

  /** Charging two amounts together loses at most one unit of rounding less than apart. */
  lemma ChargeSplits(perMtok: U64, a: nat, b: nat)
    requires a + b <= U64_MAX && perMtok * (a + b) <= U64_MAX
    ensures var whole, parts := Charge(perMtok, a + b), Charge(perMtok, a) + Charge(perMtok, b);
      parts <= whole <= parts + 1
  {
    assert perMtok * (a + b) == perMtok * a + perMtok * b;
    MulMonotone(perMtok, a, perMtok, a + b);
    MulMonotone(perMtok, b, perMtok, a + b);
    DivSplit(perMtok * a, perMtok * b);
  }

  /** Billing a job in k parts never costs more than at once, and less by at most 2(k-1) units. */
  lemma {:induction false} SplittingIsBounded(rate: Rate, parts: seq<Part>)
    requires parts != [] && Unsaturated(rate, parts)
    ensures var whole := PriceMinor(rate, TotalIn(parts), TotalOut(parts));
      PriceOfParts(rate, parts) <= whole <= PriceOfParts(rate, parts) + 2 * (|parts| - 1)
  {
    if |parts| == 1 {
      assert parts[1..] == [];
    } else {
      var rest := parts[1..];
      UnsaturatedTail(rate, parts);
      SplittingIsBounded(rate, rest);
      ChargeSplits(rate.inputPerMtok, parts[0].input, TotalIn(rest));
      ChargeSplits(rate.outputPerMtok, parts[0].output, TotalOut(rest));
      SidesAdd(rate, TotalIn(parts), TotalOut(parts));
      SidesAdd(rate, parts[0].input, parts[0].output);
      SidesAdd(rate, TotalIn(rest), TotalOut(rest));
    }
  }

  const JUST_UNDER: Rate := Rate(PER - 1, PER - 1)

  function Ones(k: nat): seq<Part> {
    if k == 0 then [] else [Part(1, 1)] + Ones(k - 1)
  }

  lemma {:induction false} OnesCostNothingApart(k: nat)
    requires k <= PER
    ensures |Ones(k)| == k && TotalIn(Ones(k)) == k && TotalOut(Ones(k)) == k
    ensures PriceOfParts(JUST_UNDER, Ones(k)) == 0
  {
    if k > 0 {
      OnesCostNothingApart(k - 1);
      assert Ones(k)[1..] == Ones(k - 1);
      assert PriceMinor(JUST_UNDER, 1, 1) == 0;
    }
  }

  /** The bound is sharp for every number of parts up to a million: one token each way per part, at
      just under a unit per token, costs nothing apart and 2(k-1) together. */
  lemma BoundIsReached(k: nat)
    requires 1 <= k <= PER
    ensures |Ones(k)| == k && TotalIn(Ones(k)) == k && TotalOut(Ones(k)) == k
    ensures PriceOfParts(JUST_UNDER, Ones(k)) == 0 && PriceMinor(JUST_UNDER, k, k) == 2 * (k - 1)
  {
    OnesCostNothingApart(k);
    assert (PER - 1) * k == (k - 1) * PER + (PER - k);
  }
}
