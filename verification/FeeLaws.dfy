/** What the fee arithmetic promises, for every valid policy. */
module FeeLaws {
  import opened Prelude
  import opened Domain

  /** `Nearest` is within one half of its argument, and a tie goes away from zero. */
  lemma NearestIsNearest(x: real)
    ensures -0.5 <= Nearest(x) as real - x <= 0.5
    ensures x >= 0.0 ==> -0.5 < Nearest(x) as real - x
    ensures x <= 0.0 ==> Nearest(x) as real - x < 0.5
    ensures Nearest(-x) == -Nearest(x)
  {
  }

  /** The three roundings of one amount are ordered and at most one apart. */
  lemma RoundingsOrdered(x: real)
    ensures Round(FLOOR, x) <= Round(NEAREST, x) <= Round(CEIL, x) <= Round(FLOOR, x) + 1
  {
  }

  lemma RoundMonotone(rule: string, x: real, y: real)
    requires x <= y
    ensures Round(rule, x) <= Round(rule, y)
  {
  }

  /** No rule rounds an amount past an integer bound. */
  lemma RoundBetween(rule: string, x: real, low: int, high: int)
    requires low as real <= x <= high as real
    ensures low <= Round(rule, x) <= high
  {
  }

  lemma ShareOf(g: real, share: real)
    requires g >= 0.0 && 0.0 <= share <= 1.0
    ensures 0.0 <= g * share <= g
  {
    assert g * share <= g * 1.0;
  }

  lemma PercentOf(p: FeePolicy, gross: int)
    requires ValidPolicy(p) && p.kind == PERCENT && gross >= 0
    ensures 0.0 <= RawFee(p, gross) <= gross as real
  {
    assert RawFee(p, gross) == gross as real * (p.value / 100.0);
    ShareOf(gross as real, p.value / 100.0);
  }

  // ---------- what a fee is ----------

  function Unbounded(p: FeePolicy): FeePolicy { p.(minFee := None, maxFee := None) }

  /** Without bounds, a percent fee is the hundredth part of gross times value, rounded as the policy says; a half
      goes up. */
  lemma {:induction false} PercentFeeIs(p: FeePolicy, gross: int)
    requires ValidPolicy(p) && p.kind == "percent" && p.minFee.None? && p.maxFee.None? && gross > 0
    ensures CalculateHostFee(p, gross).Ok?
    ensures var off := 100.0 * CalculateHostFee(p, gross).value as real - gross as real * p.value;
            && (p.rounding == "nearest" || p.rounding == "" ==> -50.0 < off <= 50.0)
            && (p.rounding == "floor" ==> -100.0 < off <= 0.0)
            && (p.rounding == "ceil" ==> 0.0 <= off < 100.0)
    ensures forall k: int | gross as real * p.value == 100.0 * k as real :: CalculateHostFee(p, gross) == Ok(k)
  {
    var raw, hundred := RawFee(p, gross), gross as real * p.value;
    PercentTaken(p, gross);
    assert 100.0 * raw == hundred;
    RoundIs(p.rounding, raw);
    forall k: int | hundred == 100.0 * k as real ensures CalculateHostFee(p, gross) == Ok(k) {
      RoundBetween(p.rounding, raw, k, k);
    }
  }

  lemma PercentTaken(p: FeePolicy, gross: int)
    requires ValidPolicy(p) && p.kind == "percent" && p.minFee.None? && p.maxFee.None? && gross > 0
    ensures CalculateHostFee(p, gross) == Ok(Round(p.rounding, RawFee(p, gross)))
    ensures RawFee(p, gross) == gross as real * (p.value / 100.0)
  {
    assert p.kind[0] != FREE[0];
  }

  lemma RoundIs(rule: string, x: real)
    ensures rule == "nearest" || rule == "" ==> Round(rule, x) == Nearest(x)
    ensures rule == "floor" ==> -1.0 < Round(rule, x) as real - x <= 0.0
    ensures rule == "ceil" ==> 0.0 <= Round(rule, x) as real - x < 1.0
  {
    if rule == "nearest" { assert rule[0] != CEIL[0] && rule[0] != FLOOR[0]; }
  }

  lemma FixedTaken(p: FeePolicy, gross: int)
    requires ValidPolicy(p) && p.kind == "fixed" && p.minFee.None? && p.maxFee.None? && gross > 0
    ensures CalculateHostFee(p, gross) == Ok(Round(p.rounding, p.value))
    ensures p.value == p.value.Floor as real
  {
    assert p.kind[1] != PERCENT[1] && p.kind[1] != FREE[1];
  }

  /** Without bounds, a fixed fee is the policy's value. */
  lemma FixedFeeIs(p: FeePolicy, gross: int)
    requires ValidPolicy(p) && p.kind == "fixed" && p.minFee.None? && p.maxFee.None? && gross > 0
    ensures CalculateHostFee(p, gross).Ok? && CalculateHostFee(p, gross).value as real == p.value
  {
    FixedTaken(p, gross);
    RoundBetween(p.rounding, p.value, p.value.Floor, p.value.Floor);
  }

  /** A free policy, or a price that is not positive, costs nothing, whatever the bounds. */
  lemma NoFee(p: FeePolicy, gross: int)
    requires ValidPolicy(p) && (p.kind == "free" || gross <= 0)
    ensures CalculateHostFee(p, gross) == Ok(0)
  {
  }

  /** A bound counts only when the fee without bounds violates it, and is then the fee. */
  lemma FeeMeetsSpec(p: FeePolicy, gross: int)
    requires ValidPolicy(p) && gross > 0 && p.kind != "free"
    ensures CalculateHostFee(p, gross).Ok? && CalculateHostFee(Unbounded(p), gross).Ok?
    ensures var fee, unbounded := CalculateHostFee(p, gross).value, CalculateHostFee(Unbounded(p), gross).value;
            && fee >= 0
            && (p.minFee.Some? ==> p.minFee.value <= fee)
            && (p.maxFee.Some? ==> fee <= p.maxFee.value)
            && (fee < unbounded ==> p.maxFee == Some(fee))
            && (fee > unbounded ==> p.minFee == Some(fee))
  {
    UnboundedStaysValid(p);
    assert RawFee(Unbounded(p), gross) == RawFee(p, gross);
  }

  lemma UnboundedStaysValid(p: FeePolicy)
    requires ValidPolicy(p)
    ensures ValidPolicy(Unbounded(p))
  {
  }

  /** The provider's cut of a price is its fortieth part, rounded to the nearest with a half going up; a negative
      price has none. */
  lemma ProviderFeeIs(gross: int)
    ensures gross >= 0 ==> -20 < 40 * ProviderFee(gross) - gross <= 20
    ensures gross < 0 ==> ProviderFee(gross) == 0
  {
  }

  // ---------- comparing fees ----------

  /** Only an invalid policy is refused, and no fee is negative. */
  lemma FeeTotal(p: FeePolicy, gross: int)
    ensures CalculateHostFee(p, gross).Ok? <==> ValidPolicy(p)
    ensures ValidPolicy(p) ==> CalculateHostFee(p, gross).value >= 0
  {
  }

  /** A dearer product never pays a smaller fee. */
  lemma {:induction false} FeeMonotone(p: FeePolicy, g: int, h: int)
    requires ValidPolicy(p) && g <= h
    ensures CalculateHostFee(p, g).value <= CalculateHostFee(p, h).value
  {
    FeeTotal(p, h);
    if g > 0 && p.kind != FREE {
      if p.kind == PERCENT {
        var share := p.value / 100.0;
        assert g as real * share <= h as real * share;
      }
      RoundMonotone(p.rounding, RawFee(p, g), RawFee(p, h));
    }
  }

  lemma RoundingAllowed(p: FeePolicy, rule: string, gross: int)
    requires ValidPolicy(p) && rule in {FLOOR, NEAREST, CEIL}
    ensures ValidPolicy(p.(rounding := rule))
    ensures CalculateHostFee(p.(rounding := rule), gross)
         == Ok(if gross <= 0 || p.kind == FREE then 0 else Clamp(p, Round(rule, RawFee(p, gross))))
  {
    var q := p.(rounding := rule);
    assert PolicyError(q).None?;
    assert RawFee(q, gross) == RawFee(p, gross);
  }

  lemma ClampKeepsOrder(p: FeePolicy, a: int, b: int)
    requires ValidPolicy(p) && a <= b <= a + 1
    ensures Clamp(p, a) <= Clamp(p, b) <= Clamp(p, a) + 1
  {
  }

  /** Of three policies that differ in rounding alone, the floor fee is least and the ceiling fee
      greatest, by at most one. */
  lemma {:induction false} FeeOrderedByRounding(p: FeePolicy, gross: int)
    requires ValidPolicy(p)
    ensures var floor := CalculateHostFee(p.(rounding := FLOOR), gross);
            var nearest := CalculateHostFee(p.(rounding := NEAREST), gross);
            var ceil := CalculateHostFee(p.(rounding := CEIL), gross);
            && floor.Ok? && nearest.Ok? && ceil.Ok?
            && floor.value <= nearest.value <= ceil.value <= floor.value + 1
  {
    RoundingAllowed(p, FLOOR, gross);
    RoundingAllowed(p, NEAREST, gross);
    RoundingAllowed(p, CEIL, gross);
    var raw := RawFee(p, gross);
    RoundingsOrdered(raw);
    ClampKeepsOrder(p, Round(FLOOR, raw), Round(NEAREST, raw));
    ClampKeepsOrder(p, Round(NEAREST, raw), Round(CEIL, raw));
    ClampKeepsOrder(p, Round(FLOOR, raw), Round(CEIL, raw));
  }

  /** A percent fee exceeds the gross amount exactly when MinFee does. */
  lemma {:induction false} PercentFeeWithinGross(p: FeePolicy, gross: int)
    requires ValidPolicy(p) && p.kind == PERCENT && gross > 0
    ensures CalculateHostFee(p, gross).value > gross <==> p.minFee.Some? && p.minFee.value > gross
  {
    PercentOf(p, gross);
    RoundBetween(p.rounding, RawFee(p, gross), 0, gross);
    assert p.kind[0] != FREE[0];
  }
}
