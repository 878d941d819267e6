/** What the risk arithmetic guarantees in spite of its floors, casts and cut-offs. */
module RiskProperties {
  import opened Shared
  import opened RiskMath

  /** The value of a deposit, with its defining bounds. */
  lemma ValueBounds(collateral: i128, price: PriceData)
    requires collateral >= 0 && CollateralValue(collateral, price).Ok?
    ensures price.price > 0
    ensures var value := CollateralValue(collateral, price).value;
            var scale := Pow10(price.decimals);
            value * scale <= collateral * price.price < value * scale + scale
  {
    FloorBounds(collateral * price.price, Pow10(price.decimals));
  }

  lemma ValueDefined(collateral: i128, price: PriceData)
    requires collateral >= 0
    ensures var scale := Pow10(price.decimals);
            var defined := price.price > 0 && scale <= U128_MAX && collateral * price.price <= U128_MAX;
            && CollateralValue(collateral, price).Ok? == defined
            && (defined ==> CollateralValue(collateral, price).value == collateral * price.price / scale)
  {
  }

  lemma HealthFactorDefined(collateral: i128, debt: i128, thresholdBps: u32, price: PriceData)
    requires debt > 0
    ensures HealthFactor(collateral, debt, thresholdBps, price).Ok?
       <==> CollateralValue(collateral, price).Ok?
            && CollateralValue(collateral, price).value * thresholdBps <= U128_MAX
  {
  }

  /** The u32 cut-off changes no comparison: banding by health factor is exact. */
  lemma HealthFactorBand(collateral: i128, debt: i128, thresholdBps: u32, price: PriceData, bound: u32)
    requires debt > 0
    requires HealthFactor(collateral, debt, thresholdBps, price).Ok?
    ensures CollateralValue(collateral, price).Ok?
    ensures HealthFactor(collateral, debt, thresholdBps, price).value >= bound
       <==> CollateralValue(collateral, price).value * thresholdBps >= bound * debt
  {
    var value := CollateralValue(collateral, price).value;
    if value == 0 {
      assert bound > 0 ==> bound * debt > 0;
    } else {
      var a := value * thresholdBps;
      if a >= bound * debt {
        FloorAtLeast(a, debt, bound);
      } else {
        FloorAtMost(a, debt, bound - 1);
      }
    }
  }

  /** The LTV gate is exact as well: neither its floor nor its cut-off changes a comparison. */
  lemma LoanToValueBand(collateral: i128, debt: i128, price: PriceData, bound: u32)
    requires debt >= 0 && bound < U32_MAX
    requires LoanToValue(collateral, debt, price).Ok?
    ensures CollateralValue(collateral, price).Ok?
    ensures LoanToValue(collateral, debt, price).value <= bound
       <==> debt * BPS_DENOMINATOR < (bound + 1) * CollateralValue(collateral, price).value
  {
    var value := CollateralValue(collateral, price).value;
    if value > 0 {
      var a := debt * BPS_DENOMINATOR;
      if a < (bound + 1) * value {
        FloorAtMost(a, value, bound);
      } else {
        FloorAtLeast(a, value, bound + 1);
      }
    }
  }

  /**
   * The health factor never exceeds the exact ratio
   * collateral * price * threshold / (10^decimals * debt), and unless it was cut off it
   * falls short of it by less than 1 + threshold / debt. Both are stated cross-multiplied.
   */
  lemma HealthFactorFidelity(collateral: i128, debt: i128, thresholdBps: u32, price: PriceData)
    requires collateral >= 0 && debt > 0
    requires HealthFactor(collateral, debt, thresholdBps, price).Ok?
    ensures var hf := HealthFactor(collateral, debt, thresholdBps, price).value;
            var exact := collateral * price.price * thresholdBps;
            var scale := Pow10(price.decimals);
            && hf * debt * scale <= exact
            && (hf < U32_MAX ==> exact <= (hf + 1) * debt * scale + thresholdBps * scale)
            && (hf < U32_MAX && thresholdBps > 0 ==> exact < (hf + 1) * debt * scale + thresholdBps * scale)
  {
    var hf := HealthFactor(collateral, debt, thresholdBps, price).value;
    ValueBounds(collateral, price);
    HealthFactorBand(collateral, debt, thresholdBps, price, hf);
    if hf < U32_MAX {
      HealthFactorBand(collateral, debt, thresholdBps, price, hf + 1);
    }
    var value := CollateralValue(collateral, price).value;
    NestedFloors(collateral * price.price, Pow10(price.decimals), value, thresholdBps, debt, hf);
  }

  /** Two floors in a row: value = floor(x / scale), then factor = floor(value * weight / divisor). */
  lemma NestedFloors(x: int, scale: int, value: int, weight: int, divisor: int, factor: int)
    requires scale > 0 && weight >= 0
    requires value * scale <= x < value * scale + scale
    requires factor * divisor <= value * weight
    ensures factor * divisor * scale <= x * weight
    ensures value * weight < (factor + 1) * divisor ==> x * weight <= (factor + 1) * divisor * scale + weight * scale
    ensures value * weight < (factor + 1) * divisor && weight > 0 ==>
              x * weight < (factor + 1) * divisor * scale + weight * scale
  {
    FloorsBelow(x, scale, value, weight, factor * divisor);
    if value * weight < (factor + 1) * divisor {
      FloorsAbove(x, scale, value, weight, (factor + 1) * divisor);
    }
  }

  lemma FloorsBelow(x: int, scale: int, value: int, weight: int, bottom: int)
    requires scale > 0 && weight >= 0 && value * scale <= x && bottom <= value * weight
    ensures bottom * scale <= x * weight
  {
    ScaleUp(bottom, value * weight, scale);
    ScaleUp(value * scale, x, weight);
    MulSwap(value, weight, scale);
  }

  lemma FloorsAbove(x: int, scale: int, value: int, weight: int, top: int)
    requires scale > 0 && weight >= 0 && x < value * scale + scale && value * weight < top
    ensures x * weight <= top * scale + weight * scale
    ensures weight > 0 ==> x * weight < top * scale + weight * scale
  {
    ScaleUp(value * weight, top, scale);
    ScaleUp(x, value * scale + scale, weight);
    Distribute(value * scale, scale, weight);
    MulSwap(value, weight, scale);
  }

  lemma MulSwap(a: int, b: int, c: int)
    ensures a * b * c == a * c * b
  {
  }

  lemma Distribute(a: int, b: int, c: int)
    ensures (a + b) * c == a * c + b * c
  {
  }

  lemma ScaleUp(a: int, b: int, c: int)
    requires a <= b && c >= 0
    ensures a * c <= b * c
    ensures a < b && c > 0 ==> a * c < b * c
  {
  }

  /** Health factor falls with the debt and rises with the value of the collateral. */
  lemma HealthFactorMonotone(
    c1: i128, d1: i128, p1: PriceData, c2: i128, d2: i128, p2: PriceData, thresholdBps: u32)
    requires d1 > 0 && d2 > 0
    requires HealthFactor(c1, d1, thresholdBps, p1).Ok? && HealthFactor(c2, d2, thresholdBps, p2).Ok?
    requires CollateralValue(c2, p2).value * d1 >= CollateralValue(c1, p1).value * d2
    ensures HealthFactor(c2, d2, thresholdBps, p2).value >= HealthFactor(c1, d1, thresholdBps, p1).value
  {
    var hf := HealthFactor(c1, d1, thresholdBps, p1).value;
    HealthFactorBand(c1, d1, thresholdBps, p1, hf);
    CrossRatio(CollateralValue(c1, p1).value, d1, CollateralValue(c2, p2).value, d2, thresholdBps, hf);
    HealthFactorBand(c2, d2, thresholdBps, p2, hf);
  }

  lemma CrossRatio(v1: int, d1: int, v2: int, d2: int, weight: int, bound: int)
    requires d1 > 0 && d2 > 0 && weight >= 0
    requires v2 * d1 >= v1 * d2 && v1 * weight >= bound * d1
    ensures v2 * weight >= bound * d2
  {
    ScaleUp(v1 * d2, v2 * d1, weight);
    ScaleUp(bound * d1, v1 * weight, d2);
    MulSwap(v1, d2, weight);
    MulSwap(v2, d1, weight);
    MulSwap(bound, d1, d2);
    CancelFactor(bound * d2, v2 * weight, d1);
  }

  lemma CancelFactor(a: int, b: int, c: int)
    requires c > 0 && a * c <= b * c
    ensures a <= b
  {
    if a > b {
      ScaleUp(b, a, c);
      assert false;
    }
  }

  /**
   * The gate at activation protects the borrower: if the factor was at least 14000 and the
   * collateral has kept 6/7 of its value while the debt has not grown, it is still at least 12000.
   */
  lemma SixSeventhsKeepsTrigger(
    c1: i128, d1: i128, p1: PriceData, c2: i128, d2: i128, p2: PriceData, thresholdBps: u32)
    requires 0 < d2 <= d1
    requires HealthFactor(c1, d1, thresholdBps, p1).Ok? && HealthFactor(c2, d2, thresholdBps, p2).Ok?
    requires HealthFactor(c1, d1, thresholdBps, p1).value >= SAFE_HEALTH_FACTOR_BPS
    requires 7 * CollateralValue(c2, p2).value >= 6 * CollateralValue(c1, p1).value
    ensures HealthFactor(c2, d2, thresholdBps, p2).value >= LIQUIDATION_HEALTH_FACTOR_BPS
  {
    var v1, v2 := CollateralValue(c1, p1).value, CollateralValue(c2, p2).value;
    HealthFactorBand(c1, d1, thresholdBps, p1, SAFE_HEALTH_FACTOR_BPS);
    KeepsSixSevenths(v1, v2, d1, d2, thresholdBps);
    HealthFactorBand(c2, d2, thresholdBps, p2, LIQUIDATION_HEALTH_FACTOR_BPS);
  }

  lemma KeepsSixSevenths(v1: int, v2: int, d1: int, d2: int, weight: int)
    requires 0 < d2 <= d1 && weight >= 0 && 7 * v2 >= 6 * v1
    requires v1 * weight >= 14_000 * d1
    ensures v2 * weight >= 12_000 * d2
  {
    ScaleUp(6 * v1, 7 * v2, weight);
    assert 6 * v1 * weight == 6 * (v1 * weight);
    assert 7 * v2 * weight == 7 * (v2 * weight);
  }

  // Seizure

  /** Repayment plus bonus, floored to whole units of the loan asset. */
  function WithBonus(repay: nat, bonusBps: u32): nat {
    repay * (BPS_DENOMINATOR + bonusBps) / BPS_DENOMINATOR
  }

  /** Seized collateral is worth at most the repayment plus bonus, before and after its floor. */
  lemma SeizeBounds(repay: i128, bonusBps: u32, price: PriceData)
    requires repay >= 0 && SeizeCollateral(repay, bonusBps, price).Ok?
    ensures price.price > 0
    ensures var seized := SeizeCollateral(repay, bonusBps, price).value;
            var scale := Pow10(price.decimals);
            && seized >= 0
            && seized == WithBonus(repay, bonusBps) * scale / price.price
            && seized * price.price <= WithBonus(repay, bonusBps) * scale
            && BPS_DENOMINATOR * WithBonus(repay, bonusBps) <= repay * (BPS_DENOMINATOR + bonusBps)
            && BPS_DENOMINATOR * (seized * price.price) <= repay * (BPS_DENOMINATOR + bonusBps) * scale
  {
    var scale := Pow10(price.decimals);
    var bonus := WithBonus(repay, bonusBps);
    FloorBounds(bonus * scale, price.price);
    FloorBounds(repay * (BPS_DENOMINATOR + bonusBps), BPS_DENOMINATOR);
    ScaleUp(BPS_DENOMINATOR * bonus, repay * (BPS_DENOMINATOR + bonusBps), scale);
  }

  /**
   * Every repayment that the close factor allows can be matched with collateral, if the bonus
   * passed the Marketplace's check and the collateral is worth three quarters of the debt.
   */
  lemma SeizureNeverShort(collateral: i128, debt: i128, bonusBps: u32, price: PriceData, repay: i128)
    requires collateral >= 0 && bonusBps <= 5_000
    requires CollateralValue(collateral, price).Ok?
    requires 4 * CollateralValue(collateral, price).value >= 3 * debt
    requires CloseFactorLimit(debt).Ok? && debt >= 0
    requires 0 <= repay <= CloseFactorLimit(debt).value
    requires SeizeCollateral(repay, bonusBps, price).Ok?
    ensures SeizeCollateral(repay, bonusBps, price).value <= collateral
  {
    var value := CollateralValue(collateral, price).value;
    var scale := Pow10(price.decimals);
    var bonus := WithBonus(repay, bonusBps);
    ValueBounds(collateral, price);
    SeizeBounds(repay, bonusBps, price);
    CloseFactorIsHalf(debt);
    ScaleUp(BPS_DENOMINATOR + bonusBps, 15_000, repay);
    assert bonus <= value;
    ScaleUp(bonus, value, scale);
    FloorAtMost(bonus * scale, price.price, collateral);
  }

  /** Splitting a liquidation in two never seizes more, through both nested floors. */
  lemma SplitSeizure(r1: i128, r2: i128, bonusBps: u32, price: PriceData)
    requires r1 >= 0 && r2 >= 0 && r1 + r2 <= I128_MAX
    requires SeizeCollateral(r1, bonusBps, price).Ok? && SeizeCollateral(r2, bonusBps, price).Ok?
    requires SeizeCollateral(r1 + r2, bonusBps, price).Ok?
    ensures SeizeCollateral(r1, bonusBps, price).value + SeizeCollateral(r2, bonusBps, price).value
         <= SeizeCollateral(r1 + r2, bonusBps, price).value
  {
    SeizeBounds(r1, bonusBps, price);
    SeizeBounds(r2, bonusBps, price);
    SeizeBounds(r1 + r2, bonusBps, price);
    SplitBonus(r1, r2, BPS_DENOMINATOR + bonusBps);
    SplitFloor(WithBonus(r1, bonusBps), WithBonus(r2, bonusBps), WithBonus(r1 + r2, bonusBps),
               Pow10(price.decimals), price.price);
  }

  lemma SplitBonus(r1: nat, r2: nat, factor: nat)
    ensures r1 * factor / BPS_DENOMINATOR + r2 * factor / BPS_DENOMINATOR <= (r1 + r2) * factor / BPS_DENOMINATOR
  {
    assert (r1 + r2) * factor == r1 * factor + r2 * factor;
    FloorSum(r1 * factor, r2 * factor, BPS_DENOMINATOR);
  }

  lemma SplitFloor(b1: nat, b2: nat, b: nat, scale: nat, divisor: nat)
    requires b1 + b2 <= b && divisor > 0
    ensures b1 * scale / divisor + b2 * scale / divisor <= b * scale / divisor
  {
    FloorSum(b1 * scale, b2 * scale, divisor);
    assert b1 * scale + b2 * scale == (b1 + b2) * scale;
    ScaleUp(b1 + b2, b, scale);
    FloorMonotone((b1 + b2) * scale, b * scale, divisor);
  }

  /** Interest on two principals falls short of the interest on their sum by at most one unit. */
  lemma SplitInterest(p1: i128, p2: i128, aprBps: u32, days: u32)
    requires p1 >= 0 && p2 >= 0 && p1 + p2 <= I128_MAX
    requires PrincipalWithInterest(p1, aprBps, days).Ok? && PrincipalWithInterest(p2, aprBps, days).Ok?
    requires PrincipalWithInterest(p1 + p2, aprBps, days).Ok?
    ensures var apart := PrincipalWithInterest(p1, aprBps, days).value + PrincipalWithInterest(p2, aprBps, days).value;
            var together := PrincipalWithInterest(p1 + p2, aprBps, days).value;
            apart <= together <= apart + 1
  {
    InterestValue(p1, aprBps, days);
    InterestValue(p2, aprBps, days);
    InterestValue(p1 + p2, aprBps, days);
    SplitProduct(p1, p2, aprBps, days);
    FloorSum(p1 * aprBps * days, p2 * aprBps * days, 365 * BPS_DENOMINATOR);
  }

  lemma InterestValue(principal: i128, aprBps: u32, days: u32)
    requires principal >= 0 && PrincipalWithInterest(principal, aprBps, days).Ok?
    ensures PrincipalWithInterest(principal, aprBps, days).value
         == principal + principal * aprBps * days / (365 * BPS_DENOMINATOR)
  {
  }

  lemma SplitProduct(a: nat, b: nat, c: nat, d: nat)
    ensures (a + b) * c * d == a * c * d + b * c * d
  {
    assert (a + b) * c == a * c + b * c;
  }

  /** Interest is never negative, so a loan's debt starts at its principal or above. */
  lemma InterestNonNegative(principal: i128, aprBps: u32, days: u32)
    requires principal >= 0 && PrincipalWithInterest(principal, aprBps, days).Ok?
    ensures PrincipalWithInterest(principal, aprBps, days).value >= principal
  {
  }

  // Liquidation

  /** The close factor is one half, rounded down: some debt always remains. */
  lemma CloseFactorIsHalf(debt: i128)
    requires debt >= 0 && CloseFactorLimit(debt).Ok?
    ensures CloseFactorLimit(debt).value == debt / 2
  {
  }

  /** Collateral covers the debt together with the liquidation bonus. */
  predicate Covered(value: nat, debt: int, bonusBps: u32) {
    BPS_DENOMINATOR * value >= debt * (BPS_DENOMINATOR + bonusBps)
  }

  /** Seizing takes no more value than repayment plus bonus, whatever the floors do. */
  lemma SeizureKeepsValue(collateral: i128, repay: i128, bonusBps: u32, price: PriceData, left: i128)
    requires left >= 0 && repay >= 0 && collateral >= 0
    requires CollateralValue(collateral, price).Ok? && SeizeCollateral(repay, bonusBps, price).Ok?
    requires left == collateral - SeizeCollateral(repay, bonusBps, price).value
    ensures CollateralValue(left, price).Ok?
    ensures CollateralValue(left, price).value <= CollateralValue(collateral, price).value
    ensures CollateralValue(left, price).value
         >= CollateralValue(collateral, price).value - WithBonus(repay, bonusBps)
  {
    ValueBounds(collateral, price);
    SeizeBounds(repay, bonusBps, price);
    ValueDefined(collateral, price);
    ValueDefined(left, price);
    FloorAfterSeizure(collateral, collateral - left, price.price, Pow10(price.decimals), WithBonus(repay, bonusBps));
  }

  lemma FloorAfterSeizure(collateral: nat, seized: nat, price: nat, scale: nat, bonus: nat)
    requires scale > 0 && seized <= collateral && seized * price <= bonus * scale
    ensures 0 <= (collateral - seized) * price <= collateral * price
    ensures (collateral - seized) * price / scale <= collateral * price / scale
    ensures (collateral - seized) * price / scale >= collateral * price / scale - bonus
  {
    var left := collateral - seized;
    var value := collateral * price / scale;
    assert left * price == collateral * price - seized * price;
    ScaleUp(left, collateral, price);
    FloorMonotone(left * price, collateral * price, scale);
    FloorBounds(collateral * price, scale);
    assert (value - bonus) * scale == scale * value - bonus * scale;
    FloorAtLeast(left * price, scale, value - bonus);
  }

  /** On a covered loan a liquidation keeps the cover and does not lower the health factor. */
  lemma LiquidationKeepsCover(
    collateral: i128, debt: i128, thresholdBps: u32, bonusBps: u32, price: PriceData, repay: i128, left: i128)
    requires left >= 0 && collateral >= 0 && 0 < repay < debt
    requires HealthFactor(collateral, debt, thresholdBps, price).Ok?
    requires SeizeCollateral(repay, bonusBps, price).Ok?
    requires left == collateral - SeizeCollateral(repay, bonusBps, price).value
    requires CollateralValue(collateral, price).Ok?
    requires Covered(CollateralValue(collateral, price).value, debt, bonusBps)
    ensures CollateralValue(left, price).Ok?
    ensures Covered(CollateralValue(left, price).value, debt - repay, bonusBps)
    ensures CollateralValue(left, price).value * debt >= CollateralValue(collateral, price).value * (debt - repay)
    ensures HealthFactor(left, debt - repay, thresholdBps, price).Ok?
    ensures HealthFactor(left, debt - repay, thresholdBps, price).value
         >= HealthFactor(collateral, debt, thresholdBps, price).value
  {
    SeizureKeepsValue(collateral, repay, bonusBps, price, left);
    SeizeBounds(repay, bonusBps, price);
    var v1, v2 := CollateralValue(collateral, price).value, CollateralValue(left, price).value;
    CoverAfterRepay(v1, v2, debt, repay, BPS_DENOMINATOR + bonusBps, WithBonus(repay, bonusBps));
    HealthFactorDefined(collateral, debt, thresholdBps, price);
    HealthFactorDefined(left, debt - repay, thresholdBps, price);
    ScaleUp(v2, v1, thresholdBps);
    HealthFactorMonotone(collateral, debt, price, left, debt - repay, price, thresholdBps);
  }

  lemma CoverAfterRepay(v1: int, v2: int, debt: int, repay: int, factor: int, bonus: int)
    requires 0 < repay < debt && v2 >= v1 - bonus
    requires 10_000 * v1 >= debt * factor && 10_000 * bonus <= repay * factor
    ensures 10_000 * v2 >= (debt - repay) * factor
    ensures v2 * debt >= v1 * (debt - repay)
  {
    assert (debt - repay) * factor == debt * factor - repay * factor;
    ScaleUp(10_000 * bonus, repay * factor, debt);
    ScaleUp(debt * factor, 10_000 * v1, repay);
    assert repay * factor * debt == debt * factor * repay;
    assert 10_000 * bonus * debt == 10_000 * (bonus * debt);
    assert 10_000 * v1 * repay == 10_000 * (v1 * repay);
    ScaleUp(v1 - bonus, v2, debt);
    assert (v1 - bonus) * debt == v1 * debt - bonus * debt;
    assert v1 * (debt - repay) == v1 * debt - v1 * repay;
  }

  /**
   * The cover is the exact condition where the floors lose nothing: there the ratio of value to
   * debt does not fall if and only if the loan was covered.
   */
  lemma CoverIsExact(collateral: i128, debt: i128, bonusBps: u32, price: PriceData, repay: i128, left: i128)
    requires left >= 0 && collateral >= 0 && 0 < repay < debt
    requires CollateralValue(collateral, price).Ok? && SeizeCollateral(repay, bonusBps, price).Ok?
    requires left == collateral - SeizeCollateral(repay, bonusBps, price).value
    requires price.price > 0
    requires (collateral - left) * price.price == WithBonus(repay, bonusBps) * Pow10(price.decimals)
    requires BPS_DENOMINATOR * WithBonus(repay, bonusBps) == repay * (BPS_DENOMINATOR + bonusBps)
    ensures CollateralValue(left, price).Ok?
    ensures CollateralValue(left, price).value * debt >= CollateralValue(collateral, price).value * (debt - repay)
       <==> Covered(CollateralValue(collateral, price).value, debt, bonusBps)
  {
    var v1, bonus := CollateralValue(collateral, price).value, WithBonus(repay, bonusBps);
    SeizureKeepsValue(collateral, repay, bonusBps, price, left);
    ValueBounds(collateral, price);
    ValueBounds(left, price);
    ExactFloor(collateral, left, price.price, Pow10(price.decimals), bonus, v1, CollateralValue(left, price).value);
    RatioFalls(v1, debt, repay, BPS_DENOMINATOR + bonusBps, bonus);
  }

  lemma ExactFloor(collateral: int, left: int, price: int, scale: int, bonus: int, v1: int, v2: int)
    requires scale > 0 && (collateral - left) * price == bonus * scale
    requires v1 * scale <= collateral * price < v1 * scale + scale
    requires v2 * scale <= left * price < v2 * scale + scale
    ensures v2 == v1 - bonus
  {
    assert (collateral - left) * price == collateral * price - left * price;
    assert (v1 - bonus) * scale == v1 * scale - bonus * scale;
    SameFloor(v2, v1 - bonus, scale, left * price);
  }

  lemma SameFloor(a: int, b: int, scale: int, x: int)
    requires scale > 0
    requires a * scale <= x < a * scale + scale && b * scale <= x < b * scale + scale
    ensures a == b
  {
    if a < b {
      ScaleUp(a + 1, b, scale);
    } else if b < a {
      ScaleUp(b + 1, a, scale);
    }
  }

  lemma RatioFalls(value: int, debt: int, repay: int, factor: int, bonus: int)
    requires 0 < repay < debt && 10_000 * bonus == repay * factor
    ensures (value - bonus) * debt >= value * (debt - repay) <==> 10_000 * value >= debt * factor
  {
    assert (value - bonus) * debt == value * debt - bonus * debt;
    assert value * (debt - repay) == value * debt - value * repay;
    assert 10_000 * bonus * debt == 10_000 * (bonus * debt);
    assert repay * factor * debt == debt * factor * repay;
    assert 10_000 * value * repay == 10_000 * (value * repay);
    if 10_000 * value >= debt * factor {
      ScaleUp(debt * factor, 10_000 * value, repay);
    } else {
      ScaleUp(10_000 * value, debt * factor, repay);
    }
  }

  /**
   * The cover is missing by more than the floors can make up: value times repayment, plus two
   * units of value and one of price for each unit of debt, stays below repayment plus bonus on the
   * whole debt. All sides are scaled by 10^decimals and by basis points.
   */
  predicate ClearlyUncovered(value: nat, debt: int, bonusBps: u32, price: PriceData, repay: int) {
    var scale := Pow10(price.decimals);
    BPS_DENOMINATOR * value * repay * scale + BPS_DENOMINATOR * (2 * scale + price.price) * debt
    <= repay * (BPS_DENOMINATOR + bonusBps) * debt * scale
  }

  /** For all inputs: a liquidation of a clearly uncovered loan lowers the ratio of value to debt. */
  lemma UncoveredLiquidationLowersRatio(
    collateral: i128, debt: i128, bonusBps: u32, price: PriceData, repay: i128, left: i128)
    requires left >= 0 && collateral >= 0 && 0 < repay < debt
    requires CollateralValue(collateral, price).Ok? && SeizeCollateral(repay, bonusBps, price).Ok?
    requires left == collateral - SeizeCollateral(repay, bonusBps, price).value
    requires ClearlyUncovered(CollateralValue(collateral, price).value, debt, bonusBps, price, repay)
    ensures CollateralValue(left, price).Ok?
    ensures CollateralValue(left, price).value * debt < CollateralValue(collateral, price).value * (debt - repay)
  {
    var v1, bonus, scale := CollateralValue(collateral, price).value, WithBonus(repay, bonusBps), Pow10(price.decimals);
    SeizureKeepsValue(collateral, repay, bonusBps, price, left);
    SeizeBounds(repay, bonusBps, price);
    ValueBounds(collateral, price);
    ValueBounds(left, price);
    FloorBounds(bonus * scale, price.price);
    FloorBounds(repay * (BPS_DENOMINATOR + bonusBps), BPS_DENOMINATOR);
    var v2 := CollateralValue(left, price).value;
    ValueAfterSeizure(collateral, collateral - left, price.price, scale, bonus, v1, v2);
    SlackLowersRatio(v1, v2, debt, repay, BPS_DENOMINATOR + bonusBps, bonus, price.price, scale);
  }

  lemma ValueAfterSeizure(collateral: int, seized: int, price: int, scale: int, bonus: int, v1: int, v2: int)
    requires scale > 0 && bonus * scale < price * seized + price
    requires collateral * price < v1 * scale + scale && v2 * scale <= (collateral - seized) * price
    ensures v2 * scale < v1 * scale + scale + price - bonus * scale
  {
    assert (collateral - seized) * price == collateral * price - seized * price;
  }

  lemma SlackLowersRatio(
    v1: int, v2: int, debt: int, repay: int, factor: int, bonus: int, price: int, scale: int)
    requires 0 < repay < debt && scale > 0 && repay * factor < 10_000 * bonus + 10_000
    requires v2 * scale < v1 * scale + scale + price - bonus * scale
    requires 10_000 * v1 * repay * scale + 10_000 * (2 * scale + price) * debt <= repay * factor * debt * scale
    ensures v2 * debt < v1 * (debt - repay)
  {
    var paid := repay * factor;
    ScaleUp(paid, 10_000 * bonus + 10_000, scale);
    assert 10_000 * (bonus * scale) == 10_000 * bonus * scale;
    var fall := 10_000 * (2 * scale + price) - paid * scale;
    assert 10_000 * (v2 * scale) < 10_000 * (v1 * scale) + fall;
    ScaleUp(10_000 * (v2 * scale), 10_000 * (v1 * scale) + fall, debt);
    SlackIdentity(v1, debt, repay, scale, paid, fall, price);
    var k := 10_000 * scale;
    assert v2 * debt * k == 10_000 * (v2 * scale) * debt;
    assert v2 * debt * k < v1 * (debt - repay) * k;
    if v2 * debt >= v1 * (debt - repay) {
      ScaleUp(v1 * (debt - repay), v2 * debt, k);
      assert false;
    }
  }

  lemma SlackIdentity(v1: int, debt: int, repay: int, scale: int, paid: int, fall: int, price: int)
    requires fall == 10_000 * (2 * scale + price) - paid * scale
    requires 10_000 * v1 * repay * scale + 10_000 * (2 * scale + price) * debt <= paid * debt * scale
    ensures (10_000 * (v1 * scale) + fall) * debt <= v1 * (debt - repay) * (10_000 * scale)
  {
    assert fall * debt == 10_000 * (2 * scale + price) * debt - paid * scale * debt;
    assert paid * scale * debt == paid * debt * scale;
    assert (10_000 * (v1 * scale) + fall) * debt == 10_000 * (v1 * scale) * debt + fall * debt;
    assert v1 * (debt - repay) * (10_000 * scale) == v1 * debt * (10_000 * scale) - v1 * repay * (10_000 * scale);
    assert v1 * debt * (10_000 * scale) == 10_000 * (v1 * scale) * debt;
    assert v1 * repay * (10_000 * scale) == 10_000 * v1 * repay * scale;
  }

  /** Halving, rounded up, as often as a run of largest liquidations does it. */
  function HalveUp(debt: nat, times: nat): nat {
    if times == 0 then debt else HalveUp(debt - debt / 2, times - 1)
  }

  lemma {:induction false} HalveUpStep(debt: nat, times: nat)
    ensures HalveUp(debt, times + 1) == HalveUp(debt, times) - HalveUp(debt, times) / 2
    decreases times
  {
    if times > 0 {
      HalveUpStep(debt - debt / 2, times - 1);
    }
  }

  lemma {:induction false} HalveUpMonotone(a: nat, b: nat, times: nat)
    requires a <= b
    ensures HalveUp(a, times) <= HalveUp(b, times)
    decreases times
  {
    if times > 0 {
      HalveUpMonotone(a - a / 2, b - b / 2, times - 1);
    }
  }

  function Pow2(n: nat): nat {
    if n == 0 then 1 else 2 * Pow2(n - 1)
  }

  /** Largest liquidations bring any debt to one unit within ceil(log2(debt)) steps, and no lower. */
  lemma {:induction false} HalvingReachesOne(debt: nat, times: nat)
    requires 1 <= debt <= Pow2(times)
    ensures HalveUp(debt, times) == 1
    decreases times
  {
    if times > 0 {
      HalvingReachesOne(debt - debt / 2, times - 1);
    }
  }

  /** One step fewer does not suffice: the bound of the previous lemma is exact. */
  lemma {:induction false} HalvingNeedsLog(debt: nat, times: nat)
    requires debt > Pow2(times)
    ensures HalveUp(debt, times) > 1
    decreases times
  {
    if times > 0 {
      HalvingNeedsLog(debt - debt / 2, times - 1);
    }
  }

  // Overflow

  const TWO_50 := 0x4_0000_0000_0000
  const TWO_63 := 0x8000_0000_0000_0000
  const TWO_64 := 0x1_0000_0000_0000_0000

  lemma ProductBound(a: nat, b: nat, aMax: nat, bMax: nat)
    requires a <= aMax && b <= bMax
    ensures a * b <= aMax * bMax
  {
    ScaleUp(a, aMax, b);
    ScaleUp(b, bMax, aMax);
  }

  /** A price the Oracle accepts, at most 2^50. */
  predicate BoundedPrice(price: PriceData) {
    0 < price.price <= TWO_50 && price.decimals <= 18
  }

  /** A loan of at most 2^63 over at most five years never doubles, and its debt is computed. */
  lemma InterestNeverOverflows(principal: i128, aprBps: u32, days: u32)
    requires 0 <= principal <= TWO_63 && aprBps <= MAX_FIXED_APR_BPS && days <= 1_825
    ensures PrincipalWithInterest(principal, aprBps, days).Ok?
    ensures principal <= PrincipalWithInterest(principal, aprBps, days).value <= 2 * principal
  {
    ProductBound(principal, aprBps, TWO_63, MAX_FIXED_APR_BPS);
    ProductBound(principal * aprBps, days, TWO_63 * MAX_FIXED_APR_BPS, 1_825);
    InterestWithinPrincipal(principal, aprBps, days);
  }

  /** Five years at 20% double a debt, and no shorter or cheaper loan does more. */
  lemma InterestWithinPrincipal(principal: nat, rate: nat, days: nat)
    requires rate <= MAX_FIXED_APR_BPS && days <= 1_825
    ensures principal * rate * days / (365 * BPS_DENOMINATOR) <= principal
  {
    ScaleUp(rate, MAX_FIXED_APR_BPS, principal);
    ScaleUp(principal * rate, principal * MAX_FIXED_APR_BPS, days);
    ScaleUp(days, 1_825, principal * MAX_FIXED_APR_BPS);
    FloorAtMost(principal * rate * days, 365 * BPS_DENOMINATOR, principal);
  }

  /** Within the bounds every risk computation succeeds. */
  lemma RiskNeverOverflows(collateral: i128, debt: i128, thresholdBps: u32, price: PriceData)
    requires 0 <= collateral <= TWO_64 && 0 < debt <= TWO_64 && thresholdBps <= BPS_DENOMINATOR
    requires BoundedPrice(price)
    ensures CollateralValue(collateral, price).Ok?
    ensures HealthFactor(collateral, debt, thresholdBps, price).Ok?
    ensures LoanToValue(collateral, debt, price).Ok?
    ensures CloseFactorLimit(debt).Ok?
  {
    Pow10Monotone(price.decimals, 18);
    Pow10Of18();
    ProductBound(collateral, price.price, TWO_64, TWO_50);
    var value := CollateralValue(collateral, price).value;
    FloorAtMost(collateral * price.price, Pow10(price.decimals), TWO_64 * TWO_50) by {
      ScaleUp(1, Pow10(price.decimals), TWO_64 * TWO_50 + 1);
    }
    ProductBound(value, thresholdBps, TWO_64 * TWO_50, BPS_DENOMINATOR);
  }

  lemma SeizeNeverOverflows(repay: i128, bonusBps: u32, price: PriceData)
    requires 0 <= repay <= TWO_64 && bonusBps <= 5_000 && BoundedPrice(price)
    ensures SeizeCollateral(repay, bonusBps, price).Ok?
  {
    Pow10Monotone(price.decimals, 18);
    Pow10Of18();
    var scale := Pow10(price.decimals);
    ProductBound(repay, BPS_DENOMINATOR + bonusBps, TWO_64, 15_000);
    var bonus := WithBonus(repay, bonusBps);
    FloorMonotone(repay * (BPS_DENOMINATOR + bonusBps), TWO_64 * 15_000, BPS_DENOMINATOR);
    ProductBound(bonus, scale, 2 * TWO_64, 1_000_000_000_000_000_000);
    FloorAtMost(bonus * scale, price.price, 2 * TWO_64 * 1_000_000_000_000_000_000) by {
      ScaleUp(1, price.price, 2 * TWO_64 * 1_000_000_000_000_000_000 + 1);
    }
  }
}
