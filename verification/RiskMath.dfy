/** The Loan Manager's fixed-point arithmetic: basis points, decimal scales and floor division. */
module RiskMath {
  import opened Shared

  /** The cast from i128 to u128 keeps the bit pattern. */
  function AsU128(x: i128): nat {
    if x < 0 then x + U128_MAX + 1 else x
  }

  function Floor(a: nat, b: nat): nat
    requires b > 0
  {
    a / b
  }

  function Pow10(n: nat): (r: nat)
    ensures r >= 1
  {
    if n == 0 then 1 else 10 * Pow10(n - 1)
  }

  function CheckedPow10(decimals: u32): (r: Result<nat>)
    ensures r.Ok? ==> r.value >= 1
  {
    if Pow10(decimals) <= U128_MAX then Ok(Pow10(decimals)) else Err(Overflow)
  }

  function CheckedMul(a: nat, b: nat): Result<nat> {
    if a * b <= U128_MAX then Ok(a * b) else Err(Overflow)
  }

  function CheckedI128Add(a: i128, b: i128): Result<i128> {
    if -I128_MAX - 1 <= a + b <= I128_MAX then Ok(a + b) else Err(Overflow)
  }

  function CheckedToI128(value: nat): Result<i128> {
    if value <= I128_MAX then Ok(value) else Err(Overflow)
  }

  function CheckedU64Add(a: u64, b: u64): Result<u64> {
    if a + b <= U64_MAX then Ok(a + b) else Err(Overflow)
  }

  /** A product of a u32 and this constant always fits, so the check on it never fails. */
  function DaysToSeconds(days: u32): u64 {
    days * SECONDS_PER_DAY
  }

  /** A u128 cut off at the largest u32. */
  function SaturateU32(value: nat): u32 {
    if value > U32_MAX then U32_MAX else value
  }

  function PrincipalWithInterest(principal: i128, aprBps: u32, durationDays: u32): Result<i128> {
    var yearly :- CheckedMul(AsU128(principal), aprBps);
    var total :- CheckedMul(yearly, durationDays);
    // The quotient of a u128 by 3,650,000 always fits in an i128.
    CheckedI128Add(principal, total / (365 * BPS_DENOMINATOR))
  }

  function CollateralValue(collateral: i128, price: PriceData): Result<nat> {
    if price.price <= 0 then Err(PriceNotPositive)
    else
      var scale :- CheckedPow10(price.decimals);
      var product :- CheckedMul(AsU128(collateral), AsU128(price.price));
      Ok(Floor(product, scale))
  }

  function HealthFactor(collateral: i128, debt: i128, thresholdBps: u32, price: PriceData): Result<u32>
    requires debt > 0
  {
    var value :- CollateralValue(collateral, price);
    if value == 0 then Ok(0)
    else
      var numerator :- CheckedMul(value, thresholdBps);
      Ok(SaturateU32(numerator / AsU128(debt)))
  }

  function LoanToValue(collateral: i128, debt: i128, price: PriceData): Result<u32> {
    var value :- CollateralValue(collateral, price);
    if value == 0 then Ok(U32_MAX)
    else
      var numerator :- CheckedMul(AsU128(debt), BPS_DENOMINATOR);
      Ok(SaturateU32(numerator / value))
  }

  /** The largest repayment a single liquidation may make. */
  function CloseFactorLimit(debt: i128): Result<i128> {
    var product :- CheckedMul(AsU128(debt), CLOSE_FACTOR_BPS);
    CheckedToI128(product / BPS_DENOMINATOR)
  }

  function SeizeCollateral(repay: i128, bonusBps: u32, price: PriceData): (r: Result<i128>)
    ensures r.Ok? ==> r.value >= 0
  {
    if price.price <= 0 then Err(PriceNotPositive)
    else
      var scale :- CheckedPow10(price.decimals);
      var withBonus :- CheckedMul(AsU128(repay), BPS_DENOMINATOR + bonusBps);
      var scaled :- CheckedMul(withBonus / BPS_DENOMINATOR, scale);
      CheckedToI128(scaled / AsU128(price.price))
  }

  // Floor division

  lemma FloorBounds(a: nat, b: nat)
    requires b > 0
    ensures b * (a / b) <= a < b * (a / b) + b
  {
  }

  /** Floor division is the largest quotient: it bounds every other one from above and below. */
  lemma FloorAtLeast(a: nat, b: nat, q: int)
    requires b > 0 && q * b <= a
    ensures q <= a / b
  {
    FloorBounds(a, b);
    if q > a / b {
      MulMonotone(a / b + 1, q, b);
      assert false;
    }
  }

  lemma FloorAtMost(a: nat, b: nat, q: int)
    requires b > 0 && a < (q + 1) * b
    ensures a / b <= q
  {
    FloorBounds(a, b);
    if a / b > q {
      MulMonotone(q + 1, a / b, b);
      assert false;
    }
  }

  lemma MulMonotone(a: int, b: int, c: int)
    requires a <= b && c >= 0
    ensures a * c <= b * c
  {
  }

  lemma FloorMonotone(a: nat, b: nat, c: nat)
    requires c > 0 && a <= b
    ensures a / c <= b / c
  {
    FloorBounds(a, c);
    FloorAtLeast(b, c, a / c);
  }

  lemma FloorSum(a: nat, b: nat, c: nat)
    requires c > 0
    ensures a / c + b / c <= (a + b) / c <= a / c + b / c + 1
  {
    FloorBounds(a, c);
    FloorBounds(b, c);
    FloorAtLeast(a + b, c, a / c + b / c);
    FloorAtMost(a + b, c, a / c + b / c + 1);
  }

  lemma {:induction false} Pow10Monotone(m: nat, n: nat)
    requires m <= n
    ensures Pow10(m) <= Pow10(n)
  {
    if m < n {
      Pow10Monotone(m, n - 1);
    }
  }

  lemma Pow10Of18()
    ensures Pow10(18) == 1_000_000_000_000_000_000
  {
    assert Pow10(6) == 1_000_000;
    assert Pow10(12) == 1_000_000_000_000;
  }
}
