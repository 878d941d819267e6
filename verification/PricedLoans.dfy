/** The risk of a loan in terms of what is stored: the last price, its age, and the loan's own figures. */
module PricedLoans {
  import opened Shared
  import opened Oracle
  import opened RiskMath
  import opened RiskProperties
  import opened LoanManager

  /** The last price set for a loan's assets, whether or not it is still fresh. */
  function PriceOf(s: LendingState, loan: Loan): PriceData {
    if (loan.collateralAsset, loan.loanAsset) in s.prices then s.prices[(loan.collateralAsset, loan.loanAsset)]
    else PriceData(0, 0, 0)
  }

  predicate HasFreshPrice(s: LendingState, loan: Loan) {
    && (loan.collateralAsset, loan.loanAsset) in s.prices
    && s.now <= s.prices[(loan.collateralAsset, loan.loanAsset)].updatedAt + 86_400
  }

  /** The floored value of a deposit, whatever its size. */
  function Worth(collateral: int, price: PriceData): nat {
    if collateral >= 0 && price.price > 0 then Floor(collateral * price.price, Pow10(price.decimals)) else 0
  }

  /** Value times liquidation threshold, the side of the health factor that is compared with the debt. */
  function Weighted(loan: Loan, price: PriceData): nat {
    Worth(loan.collateralAmount, price) * loan.liquidationThresholdBps
  }

  predicate ValueFits(loan: Loan, price: PriceData) {
    loan.collateralAmount * price.price <= U128_MAX
  }

  predicate HealthFits(loan: Loan, price: PriceData) {
    ValueFits(loan, price) && Weighted(loan, price) <= U128_MAX
  }

  /** When the end of a loan's grace period fits, and either time decides or the health factor is computable. */
  predicate StatusIsComputable(s: LendingState, loan: Loan) {
    && loan.dueTime + loan.gracePeriodDays * 86_400 <= U64_MAX
    && (s.now > loan.dueTime || (HasFreshPrice(s, loan) && HealthFits(loan, PriceOf(s, loan))))
  }

  lemma PriceIsUsable(s: LendingState, loan: Loan)
    requires ValidPrices(s.prices, s.now)
    ensures GetFreshPrice(s.prices, s.now, loan.collateralAsset, loan.loanAsset).Ok? <==> HasFreshPrice(s, loan)
    ensures HasFreshPrice(s, loan) ==>
              && GetFreshPrice(s.prices, s.now, loan.collateralAsset, loan.loanAsset) == Ok(PriceOf(s, loan))
              && PriceOf(s, loan).price > 0 && Pow10(PriceOf(s, loan).decimals) <= U128_MAX
  {
    FreshForOneDay(s.prices, s.now, loan.collateralAsset, loan.loanAsset);
    if HasFreshPrice(s, loan) {
      Pow10Monotone(PriceOf(s, loan).decimals, 18);
      Pow10Of18();
    }
  }

  /** The contract's value of a deposit is its worth, if the product fits. */
  lemma ValueIsWorth(collateral: i128, price: PriceData)
    requires collateral >= 0 && price.price > 0 && Pow10(price.decimals) <= U128_MAX
    ensures CollateralValue(collateral, price).Ok? <==> collateral * price.price <= U128_MAX
    ensures CollateralValue(collateral, price).Ok? ==> CollateralValue(collateral, price).value == Worth(collateral, price)
  {
    ValueDefined(collateral, price);
  }

  /** The health factor of an open loan, in terms of what is stored. */
  lemma HealthOnStoredData(s: LendingState, loan: Loan, bound: u32)
    requires ValidPrices(s.prices, s.now) && loan.collateralAmount >= 0 && loan.outstandingDebt > 0
    ensures CalculateHealthFactor(s, loan).Ok? <==> HasFreshPrice(s, loan) && HealthFits(loan, PriceOf(s, loan))
    ensures CalculateHealthFactor(s, loan).Ok? ==>
              (CalculateHealthFactor(s, loan).value >= bound
               <==> Weighted(loan, PriceOf(s, loan)) >= bound * loan.outstandingDebt)
  {
    PriceIsUsable(s, loan);
    if HasFreshPrice(s, loan) {
      var price := PriceOf(s, loan);
      ValueIsWorth(loan.collateralAmount, price);
      HealthFactorDefined(loan.collateralAmount, loan.outstandingDebt, loan.liquidationThresholdBps, price);
      if HealthFits(loan, price) {
        HealthFactorBand(loan.collateralAmount, loan.outstandingDebt, loan.liquidationThresholdBps, price, bound);
      }
    }
  }

  lemma LessCollateralFits(loan: Loan, less: Loan, price: PriceData)
    requires 0 <= less.collateralAmount <= loan.collateralAmount && price.price > 0
    requires less.liquidationThresholdBps == loan.liquidationThresholdBps
    requires HealthFits(loan, price)
    ensures HealthFits(less, price)
  {
    WorthGrows(less.collateralAmount, loan.collateralAmount, price);
    MulMonotone(less.collateralAmount, loan.collateralAmount, price.price);
    MulMonotone(Worth(less.collateralAmount, price), Worth(loan.collateralAmount, price), loan.liquidationThresholdBps);
  }

  lemma WorthGrows(less: int, more: int, price: PriceData)
    requires less <= more
    ensures Worth(less, price) <= Worth(more, price)
  {
    if less >= 0 && price.price > 0 {
      MulMonotone(less, more, price.price);
      FloorMonotone(less * price.price, more * price.price, Pow10(price.decimals));
    }
  }

  /** Refreshing the status of an open loan succeeds exactly when stored data allows it. */
  lemma StatusOnStoredData(s: LendingState, loan: Loan)
    requires ValidPrices(s.prices, s.now) && Mutable(loan.status)
    requires loan.collateralAmount >= 0 && loan.outstandingDebt > 0
    ensures UpdateStatus(s, loan).Ok? <==> StatusIsComputable(s, loan)
  {
    HealthOnStoredData(s, loan, 0);
  }

  /** The LTV of a loan, in terms of what is stored. */
  lemma LtvOnStoredData(s: LendingState, loan: Loan, bound: u32)
    requires ValidPrices(s.prices, s.now) && loan.collateralAmount >= 0 && loan.outstandingDebt > 0
    requires bound < U32_MAX
    ensures var ltv, price := CalculateLtv(s, loan), PriceOf(s, loan);
            ltv.Ok? && ltv.value <= bound
            <==> && HasFreshPrice(s, loan) && ValueFits(loan, price)
                 && loan.outstandingDebt * 10_000 <= U128_MAX
                 && loan.outstandingDebt * 10_000 < (bound + 1) * Worth(loan.collateralAmount, price)
  {
    PriceIsUsable(s, loan);
    if HasFreshPrice(s, loan) {
      var price := PriceOf(s, loan);
      ValueIsWorth(loan.collateralAmount, price);
      if LoanToValue(loan.collateralAmount, loan.outstandingDebt, price).Ok? {
        LoanToValueBand(loan.collateralAmount, loan.outstandingDebt, price, bound);
      }
    }
  }

  // Liquidation

  /** The collateral that a repayment seizes, through both floors. */
  function SeizedFor(repay: nat, bonusBps: u32, price: PriceData): nat {
    if price.price > 0 then Floor(WithBonus(repay, bonusBps) * Pow10(price.decimals), price.price) else 0
  }

  predicate SeizureFits(repay: nat, bonusBps: u32, price: PriceData) {
    && repay * (10_000 + bonusBps) <= U128_MAX
    && WithBonus(repay, bonusBps) * Pow10(price.decimals) <= U128_MAX
  }

  lemma SeizureOnStoredData(repay: i128, bonusBps: u32, price: PriceData)
    requires repay >= 0 && price.price > 0 && Pow10(price.decimals) <= U128_MAX
    ensures SeizeCollateral(repay, bonusBps, price).Ok?
       <==> SeizureFits(repay, bonusBps, price) && SeizedFor(repay, bonusBps, price) <= I128_MAX
    ensures SeizeCollateral(repay, bonusBps, price).Ok? ==>
              SeizeCollateral(repay, bonusBps, price).value == SeizedFor(repay, bonusBps, price)
  {
  }

  /** The most that a liquidation may repay: what was asked for, and half of the debt. */
  function RepaymentFor(loan: Loan, amount: i128): int {
    Min(amount, loan.outstandingDebt / 2)
  }

  /** What the price, the debt and the collateral have to be for a liquidation of the requested size. */
  predicate IsLiquidatable(s: LendingState, loan: Loan, amount: i128) {
    var price, repay := PriceOf(s, loan), RepaymentFor(loan, amount);
    && HasFreshPrice(s, loan) && HealthFits(loan, price)
    && (loan.status.Defaulted? || Weighted(loan, price) < 12_000 * loan.outstandingDebt)
    && loan.outstandingDebt * 5_000 <= U128_MAX
    && repay >= 1
    && SeizureFits(repay, loan.liquidationBonusBps, price)
    && SeizedFor(repay, loan.liquidationBonusBps, price) <= loan.collateralAmount
  }

  /** A quote is given exactly when stored data allows it, and for exactly these amounts. */
  lemma QuoteOnStoredData(s: LendingState, loan: Loan, amount: i128)
    requires ValidPrices(s.prices, s.now) && loan.collateralAmount >= 0 && loan.outstandingDebt > 0
    ensures LiquidationQuote(s, loan, amount).Ok? <==> IsLiquidatable(s, loan, amount)
    ensures IsLiquidatable(s, loan, amount) ==>
              var q, repay := LiquidationQuote(s, loan, amount).value, RepaymentFor(loan, amount);
              q.repay == repay && q.seized == SeizedFor(repay, loan.liquidationBonusBps, PriceOf(s, loan))
  {
    HealthOnStoredData(s, loan, LIQUIDATION_HEALTH_FACTOR_BPS);
    PriceIsUsable(s, loan);
    LimitOnStoredData(loan);
    var repay := RepaymentFor(loan, amount);
    if HasFreshPrice(s, loan) && repay >= 1 {
      SeizureOnStoredData(repay, loan.liquidationBonusBps, PriceOf(s, loan));
    }
  }

  lemma LimitOnStoredData(loan: Loan)
    requires loan.outstandingDebt > 0
    ensures CloseFactorLimit(loan.outstandingDebt).Ok? <==> loan.outstandingDebt * 5_000 <= U128_MAX
    ensures CloseFactorLimit(loan.outstandingDebt).Ok? ==>
              CloseFactorLimit(loan.outstandingDebt).value == loan.outstandingDebt / 2
  {
  }
}
