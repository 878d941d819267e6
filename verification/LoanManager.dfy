/** The Loan Manager contract: the life of a loan from acceptance to settlement. */
module LoanManager {
  import opened Shared
  import opened Ledger
  import opened Oracle
  import opened RiskMath
  import Vault

  datatype LendingState = LendingState(
    ledger: LedgerState,
    loans: map<nat, Loan>,
    loanCount: u64,
    prices: Prices,
    now: u64)

  function GetLoan(s: LendingState, id: nat): Result<Loan> {
    if id in s.loans then Ok(s.loans[id]) else Err(LoanNotFound)
  }

  /** Stores the loan with the Vault's new state and publishes an event. */
  function Store(s: LendingState, ledger: LedgerState, id: nat, loan: Loan, e: Event): LendingState {
    s.(ledger := Publish(ledger, e), loans := s.loans[id := loan])
  }

  function EffectiveMinHf(loan: Loan): u32 {
    Max(loan.minHealthFactorBps, SAFE_HEALTH_FACTOR_BPS)
  }

  function StatusForHf(loan: Loan, hf: u32): LoanStatus {
    if hf >= EffectiveMinHf(loan) then LoanStatus.Active
    else if hf >= LIQUIDATION_HEALTH_FACTOR_BPS then Warning
    else LiquidationPlanning
  }

  function DefaultTime(loan: Loan): Result<u64> {
    CheckedU64Add(loan.dueTime, DaysToSeconds(loan.gracePeriodDays))
  }

  function CalculateHealthFactor(s: LendingState, loan: Loan): Result<u32> {
    if loan.outstandingDebt <= 0 then Ok(U32_MAX)
    else
      var price :- GetFreshPrice(s.prices, s.now, loan.collateralAsset, loan.loanAsset);
      HealthFactor(loan.collateralAmount, loan.outstandingDebt, loan.liquidationThresholdBps, price)
  }

  function CalculateLtv(s: LendingState, loan: Loan): Result<u32> {
    var price :- GetFreshPrice(s.prices, s.now, loan.collateralAsset, loan.loanAsset);
    LoanToValue(loan.collateralAmount, loan.outstandingDebt, price)
  }

  function CalculateSeizeCollateral(s: LendingState, loan: Loan, repay: i128): (r: Result<i128>)
    ensures r.Ok? ==> r.value >= 0
  {
    var price :- GetFreshPrice(s.prices, s.now, loan.collateralAsset, loan.loanAsset);
    SeizeCollateral(repay, loan.liquidationBonusBps, price)
  }

  /** The status that time, and before the due time the health factor, gives an open loan. */
  function UpdateStatus(s: LendingState, loan: Loan): Result<Loan> {
    if loan.outstandingDebt == 0 || loan.status.PendingCollateral? then Ok(loan)
    else if loan.status.Repaid? || loan.status.Liquidated? || loan.status.Closed? then Ok(loan)
    else
      var defaultTime :- DefaultTime(loan);
      if s.now > defaultTime then Ok(loan.(status := Defaulted))
      else if s.now > loan.dueTime then Ok(loan.(status := LoanStatus.Expired))
      else
        var hf :- CalculateHealthFactor(s, loan);
        Ok(loan.(status := StatusForHf(loan, hf)))
  }

  datatype Released = Released(ledger: LedgerState, loan: Loan)

  function ReleaseAllCollateral(ledger: LedgerState, loan: Loan): Result<Released> {
    if loan.collateralAmount == 0 then Ok(Released(ledger, loan))
    else
      var paid :- Vault.ReleaseBorrowerCollateral(
                    ledger, loan.loanId, loan.borrower, loan.collateralAsset, loan.collateralAmount);
      Ok(Released(paid, loan.(collateralAmount := 0)))
  }

  datatype Created = Created(state: LendingState, loanId: nat)

  function CreatePendingLoanFromOffer(s: LendingState, offer: LoanOffer, borrower: Address, collateral: i128)
    : Result<Created>
  {
    if collateral <= 0 then Err(AmountNotPositive)
    else
      :- Need(offer.status.Active?, OfferNotActive);
      :- Need(offer.loanAmount > 0, InvalidLoanAmount);
      :- Need(0 < offer.fixedAprBps <= MAX_FIXED_APR_BPS, InvalidApr);
      var id :- CheckedU64Add(s.loanCount, 1);
      var debt :- PrincipalWithInterest(offer.loanAmount, offer.fixedAprBps, offer.durationDays);
      var loan := Loan(
                    id, offer.offerId, offer.lender, borrower, offer.loanAsset, offer.loanAmount, debt,
                    offer.fixedAprBps, offer.durationDays, offer.collateralAsset, collateral, 0, 0,
                    offer.maxLtvBps, offer.liquidationThresholdBps, offer.liquidationBonusBps,
                    Max(offer.minHealthFactorBps, SAFE_HEALTH_FACTOR_BPS), offer.gracePeriodDays, PendingCollateral);
      Ok(Created(Store(s, s.ledger, id, loan, LoanCreated(id, borrower, debt)).(loanCount := id), id))
  }

  function ActivateLoan(s: LendingState, signers: Signers, id: nat): Result<LendingState> {
    var loan :- GetLoan(s, id);
    :- Need(loan.status.PendingCollateral?, LoanNotPending);
    :- Need(loan.borrower in signers, Unauthorized);
    var ltv :- CalculateLtv(s, loan);
    :- Need(ltv <= loan.maxLtvBps, CollateralBelowMaxLtv);
    var hf :- CalculateHealthFactor(s, loan);
    :- Need(hf >= EffectiveMinHf(loan), HealthFactorBelowMinimum);
    OpenLoan(s, signers, id, loan, hf)
  }

  function OpenLoan(s: LendingState, signers: Signers, id: nat, loan: Loan, hf: u32): Result<LendingState> {
    var locked :- Vault.LockBorrowerCollateral(
                    s.ledger, signers, id, loan.borrower, loan.collateralAsset, loan.collateralAmount);
    var paid :- Vault.TransferLoanAssetToBorrower(
                  locked, loan.offerId, id, loan.borrower, loan.loanAsset, loan.principal);
    var due :- CheckedU64Add(s.now, DaysToSeconds(loan.durationDays));
    var open := loan.(startTime := s.now, dueTime := due, status := StatusForHf(loan, hf));
    Ok(Store(s, paid, id, open, LoanActivated(id, open.outstandingDebt)))
  }

  function RefreshLoanState(s: LendingState, id: nat): Result<LendingState> {
    var loan :- GetLoan(s, id);
    var updated :- UpdateStatus(s, loan);
    Ok(Store(s, s.ledger, id, updated, LoanStateUpdated(id, updated.status)))
  }

  function AddCollateral(s: LendingState, signers: Signers, id: nat, amount: i128): Result<LendingState> {
    if amount <= 0 then Err(AmountNotPositive)
    else
      var loan :- GetLoan(s, id);
      :- Need(Mutable(loan.status), LoanClosed);
      :- Need(loan.borrower in signers, Unauthorized);
      var locked :- Vault.LockBorrowerCollateral(
                      s.ledger, signers, id, loan.borrower, loan.collateralAsset, amount);
      var total :- CheckedI128Add(loan.collateralAmount, amount);
      var updated :- UpdateStatus(s, loan.(collateralAmount := total));
      Ok(Store(s, locked, id, updated, CollateralAdded(id, amount)))
  }

  function PartialRepay(s: LendingState, signers: Signers, id: nat, amount: i128): Result<LendingState> {
    if amount <= 0 then Err(AmountNotPositive)
    else
      var loan :- GetLoan(s, id);
      :- Need(Mutable(loan.status), LoanClosed);
      :- Need(loan.borrower in signers, Unauthorized);
      ApplyRepayment(s, signers, id, loan, Min(amount, loan.outstandingDebt))
  }

  function ApplyRepayment(s: LendingState, signers: Signers, id: nat, loan: Loan, repay: i128): Result<LendingState>
    requires repay == loan.outstandingDebt || 0 < repay < loan.outstandingDebt
  {
    var paid :- Vault.CollectRepaymentFrom(
                  s.ledger, signers, id, loan.borrower, loan.lender, loan.loanAsset, repay);
    var lessDebt := loan.(outstandingDebt := loan.outstandingDebt - repay);
    if lessDebt.outstandingDebt == 0 then
      var released :- ReleaseAllCollateral(paid, lessDebt);
      Ok(Store(s, released.ledger, id, released.loan.(status := Repaid), PartialRepaid(id, repay)))
    else
      var updated :- UpdateStatus(s, lessDebt);
      Ok(Store(s, paid, id, updated, PartialRepaid(id, repay)))
  }

  function FullRepay(s: LendingState, signers: Signers, id: nat): Result<LendingState> {
    var loan :- GetLoan(s, id);
    :- Need(Mutable(loan.status), LoanClosed);
    :- Need(loan.borrower in signers, Unauthorized);
    var repay := loan.outstandingDebt;
    var paid :- if repay > 0 then
                  Vault.CollectRepaymentFrom(
                    s.ledger, signers, id, loan.borrower, loan.lender, loan.loanAsset, repay)
                else Ok(s.ledger);
    var released :- ReleaseAllCollateral(paid, loan.(outstandingDebt := 0));
    Ok(Store(s, released.ledger, id, released.loan.(status := Repaid), LoanRepaid(id, repay)))
  }

  function MarkExpired(s: LendingState, id: nat): Result<LendingState> {
    var loan :- GetLoan(s, id);
    :- Need(Mutable(loan.status), LoanClosed);
    :- Need(s.now > loan.dueTime, LoanNotExpired);
    Ok(Store(s, s.ledger, id, loan.(status := LoanStatus.Expired), LoanExpired(id)))
  }

  function MarkDefaulted(s: LendingState, id: nat): Result<LendingState> {
    var loan :- GetLoan(s, id);
    :- Need(Mutable(loan.status), LoanClosed);
    var defaultTime :- DefaultTime(loan);
    :- Need(s.now > defaultTime, LoanInGracePeriod);
    Ok(Store(s, s.ledger, id, loan.(status := Defaulted), LoanDefaulted(id)))
  }

  datatype Quote = Quote(repay: i128, seized: i128)

  /** What a liquidation of the requested size would repay and seize, if it is allowed at all. */
  function LiquidationQuote(s: LendingState, loan: Loan, amount: i128): (r: Result<Quote>)
    ensures r.Ok? ==> 0 < r.value.repay <= loan.outstandingDebt && 0 <= r.value.seized <= loan.collateralAmount
  {
    var hf :- CalculateHealthFactor(s, loan);
    :- Need(hf < LIQUIDATION_HEALTH_FACTOR_BPS || loan.status.Defaulted?, LoanNotLiquidatable);
    var limit :- CloseFactorLimit(loan.outstandingDebt);
    var repay: i128 := Min(amount, Min(limit, loan.outstandingDebt));
    :- Need(repay > 0, AmountNotPositive);
    var seized :- CalculateSeizeCollateral(s, loan, repay);
    :- Need(seized <= loan.collateralAmount, InsufficientCollateralToSeize);
    Ok(Quote(repay, seized))
  }

  function Liquidate(s: LendingState, signers: Signers, id: nat, liquidator: Address, amount: i128)
    : Result<LendingState>
  {
    if amount <= 0 then Err(AmountNotPositive)
    else
      var loan :- GetLoan(s, id);
      :- Need(Mutable(loan.status), LoanClosed);
      :- Need(liquidator in signers, Unauthorized);
      var quote :- LiquidationQuote(s, loan, amount);
      ApplyQuote(s, signers, id, liquidator, loan, quote)
  }

  function ApplyQuote(s: LendingState, signers: Signers, id: nat, liquidator: Address, loan: Loan, quote: Quote)
    : Result<LendingState>
    requires 0 < quote.repay <= loan.outstandingDebt && 0 <= quote.seized <= loan.collateralAmount
  {
    var paid :- Vault.CollectRepaymentFrom(
                  s.ledger, signers, id, liquidator, loan.lender, loan.loanAsset, quote.repay);
    var taken :- Vault.TransferCollateralToLiquidator(
                   paid, id, liquidator, loan.collateralAsset, quote.seized);
    var less := loan.(outstandingDebt := loan.outstandingDebt - quote.repay,
                      collateralAmount := loan.collateralAmount - quote.seized);
    var closed :- CloseLiquidation(s, taken, less);
    Ok(Store(s, closed.ledger, id, closed.loan, LoanLiquidated(id, liquidator, quote.repay)))
  }

  function CloseLiquidation(s: LendingState, ledger: LedgerState, less: Loan): Result<Released> {
    if less.outstandingDebt == 0 then
      var closed := less.(status := Liquidated);
      if closed.collateralAmount > 0 then ReleaseAllCollateral(ledger, closed) else Ok(Released(ledger, closed))
    else
      var updated :- UpdateStatus(s, less);
      Ok(Released(ledger, updated))
  }

  function CleanupLoan(s: LendingState, signers: Signers, id: nat): Result<LendingState> {
    if ADMIN !in signers then Err(Unauthorized)
    else
      var loan :- GetLoan(s, id);
      :- Need(loan.status.Repaid? || loan.status.Liquidated? || loan.status.Closed?, LoanNotTerminal);
      :- Need(loan.collateralAmount <= 0 && loan.outstandingDebt <= 0, LoanHasBalances);
      Ok(s.(ledger := Publish(s.ledger, LoanCleaned(id)), loans := s.loans - {id}))
  }
}
