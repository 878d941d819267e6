/** Why a transaction is rejected: every error of every call names a reason that is true of the stored data. */
module Refusals {
  import opened Shared
  import opened Token
  import opened Ledger
  import opened Oracle
  import opened RiskMath
  import opened RiskProperties
  import opened PricedLoans
  import opened LoanManager
  import opened Marketplace
  import opened Protocol
  import opened Invariant
  import opened Custody
  import opened Progress
  import opened EntryConditions
  import Vault

  predicate Holds(w: World, asset: Asset, holder: Address, amount: int) {
    BalanceOf(w.lending.ledger.balances, asset, holder) >= amount
  }

  // Offers

  predicate WhyNotCreate(w: World, signers: Signers, t: Terms, e: Error) {
    match e
    case Unauthorized => t.lender !in signers
    case InvalidAssetPair => t.loanAsset == t.collateralAsset
    case InvalidLoanAmount => t.loanAmount <= 0
    case InvalidApr => t.fixedAprBps == 0 || t.fixedAprBps > 2_000
    case InvalidDuration => t.durationDays == 0
    case InvalidMaxLtv => t.maxLtvBps == 0 || t.maxLtvBps > 10_000
    case InvalidLiquidationThreshold => t.liquidationThresholdBps == 0 || t.liquidationThresholdBps > 10_000
    case InvalidLiquidationBonus => t.liquidationBonusBps > 5_000
    case LtvExceedsThreshold => t.maxLtvBps > t.liquidationThresholdBps
    case InvalidMinHealthFactor => 0 < t.minHealthFactorBps < 14_000
    case Overflow => w.offerCount == U64_MAX
    case _ => false
  }

  predicate WhyNotFund(w: World, signers: Signers, id: nat, e: Error) {
    if id !in w.offers then e == OfferNotFound
    else
      var offer := w.offers[id];
      match e
      case Unauthorized => offer.lender !in signers
      case OfferNotDraft => !offer.status.Draft?
      case InsufficientBalance => !Holds(w, offer.loanAsset, offer.lender, offer.loanAmount)
      case _ => false
  }

  predicate WhyNotActivateOffer(w: World, signers: Signers, id: nat, e: Error) {
    if id !in w.offers then e == OfferNotFound
    else
      match e
      case Unauthorized => w.offers[id].lender !in signers
      case OfferNotFunded => !w.offers[id].status.Funding?
      case _ => false
  }

  /** Cancelling and expiring differ only in who has to sign. */
  predicate WhyNotSettle(w: World, signed: bool, id: nat, e: Error) {
    if id !in w.offers then e == OfferNotFound
    else
      var offer := w.offers[id];
      match e
      case Unauthorized => !signed
      case OfferMatched => offer.status.Matched?
      case OfferAlreadyCancelled => offer.status.Cancelled?
      case OfferAlreadyExpired => offer.status.Expired?
      case InsufficientBalance => !VaultHoldsFunds(w, id)
      case _ => false
  }

  predicate WhyNotAccept(w: World, signers: Signers, id: nat, borrower: Address, collateral: i128, e: Error) {
    match e
    case Unauthorized => borrower !in signers
    case InvalidCollateralAmount => collateral <= 0
    case OfferNotFound => id !in w.offers
    case BorrowerIsLender => id in w.offers && w.offers[id].lender == borrower
    case OfferNotActive => id in w.offers && !w.offers[id].status.Active?
    case Overflow => id in w.offers && (w.lending.loanCount == U64_MAX || !DebtFits(w.offers[id]))
    case _ => false
  }

  ghost predicate WhyNotCleanupOffer(w: World, signers: Signers, id: nat, e: Error) {
    match e
    case Unauthorized => ADMIN !in signers
    case OfferNotFound => id !in w.offers
    case OfferNotActive => id in w.offers && NotSettled(w.offers[id].status).Pass?
    case InsufficientLockedFunds => id in w.offers && HasPending(w, id)
    case _ => false
  }

  lemma CreateRefused(w: World, signers: Signers, t: Terms)
    ensures var r := Marketplace.CreateOffer(w, signers, t);
            r.Err? ==> WhyNotCreate(w, signers, t, r.error)
  {
  }

  lemma FundRefused(w: World, signers: Signers, id: nat)
    requires Inv(w)
    ensures var r := Marketplace.FundOffer(w, signers, id);
            r.Err? ==> WhyNotFund(w, signers, id, r.error)
  {
    if id in w.offers {
      var offer := w.offers[id];
      assert OfferOk(w, id) && OfferLocked(w.lending.ledger, id) == ExpectedLock(w, id);
      TransferSucceeds(w.lending.ledger.balances, offer.loanAsset, offer.lender, VaultAddress, offer.loanAmount);
      TransferRefused(w.lending.ledger, offer.loanAsset, offer.lender, VaultAddress, offer.loanAmount);
    }
  }

  /** While supplies fit, a transfer of a positive amount is refused only for want of balance. */
  lemma TransferRefused(s: LedgerState, asset: Asset, sender: Address, recipient: Address, amount: int)
    requires SupplyOk(s) && amount >= 0
    ensures var r := Transfer(s.balances, asset, sender, recipient, amount);
            r.Err? ==> r.error == InsufficientBalance && BalanceOf(s.balances, asset, sender) < amount
  {
    TransferSucceeds(s.balances, asset, sender, recipient, amount);
  }

  lemma ActivateOfferRefused(w: World, signers: Signers, id: nat)
    requires Inv(w)
    ensures var r := Marketplace.ActivateOffer(w, signers, id);
            r.Err? ==> WhyNotActivateOffer(w, signers, id, r.error)
  {
    assert OfferLocked(w.lending.ledger, id) == ExpectedLock(w, id);
  }

  lemma SettleRefused(w: World, signers: Signers, id: nat)
    requires Inv(w)
    ensures var r := Marketplace.CancelOffer(w, signers, id);
            r.Err? ==> WhyNotSettle(w, id in w.offers && w.offers[id].lender in signers, id, r.error)
    ensures var r := Marketplace.ExpireOffer(w, id);
            r.Err? ==> WhyNotSettle(w, true, id, r.error)
  {
    if id in w.offers {
      assert OfferOk(w, id);
      if OfferLocked(w.lending.ledger, id) > 0 {
        UnlockRefused(w, id);
      }
    }
  }

  lemma UnlockRefused(w: World, id: nat)
    requires Inv(w) && id in w.offers && w.offers[id].offerId == id
    requires OfferLocked(w.lending.ledger, id) > 0
    ensures var r := UnlockOfferIfNeeded(w.lending.ledger, w.offers[id]);
            r.Err? ==> r.error == InsufficientBalance && !VaultHoldsFunds(w, id)
  {
    var offer, locked := w.offers[id], OfferLocked(w.lending.ledger, id);
    TransferRefused(w.lending.ledger, offer.loanAsset, VaultAddress, offer.lender, locked);
  }

  lemma AcceptRefused(w: World, signers: Signers, id: nat, borrower: Address, collateral: i128)
    requires Inv(w)
    ensures var r := Marketplace.AcceptOffer(w, signers, id, borrower, collateral);
            r.Err? ==> WhyNotAccept(w, signers, id, borrower, collateral, r.error)
  {
    if id in w.offers {
      assert OfferOk(w, id);
      DebtOnStoredData(w.offers[id]);
    }
  }

  lemma CleanupOfferRefused(w: World, signers: Signers, id: nat)
    requires Inv(w)
    ensures var r := Marketplace.CleanupOffer(w, signers, id);
            r.Err? ==> WhyNotCleanupOffer(w, signers, id, r.error)
  {
    assert OfferLocked(w.lending.ledger, id) == ExpectedLock(w, id);
  }

  // Prices and health

  /** Why no usable price can be read for the loan. */
  predicate NoFreshPrice(s: LendingState, loan: Loan, e: Error) {
    var pair := (loan.collateralAsset, loan.loanAsset);
    match e
    case PriceNotFound => pair !in s.prices
    case PriceStale => pair in s.prices && s.now > s.prices[pair].updatedAt + 86_400
    case _ => false
  }

  /** Why the loan has no health factor: no price, or a product that does not fit. */
  predicate NoHealth(s: LendingState, loan: Loan, e: Error) {
    NoFreshPrice(s, loan, e) || (e == Overflow && HasFreshPrice(s, loan) && !HealthFits(loan, PriceOf(s, loan)))
  }

  /** Why the loan has no status: before its due time no health factor, or an end of its grace period that does not fit. */
  predicate NoStatus(s: LendingState, loan: Loan, e: Error) {
    || (s.now <= loan.dueTime && NoHealth(s, loan, e))
    || (e == Overflow && loan.dueTime + loan.gracePeriodDays * 86_400 > U64_MAX)
  }

  lemma PriceRefused(s: LendingState, loan: Loan)
    requires ValidPrices(s.prices, s.now)
    ensures var r := GetFreshPrice(s.prices, s.now, loan.collateralAsset, loan.loanAsset);
            && (r.Err? ==> NoFreshPrice(s, loan, r.error))
            && (r.Ok? ==> HasFreshPrice(s, loan) && r.value == PriceOf(s, loan))
  {
  }

  lemma ValueRefused(collateral: i128, price: PriceData)
    requires collateral >= 0 && price.price > 0 && Pow10(price.decimals) <= U128_MAX
    ensures var r := CollateralValue(collateral, price);
            r.Err? ==> r.error == Overflow && collateral * price.price > U128_MAX
  {
  }

  lemma HealthRefused(s: LendingState, loan: Loan)
    requires ValidPrices(s.prices, s.now) && loan.collateralAmount >= 0 && loan.outstandingDebt > 0
    ensures var r := CalculateHealthFactor(s, loan);
            r.Err? ==> NoHealth(s, loan, r.error)
  {
    PriceRefused(s, loan);
    HealthOnStoredData(s, loan, 0);
    PriceIsUsable(s, loan);
    if HasFreshPrice(s, loan) {
      ValueRefused(loan.collateralAmount, PriceOf(s, loan));
      ValueIsWorth(loan.collateralAmount, PriceOf(s, loan));
    }
  }

  lemma StatusRefused(s: LendingState, loan: Loan)
    requires ValidPrices(s.prices, s.now) && loan.collateralAmount >= 0 && loan.outstandingDebt > 0
    ensures var r := UpdateStatus(s, loan);
            r.Err? ==> NoStatus(s, loan, r.error)
  {
    HealthRefused(s, loan);
  }

  // Loans

  predicate WhyNotActivate(w: World, signers: Signers, id: nat, e: Error) {
    if id !in w.lending.loans then e == LoanNotFound
    else
      var s, loan := w.lending, w.lending.loans[id];
      var price := PriceOf(s, loan);
      || NoHealth(s, loan, e)
      || match e
         case LoanNotPending => !loan.status.PendingCollateral?
         case Unauthorized => loan.borrower !in signers
         case CollateralBelowMaxLtv =>
           HasFreshPrice(s, loan)
           && loan.outstandingDebt * 10_000 >= (loan.maxLtvBps + 1) * Worth(loan.collateralAmount, price)
         case HealthFactorBelowMinimum =>
           HasFreshPrice(s, loan) && Weighted(loan, price) < loan.minHealthFactorBps * loan.outstandingDebt
         case InsufficientBalance =>
           || !Holds(w, loan.collateralAsset, loan.borrower, loan.collateralAmount)
           || !Holds(w, loan.loanAsset, VaultAddress, loan.principal)
         case Overflow =>
           loan.outstandingDebt * 10_000 > U128_MAX || s.now + loan.durationDays * 86_400 > U64_MAX
         case _ => false
  }

  predicate WhyNotRefresh(w: World, id: nat, e: Error) {
    if id !in w.lending.loans then e == LoanNotFound
    else Mutable(w.lending.loans[id].status) && NoStatus(w.lending, w.lending.loans[id], e)
  }

  /** The reasons that all calls of a borrower on an open loan share. */
  predicate NotOpenToBorrower(loan: Loan, signers: Signers, e: Error) {
    || (e == LoanClosed && !Mutable(loan.status))
    || (e == Unauthorized && loan.borrower !in signers)
  }

  predicate WhyNotTopUp(w: World, signers: Signers, id: nat, amount: i128, e: Error) {
    || (e == AmountNotPositive && amount <= 0)
    || (e == LoanNotFound && id !in w.lending.loans)
    || (id in w.lending.loans
        && var loan := w.lending.loans[id];
           || NotOpenToBorrower(loan, signers, e)
           || (e == InsufficientBalance && !Holds(w, loan.collateralAsset, loan.borrower, amount))
           || (e == Overflow && loan.collateralAmount + amount > I128_MAX)
           || (var total := loan.collateralAmount + amount;
               0 < total <= I128_MAX && NoStatus(w.lending, loan.(collateralAmount := total), e)))
  }

  /** Why a repayment of an open loan by its borrower fails. */
  predicate WhyNotRepay(w: World, id: nat, repay: int, e: Error)
    requires id in w.lending.loans
  {
    var loan := w.lending.loans[id];
    || (e == InsufficientBalance && !Holds(w, loan.loanAsset, loan.borrower, repay))
    || (e == InsufficientBalance && repay == loan.outstandingDebt && !VaultHoldsCollateral(w, id))
    || (0 < repay < loan.outstandingDebt
        && NoStatus(w.lending, loan.(outstandingDebt := loan.outstandingDebt - repay), e))
  }

  predicate WhyNotPartial(w: World, signers: Signers, id: nat, amount: i128, e: Error) {
    || (e == AmountNotPositive && amount <= 0)
    || (e == LoanNotFound && id !in w.lending.loans)
    || (id in w.lending.loans
        && var loan := w.lending.loans[id];
           NotOpenToBorrower(loan, signers, e) || WhyNotRepay(w, id, Min(amount, loan.outstandingDebt), e))
  }

  predicate WhyNotFull(w: World, signers: Signers, id: nat, e: Error) {
    if id !in w.lending.loans then e == LoanNotFound
    else
      var loan := w.lending.loans[id];
      NotOpenToBorrower(loan, signers, e) || WhyNotRepay(w, id, loan.outstandingDebt, e)
  }

  predicate WhyNotMark(s: LendingState, id: nat, defaulted: bool, e: Error) {
    if id !in s.loans then e == LoanNotFound
    else
      var loan := s.loans[id];
      match e
      case LoanClosed => !Mutable(loan.status)
      case LoanNotExpired => !defaulted && s.now <= loan.dueTime
      case LoanInGracePeriod => defaulted && s.now <= loan.dueTime + loan.gracePeriodDays * 86_400
      case Overflow => defaulted && loan.dueTime + loan.gracePeriodDays * 86_400 > U64_MAX
      case _ => false
  }

  predicate WhyNotCleanupLoan(w: World, signers: Signers, id: nat, e: Error) {
    match e
    case Unauthorized => ADMIN !in signers
    case LoanNotFound => id !in w.lending.loans
    case LoanNotTerminal => id in w.lending.loans && !w.lending.loans[id].status.Repaid?
    case _ => false
  }

  lemma RefreshRefused(w: World, id: nat)
    requires Inv(w)
    ensures var r := LoanManager.RefreshLoanState(w.lending, id);
            r.Err? ==> WhyNotRefresh(w, id, r.error)
  {
    if id in w.lending.loans {
      LoanIsOk(w, id);
      if w.lending.loans[id].outstandingDebt > 0 {
        StatusRefused(w.lending, w.lending.loans[id]);
      }
    }
  }

  lemma MarkRefused(s: LendingState, id: nat)
    ensures var r := LoanManager.MarkExpired(s, id);
            r.Err? ==> WhyNotMark(s, id, false, r.error)
    ensures var r := LoanManager.MarkDefaulted(s, id);
            r.Err? ==> WhyNotMark(s, id, true, r.error)
  {
  }

  lemma CleanupLoanRefused(w: World, signers: Signers, id: nat)
    requires Inv(w)
    ensures var r := LoanManager.CleanupLoan(w.lending, signers, id);
            r.Err? ==> WhyNotCleanupLoan(w, signers, id, r.error)
  {
    if id in w.lending.loans {
      ClosedIsRepaid(w, id);
    }
    CleanupByParts(w.lending, signers, id);
  }

  lemma ClosedIsRepaid(w: World, id: nat)
    requires Inv(w) && id in w.lending.loans
    ensures !w.lending.loans[id].status.Liquidated? && !w.lending.loans[id].status.Closed?
    ensures w.lending.loans[id].status.Repaid? ==>
              w.lending.loans[id].collateralAmount == 0 && w.lending.loans[id].outstandingDebt == 0
  {
    LoanIsOk(w, id);
  }

  lemma CleanupByParts(s: LendingState, signers: Signers, id: nat)
    ensures var r := LoanManager.CleanupLoan(s, signers, id);
            r.Err? ==>
              match r.error
              case Unauthorized => ADMIN !in signers
              case LoanNotFound => id !in s.loans
              case LoanNotTerminal =>
                && id in s.loans && !s.loans[id].status.Repaid?
                && !s.loans[id].status.Liquidated? && !s.loans[id].status.Closed?
              case LoanHasBalances =>
                && id in s.loans && (s.loans[id].collateralAmount > 0 || s.loans[id].outstandingDebt > 0)
                && (s.loans[id].status.Repaid? || s.loans[id].status.Liquidated? || s.loans[id].status.Closed?)
              case _ => false
  {
  }

  /** The loan with more collateral, where the sum fits. */
  function ToppedUp(loan: Loan, amount: i128): Loan {
    if -I128_MAX - 1 <= loan.collateralAmount + amount <= I128_MAX
    then loan.(collateralAmount := loan.collateralAmount + amount) else loan
  }

  /** The parts of adding collateral that can fail. */
  lemma TopUpByParts(s: LendingState, signers: Signers, id: nat, amount: i128)
    requires LoanManager.AddCollateral(s, signers, id, amount).Err?
    ensures var e := LoanManager.AddCollateral(s, signers, id, amount).error;
            || (e == AmountNotPositive && amount <= 0)
            || (e == LoanNotFound && id !in s.loans)
            || (id in s.loans
                && var loan := s.loans[id];
                   || NotOpenToBorrower(loan, signers, e)
                   || (Mutable(loan.status) && amount > 0
                       && (|| Vault.LockBorrowerCollateral(
                                s.ledger, signers, id, loan.borrower, loan.collateralAsset, amount) == Err(e)
                           || (e == Overflow && loan.collateralAmount + amount > I128_MAX)
                           || (loan.collateralAmount + amount <= I128_MAX
                               && UpdateStatus(s, ToppedUp(loan, amount)) == Err(e)))))
  {
  }

  lemma TopUpRefused(w: World, signers: Signers, id: nat, amount: i128)
    requires Inv(w)
    ensures var r := LoanManager.AddCollateral(w.lending, signers, id, amount);
            r.Err? ==> WhyNotTopUp(w, signers, id, amount, r.error)
  {
    if LoanManager.AddCollateral(w.lending, signers, id, amount).Err? {
      TopUpByParts(w.lending, signers, id, amount);
      if id in w.lending.loans && Mutable(w.lending.loans[id].status) && amount > 0 {
        LoanIsOk(w, id);
        LockRefused(w, signers, id, amount);
        if w.lending.loans[id].collateralAmount + amount <= I128_MAX {
          TopUpStatusRefused(w, signers, id, amount);
        }
      }
    }
  }

  lemma TopUpStatusRefused(w: World, signers: Signers, id: nat, amount: i128)
    requires Inv(w) && id in w.lending.loans && Mutable(w.lending.loans[id].status) && amount > 0
    requires w.lending.loans[id].collateralAmount + amount <= I128_MAX
    ensures var r := UpdateStatus(w.lending, ToppedUp(w.lending.loans[id], amount));
            r.Err? ==> WhyNotTopUp(w, signers, id, amount, r.error)
  {
    LoanIsOk(w, id);
    StatusRefused(w.lending, ToppedUp(w.lending.loans[id], amount));
  }

  lemma LockRefused(w: World, signers: Signers, id: nat, amount: i128)
    requires Inv(w) && id in w.lending.loans && Mutable(w.lending.loans[id].status) && amount > 0
    ensures var loan := w.lending.loans[id];
            var r := Vault.LockBorrowerCollateral(
                       w.lending.ledger, signers, id, loan.borrower, loan.collateralAsset, amount);
            r.Err? ==> || (r.error == Unauthorized && loan.borrower !in signers)
                       || (r.error == InsufficientBalance && !Holds(w, loan.collateralAsset, loan.borrower, amount))
                       || (r.error == Overflow && loan.collateralAmount + amount > I128_MAX)
  {
    var loan := w.lending.loans[id];
    EscrowOf(w, id);
    TransferRefused(w.lending.ledger, loan.collateralAsset, loan.borrower, VaultAddress, amount);
    var paid := Vault.Move(w.lending.ledger, loan.collateralAsset, loan.borrower, VaultAddress, amount);
    if paid.Ok? {
      assert LoanCollateral(paid.value, id) == LoanCollateral(w.lending.ledger, id);
      assert Locked(paid.value, id, loan.collateralAsset) == Locked(w.lending.ledger, id, loan.collateralAsset);
    }
  }

  // Repayments

  lemma PaymentRefused(w: World, signers: Signers, id: nat, payer: Address, amount: int)
    requires Inv(w) && id in w.lending.loans && amount > 0
    ensures var loan := w.lending.loans[id];
            var r := Vault.CollectRepaymentFrom(w.lending.ledger, signers, id, payer, loan.lender, loan.loanAsset, amount);
            r.Err? ==> || (r.error == Unauthorized && payer !in signers)
                       || (r.error == InsufficientBalance && !Holds(w, loan.loanAsset, payer, amount))
  {
    var loan := w.lending.loans[id];
    TransferRefused(w.lending.ledger, loan.loanAsset, payer, loan.lender, amount);
  }

  lemma ReleaseRefused(w: World, signers: Signers, id: nat, paid: LedgerState, less: Loan)
    requires Inv(w) && id in w.lending.loans
    requires Repaying(w.lending, signers, id, w.lending.loans[id].outstandingDebt, paid, less)
    ensures var r := ReleaseAllCollateral(paid, less);
            r.Err? ==> r.error == InsufficientBalance && !VaultHoldsCollateral(w, id)
  {
    var loan := w.lending.loans[id];
    LoanIsOk(w, id);
    EscrowOf(w, id);
    MovedKeepsSupply(w.lending.ledger, paid, loan.loanAsset, loan.borrower, loan.lender, loan.outstandingDebt);
    TransferRefused(paid, loan.collateralAsset, VaultAddress, loan.borrower, loan.collateralAmount);
  }

  /** The loan with less debt, where that is positive. */
  function PaidDown(loan: Loan, amount: i128): Loan {
    if 0 < amount < loan.outstandingDebt then loan.(outstandingDebt := loan.outstandingDebt - amount) else loan
  }

  /** The parts of a repayment by the borrower that can fail. */
  predicate RepaymentFails(s: LendingState, signers: Signers, id: nat, repay: int, e: Error)
    requires id in s.loans && repay <= s.loans[id].outstandingDebt
  {
    var loan := s.loans[id];
    var paid := Vault.CollectRepaymentFrom(s.ledger, signers, id, loan.borrower, loan.lender, loan.loanAsset, repay);
    || paid == Err(e)
    || (paid.Ok? && repay == loan.outstandingDebt
        && ReleaseAllCollateral(paid.value, loan.(outstandingDebt := 0)) == Err(e))
    || (paid.Ok? && repay < loan.outstandingDebt && UpdateStatus(s, PaidDown(loan, repay)) == Err(e))
  }

  lemma PartialByParts(s: LendingState, signers: Signers, id: nat, amount: i128)
    requires LoanManager.PartialRepay(s, signers, id, amount).Err?
    ensures var e := LoanManager.PartialRepay(s, signers, id, amount).error;
            || (e == AmountNotPositive && amount <= 0)
            || (e == LoanNotFound && id !in s.loans)
            || (id in s.loans && NotOpenToBorrower(s.loans[id], signers, e))
            || (id in s.loans && Mutable(s.loans[id].status) && s.loans[id].borrower in signers && amount > 0
                && RepaymentFails(s, signers, id, Min(amount, s.loans[id].outstandingDebt), e))
  {
  }

  lemma FullByParts(s: LendingState, signers: Signers, id: nat)
    requires LoanManager.FullRepay(s, signers, id).Err?
    requires id in s.loans && Mutable(s.loans[id].status) ==> s.loans[id].outstandingDebt > 0
    ensures var e := LoanManager.FullRepay(s, signers, id).error;
            || (e == LoanNotFound && id !in s.loans)
            || (id in s.loans && NotOpenToBorrower(s.loans[id], signers, e))
            || (id in s.loans && Mutable(s.loans[id].status) && s.loans[id].borrower in signers
                && RepaymentFails(s, signers, id, s.loans[id].outstandingDebt, e))
  {
  }

  lemma PaidDownRefused(w: World, id: nat, repay: i128)
    requires Inv(w) && id in w.lending.loans && Mutable(w.lending.loans[id].status)
    requires 0 < repay < w.lending.loans[id].outstandingDebt
    ensures var r := UpdateStatus(w.lending, PaidDown(w.lending.loans[id], repay));
            r.Err? ==> WhyNotRepay(w, id, repay, r.error)
  {
    LoanIsOk(w, id);
    StatusRefused(w.lending, PaidDown(w.lending.loans[id], repay));
  }

  lemma SettlementRefused(w: World, signers: Signers, id: nat, paid: LedgerState, less: Loan)
    requires Inv(w) && id in w.lending.loans
    requires Repaying(w.lending, signers, id, w.lending.loans[id].outstandingDebt, paid, less)
    ensures var r := ReleaseAllCollateral(paid, less);
            r.Err? ==> WhyNotRepay(w, id, w.lending.loans[id].outstandingDebt, r.error)
  {
    ReleaseRefused(w, signers, id, paid, less);
  }

  lemma RepaymentRefused(w: World, signers: Signers, id: nat, repay: i128, e: Error)
    requires Inv(w) && id in w.lending.loans && Mutable(w.lending.loans[id].status)
    requires w.lending.loans[id].borrower in signers && 0 < repay <= w.lending.loans[id].outstandingDebt
    requires RepaymentFails(w.lending, signers, id, repay, e)
    ensures WhyNotRepay(w, id, repay, e)
  {
    var s, loan := w.lending, w.lending.loans[id];
    PaymentRefused(w, signers, id, loan.borrower, repay);
    if repay < loan.outstandingDebt {
      PaidDownRefused(w, id, repay);
    } else {
      var paid := Vault.CollectRepaymentFrom(s.ledger, signers, id, loan.borrower, loan.lender, loan.loanAsset, repay);
      if paid.Ok? {
        SettlementRefused(w, signers, id, paid.value, loan.(outstandingDebt := 0));
      }
    }
  }

  lemma PartialRefused(w: World, signers: Signers, id: nat, amount: i128)
    requires Inv(w)
    ensures var r := LoanManager.PartialRepay(w.lending, signers, id, amount);
            r.Err? ==> WhyNotPartial(w, signers, id, amount, r.error)
  {
    var r := LoanManager.PartialRepay(w.lending, signers, id, amount);
    if r.Err? {
      PartialByParts(w.lending, signers, id, amount);
      if id in w.lending.loans && Mutable(w.lending.loans[id].status)
         && w.lending.loans[id].borrower in signers && amount > 0 {
        LoanIsOk(w, id);
        var repay := Min(amount, w.lending.loans[id].outstandingDebt);
        if RepaymentFails(w.lending, signers, id, repay, r.error) {
          RepaymentRefused(w, signers, id, repay, r.error);
        }
      }
    }
  }

  lemma FullRefused(w: World, signers: Signers, id: nat)
    requires Inv(w)
    ensures var r := LoanManager.FullRepay(w.lending, signers, id);
            r.Err? ==> WhyNotFull(w, signers, id, r.error)
  {
    var r := LoanManager.FullRepay(w.lending, signers, id);
    if id in w.lending.loans {
      LoanIsOk(w, id);
    }
    if r.Err? {
      FullByParts(w.lending, signers, id);
      if id in w.lending.loans && Mutable(w.lending.loans[id].status) && w.lending.loans[id].borrower in signers {
        if RepaymentFails(w.lending, signers, id, w.lending.loans[id].outstandingDebt, r.error) {
          RepaymentRefused(w, signers, id, w.lending.loans[id].outstandingDebt, r.error);
        }
      }
    }
  }

  // Activations

  lemma LtvRefused(s: LendingState, loan: Loan)
    requires ValidPrices(s.prices, s.now) && loan.collateralAmount >= 0 && loan.outstandingDebt > 0
    ensures var r := CalculateLtv(s, loan);
            r.Err? ==> NoHealth(s, loan, r.error) || (r.error == Overflow && loan.outstandingDebt * 10_000 > U128_MAX)
  {
    PriceRefused(s, loan);
    PriceIsUsable(s, loan);
    if HasFreshPrice(s, loan) {
      ValueRefused(loan.collateralAmount, PriceOf(s, loan));
    }
  }

  /** The parts of an activation that can fail. */
  lemma ActivateByParts(s: LendingState, signers: Signers, id: nat)
    requires LoanManager.ActivateLoan(s, signers, id).Err?
    ensures var e := LoanManager.ActivateLoan(s, signers, id).error;
            || (e == LoanNotFound && id !in s.loans)
            || (id in s.loans
                && var loan := s.loans[id];
                   || (e == LoanNotPending && !loan.status.PendingCollateral?)
                   || (loan.status.PendingCollateral?
                       && (|| (e == Unauthorized && loan.borrower !in signers)
                           || GateFails(s, loan, e)
                           || (loan.borrower in signers && EntryConditions.Disbursed(s.ledger, signers, id, loan) == Err(e))
                           || (e == Overflow && s.now + loan.durationDays * SECONDS_PER_DAY > U64_MAX))))
  {
  }

  lemma DisbursementRefused(w: World, signers: Signers, id: nat)
    requires Inv(w) && id in w.lending.loans
    requires w.lending.loans[id].status.PendingCollateral? && w.lending.loans[id].borrower in signers
    ensures var r := EntryConditions.Disbursed(w.lending.ledger, signers, id, w.lending.loans[id]);
            r.Err? ==> WhyNotActivate(w, signers, id, r.error)
  {
    LoanIsOk(w, id);
    EscrowOf(w, id);
    var s, loan := w.lending.ledger, w.lending.loans[id];
    TransferRefused(s, loan.collateralAsset, loan.borrower, VaultAddress, loan.collateralAmount);
    OpeningLockRefused(s, signers, id, loan);
    var locked := Vault.LockBorrowerCollateral(s, signers, id, loan.borrower, loan.collateralAsset, loan.collateralAmount);
    if locked.Ok? {
      MovedKeepsSupply(s, locked.value, loan.collateralAsset, loan.borrower, VaultAddress, loan.collateralAmount);
      TransferRefused(locked.value, loan.loanAsset, VaultAddress, loan.borrower, loan.principal);
      PayoutRefused(locked.value, loan, id);
    }
  }

  lemma OpeningLockRefused(s: LedgerState, signers: Signers, id: nat, loan: Loan)
    requires loan.borrower in signers && loan.collateralAmount > 0
    requires LoanCollateral(s, id) == 0 && Locked(s, id, loan.collateralAsset) == 0
    ensures var moved := Transfer(s.balances, loan.collateralAsset, loan.borrower, VaultAddress, loan.collateralAmount);
            var r := Vault.LockBorrowerCollateral(
                       s, signers, id, loan.borrower, loan.collateralAsset, loan.collateralAmount);
            r.Err? ==> moved == Err(r.error)
  {
  }

  lemma PayoutRefused(s: LedgerState, loan: Loan, id: nat)
    requires loan.principal > 0 && OfferLocked(s, loan.offerId) == loan.principal
    ensures var moved := Transfer(s.balances, loan.loanAsset, VaultAddress, loan.borrower, loan.principal);
            var r := Vault.TransferLoanAssetToBorrower(s, loan.offerId, id, loan.borrower, loan.loanAsset, loan.principal);
            r.Err? ==> moved == Err(r.error)
  {
  }

  lemma LtvTooHigh(s: LendingState, loan: Loan)
    requires ValidPrices(s.prices, s.now) && loan.collateralAmount >= 0 && loan.outstandingDebt > 0
    requires loan.maxLtvBps < U32_MAX && CalculateLtv(s, loan).Ok? && CalculateLtv(s, loan).value > loan.maxLtvBps
    ensures HasFreshPrice(s, loan)
    ensures loan.outstandingDebt * 10_000 >= (loan.maxLtvBps + 1) * Worth(loan.collateralAmount, PriceOf(s, loan))
  {
    LtvNeedsPrice(s, loan);
    LtvOnStoredData(s, loan, loan.maxLtvBps);
  }

  lemma HealthTooLow(s: LendingState, loan: Loan)
    requires ValidPrices(s.prices, s.now) && loan.collateralAmount >= 0 && loan.outstandingDebt > 0
    requires loan.minHealthFactorBps >= SAFE_HEALTH_FACTOR_BPS
    requires CalculateHealthFactor(s, loan).Ok? && CalculateHealthFactor(s, loan).value < EffectiveMinHf(loan)
    ensures HasFreshPrice(s, loan) && Weighted(loan, PriceOf(s, loan)) < loan.minHealthFactorBps * loan.outstandingDebt
  {
    HealthOnStoredData(s, loan, loan.minHealthFactorBps);
  }

  /** The gate in terms of what is stored. */
  predicate GateFails(s: LendingState, loan: Loan, e: Error) {
    var ltv, hf := CalculateLtv(s, loan), CalculateHealthFactor(s, loan);
    || ltv == Err(e)
    || (e == CollateralBelowMaxLtv && ltv.Ok? && ltv.value > loan.maxLtvBps)
    || hf == Err(e)
    || (e == HealthFactorBelowMinimum && hf.Ok? && hf.value < EffectiveMinHf(loan))
  }

  lemma GateRefused(w: World, signers: Signers, id: nat, e: Error)
    requires Inv(w) && id in w.lending.loans && w.lending.loans[id].status.PendingCollateral?
    requires GateFails(w.lending, w.lending.loans[id], e)
    ensures WhyNotActivate(w, signers, id, e)
  {
    LoanIsOk(w, id);
    var s, loan := w.lending, w.lending.loans[id];
    InterestNonNegative(loan.principal, loan.fixedAprBps, loan.durationDays);
    GateRefusedFor(s, loan, e);
  }

  lemma GateRefusedFor(s: LendingState, loan: Loan, e: Error)
    requires ValidPrices(s.prices, s.now) && loan.collateralAmount >= 0 && loan.outstandingDebt > 0
    requires loan.maxLtvBps < U32_MAX && loan.minHealthFactorBps >= SAFE_HEALTH_FACTOR_BPS
    requires GateFails(s, loan, e)
    ensures || NoHealth(s, loan, e)
            || (e == Overflow && loan.outstandingDebt * 10_000 > U128_MAX)
            || (e == CollateralBelowMaxLtv && HasFreshPrice(s, loan)
                && loan.outstandingDebt * 10_000 >= (loan.maxLtvBps + 1) * Worth(loan.collateralAmount, PriceOf(s, loan)))
            || (e == HealthFactorBelowMinimum && HasFreshPrice(s, loan)
                && Weighted(loan, PriceOf(s, loan)) < loan.minHealthFactorBps * loan.outstandingDebt)
  {
    var ltv, hf := CalculateLtv(s, loan), CalculateHealthFactor(s, loan);
    LtvRefused(s, loan);
    HealthRefused(s, loan);
    if ltv.Ok? && ltv.value > loan.maxLtvBps {
      LtvTooHigh(s, loan);
    }
    if hf.Ok? && hf.value < EffectiveMinHf(loan) {
      HealthTooLow(s, loan);
    }
  }

  lemma LtvNeedsPrice(s: LendingState, loan: Loan)
    requires ValidPrices(s.prices, s.now) && loan.collateralAmount >= 0 && loan.outstandingDebt > 0
    requires CalculateLtv(s, loan).Ok?
    ensures HasFreshPrice(s, loan) && ValueFits(loan, PriceOf(s, loan))
    ensures Worth(loan.collateralAmount, PriceOf(s, loan)) > 0 ==> loan.outstandingDebt * 10_000 <= U128_MAX
  {
    PriceIsUsable(s, loan);
    ValueIsWorth(loan.collateralAmount, PriceOf(s, loan));
  }

  lemma ActivateRefused(w: World, signers: Signers, id: nat)
    requires Inv(w)
    ensures var r := LoanManager.ActivateLoan(w.lending, signers, id);
            r.Err? ==> WhyNotActivate(w, signers, id, r.error)
  {
    if LoanManager.ActivateLoan(w.lending, signers, id).Err? {
      ActivateByParts(w.lending, signers, id);
      if id in w.lending.loans && w.lending.loans[id].status.PendingCollateral? {
        var e := LoanManager.ActivateLoan(w.lending, signers, id).error;
        if GateFails(w.lending, w.lending.loans[id], e) {
          GateRefused(w, signers, id, e);
        }
        if w.lending.loans[id].borrower in signers {
          DisbursementRefused(w, signers, id);
        }
      }
    }
  }

  // Liquidations

  predicate WhyNotLiquidate(w: World, signers: Signers, id: nat, liquidator: Address, amount: i128, e: Error) {
    || (e == AmountNotPositive && amount <= 0)
    || (e == LoanNotFound && id !in w.lending.loans)
    || (id in w.lending.loans
        && var s, loan := w.lending, w.lending.loans[id];
           var repay := RepaymentFor(loan, amount);
           || (e == LoanClosed && !Mutable(loan.status))
           || (e == Unauthorized && liquidator !in signers)
           || NoQuote(s, loan, repay, e)
           || (repay >= 1
               && var seized := SeizedFor(repay, loan.liquidationBonusBps, PriceOf(s, loan));
                  || (e == AmountNotPositive && seized == 0)
                  || (e == InsufficientBalance
                      && (!Holds(w, loan.loanAsset, liquidator, repay)
                          || !Holds(w, loan.collateralAsset, VaultAddress, seized))))
           || (e == Overflow && loan.dueTime + loan.gracePeriodDays * 86_400 > U64_MAX))
  }

  /** Why a liquidation is not allowed, in terms of what is stored. */
  predicate NoQuote(s: LendingState, loan: Loan, repay: int, e: Error) {
    var price := PriceOf(s, loan);
    || NoHealth(s, loan, e)
    || (HasFreshPrice(s, loan)
        && match e
           case LoanNotLiquidatable =>
             !loan.status.Defaulted? && Weighted(loan, price) >= 12_000 * loan.outstandingDebt
           case AmountNotPositive => repay < 1
           case InsufficientCollateralToSeize =>
             repay >= 1 && SeizedFor(repay, loan.liquidationBonusBps, price) > loan.collateralAmount
           case Overflow =>
             || loan.outstandingDebt * 5_000 > U128_MAX
             || (repay >= 1 && (|| !SeizureFits(repay, loan.liquidationBonusBps, price)
                                || SeizedFor(repay, loan.liquidationBonusBps, price) > I128_MAX))
           case _ => false)
  }

  lemma QuoteRefused(s: LendingState, loan: Loan, amount: i128)
    requires ValidPrices(s.prices, s.now) && loan.collateralAmount >= 0 && loan.outstandingDebt > 0
    ensures var r := LiquidationQuote(s, loan, amount);
            r.Err? ==> NoQuote(s, loan, RepaymentFor(loan, amount), r.error)
  {
    HealthRefused(s, loan);
    HealthOnStoredData(s, loan, LIQUIDATION_HEALTH_FACTOR_BPS);
    LimitOnStoredData(loan);
    LimitRefused(loan);
    var repay := RepaymentFor(loan, amount);
    if HasFreshPrice(s, loan) && repay >= 1 {
      PriceIsUsable(s, loan);
      SeizureOnStoredData(repay, loan.liquidationBonusBps, PriceOf(s, loan));
      SeizedRefused(s, loan, repay);
    }
  }

  lemma LimitRefused(loan: Loan)
    ensures var r := CloseFactorLimit(loan.outstandingDebt);
            loan.outstandingDebt > 0 && r.Err? ==> r.error == Overflow
  {
  }

  lemma SeizedRefused(s: LendingState, loan: Loan, repay: i128)
    requires ValidPrices(s.prices, s.now) && HasFreshPrice(s, loan) && repay >= 0
    ensures var r := CalculateSeizeCollateral(s, loan, repay);
            && r == SeizeCollateral(repay, loan.liquidationBonusBps, PriceOf(s, loan))
            && (r.Err? ==> r.error == Overflow)
  {
    PriceIsUsable(s, loan);
  }

  /** The parts of a liquidation that can fail. */
  lemma LiquidateByParts(s: LendingState, signers: Signers, id: nat, liquidator: Address, amount: i128)
    requires LoanManager.Liquidate(s, signers, id, liquidator, amount).Err?
    requires id in s.loans && Mutable(s.loans[id].status) ==> s.loans[id].outstandingDebt > 0
    ensures var e := LoanManager.Liquidate(s, signers, id, liquidator, amount).error;
            || (e == AmountNotPositive && amount <= 0)
            || (e == LoanNotFound && id !in s.loans)
            || (id in s.loans
                && var loan := s.loans[id];
                   var quote := LiquidationQuote(s, loan, amount);
                   || (e == LoanClosed && !Mutable(loan.status))
                   || (e == Unauthorized && liquidator !in signers)
                   || (Mutable(loan.status) && quote == Err(e))
                   || (Mutable(loan.status) && liquidator in signers && quote.Ok?
                       && (|| SeizedLedger(s.ledger, signers, id, liquidator, loan, quote.value) == Err(e)
                           || UpdateStatus(s, Reduced(loan, quote.value)) == Err(e))))
  {
    if id in s.loans && Mutable(s.loans[id].status) && LiquidationQuote(s, s.loans[id], amount).Ok? {
      QuoteBounds(s, s.loans[id], amount);
    }
  }

  lemma SeizureRefused(w: World, signers: Signers, id: nat, liquidator: Address, q: Quote)
    requires Inv(w) && id in w.lending.loans && Mutable(w.lending.loans[id].status) && liquidator in signers
    requires 0 < q.repay && 0 <= q.seized <= w.lending.loans[id].collateralAmount
    ensures var loan := w.lending.loans[id];
            var r := SeizedLedger(w.lending.ledger, signers, id, liquidator, loan, q);
            r.Err? ==> || (r.error == AmountNotPositive && q.seized == 0)
                       || (r.error == InsufficientBalance
                           && (!Holds(w, loan.loanAsset, liquidator, q.repay)
                               || !Holds(w, loan.collateralAsset, VaultAddress, q.seized)))
  {
    LoanIsOk(w, id);
    EscrowOf(w, id);
    var s, loan := w.lending.ledger, w.lending.loans[id];
    PaymentRefused(w, signers, id, liquidator, q.repay);
    var paid := Vault.CollectRepaymentFrom(s, signers, id, liquidator, loan.lender, loan.loanAsset, q.repay);
    if paid.Ok? {
      MovedKeepsSupply(s, paid.value, loan.loanAsset, liquidator, loan.lender, q.repay);
      TransferRefused(paid.value, loan.collateralAsset, VaultAddress, liquidator, q.seized);
    }
  }

  /** Once a liquidation is quoted there is a price for the loan, so only time can deny it a status. */
  lemma ReducedRefused(s: LendingState, loan: Loan, amount: i128)
    requires ValidPrices(s.prices, s.now) && Mutable(loan.status)
    requires loan.collateralAmount >= 0 && loan.outstandingDebt > 0 && LiquidationQuote(s, loan, amount).Ok?
    ensures var r := UpdateStatus(s, Reduced(loan, LiquidationQuote(s, loan, amount).value));
            r.Err? ==> r.error == Overflow && loan.dueTime + loan.gracePeriodDays * 86_400 > U64_MAX
  {
    QuoteOnStoredData(s, loan, amount);
    var q := LiquidationQuote(s, loan, amount).value;
    ReducedStatus(s, loan, q);
    StatusRefused(s, Reduced(loan, q));
  }

  lemma LiquidateRefused(w: World, signers: Signers, id: nat, liquidator: Address, amount: i128)
    requires Inv(w)
    ensures var r := LoanManager.Liquidate(w.lending, signers, id, liquidator, amount);
            r.Err? ==> WhyNotLiquidate(w, signers, id, liquidator, amount, r.error)
  {
    if id in w.lending.loans {
      LoanIsOk(w, id);
    }
    if LoanManager.Liquidate(w.lending, signers, id, liquidator, amount).Err? {
      LiquidateByParts(w.lending, signers, id, liquidator, amount);
      if id in w.lending.loans && Mutable(w.lending.loans[id].status) {
        var loan := w.lending.loans[id];
        QuoteRefused(w.lending, loan, amount);
        if LiquidationQuote(w.lending, loan, amount).Ok? && liquidator in signers {
          QuoteOnStoredData(w.lending, loan, amount);
          SeizureRefused(w, signers, id, liquidator, LiquidationQuote(w.lending, loan, amount).value);
          ReducedRefused(w.lending, loan, amount);
        }
      }
    }
  }

  // The whole protocol

  predicate WhyNotOutside(w: World, tx: Tx, e: Error) {
    match tx.call
    case SetPrice(_, _, price, decimals) =>
      || (e == Unauthorized && ADMIN !in tx.signers)
      || (e == PriceNotPositive && price <= 0)
      || (e == InvalidPriceDecimals && decimals > 18)
    case Withdraw(asset, _, amount) =>
      || (e == Unauthorized && ADMIN !in tx.signers)
      || (e == AmountNotPositive && amount <= 0)
      || (e == InsufficientBalance && !Holds(w, asset, VaultAddress, amount))
    case TransferTokens(asset, sender, _, amount) =>
      || (e == Unauthorized && sender !in tx.signers)
      || (e == NegativeAmount && amount < 0)
      || (e == InsufficientBalance && !Holds(w, asset, sender, amount))
    case Tick(seconds) => e == Overflow && w.lending.now + seconds > U64_MAX
    case _ => false
  }

  /** The reason that an error of a call names. Errors that are not listed for a call never occur. */
  ghost predicate WhyNot(w: World, tx: Tx, e: Error) {
    match tx.call
    case CreateOffer(terms) => WhyNotCreate(w, tx.signers, terms, e)
    case FundOffer(id) => WhyNotFund(w, tx.signers, id, e)
    case ActivateOffer(id) => WhyNotActivateOffer(w, tx.signers, id, e)
    case CancelOffer(id) => WhyNotSettle(w, id in w.offers && w.offers[id].lender in tx.signers, id, e)
    case ExpireOffer(id) => WhyNotSettle(w, true, id, e)
    case AcceptOffer(id, borrower, collateral) => WhyNotAccept(w, tx.signers, id, borrower, collateral, e)
    case CleanupOffer(id) => WhyNotCleanupOffer(w, tx.signers, id, e)
    case ActivateLoan(id) => WhyNotActivate(w, tx.signers, id, e)
    case RefreshLoanState(id) => WhyNotRefresh(w, id, e)
    case AddCollateral(id, amount) => WhyNotTopUp(w, tx.signers, id, amount, e)
    case PartialRepay(id, amount) => WhyNotPartial(w, tx.signers, id, amount, e)
    case FullRepay(id) => WhyNotFull(w, tx.signers, id, e)
    case MarkExpired(id) => WhyNotMark(w.lending, id, false, e)
    case MarkDefaulted(id) => WhyNotMark(w.lending, id, true, e)
    case Liquidate(id, liquidator, amount) => WhyNotLiquidate(w, tx.signers, id, liquidator, amount, e)
    case CleanupLoan(id) => WhyNotCleanupLoan(w, tx.signers, id, e)
    case _ => WhyNotOutside(w, tx, e)
  }

  lemma OutsideRefused(w: World, tx: Tx)
    requires SupplyOk(w.lending.ledger)
    requires tx.call.SetPrice? || tx.call.Withdraw? || tx.call.TransferTokens? || tx.call.Tick?
    ensures Execute(w, tx).Err? ==> WhyNotOutside(w, tx, Execute(w, tx).error)
  {
    match tx.call {
      case Withdraw(asset, recipient, amount) =>
        TransferSucceeds(w.lending.ledger.balances, asset, VaultAddress, recipient, amount);
      case TransferTokens(asset, sender, recipient, amount) =>
        TransferSucceeds(w.lending.ledger.balances, asset, sender, recipient, amount);
      case _ =>
    }
  }

  lemma LendingRefused(w: World, tx: Tx)
    requires Inv(w) && ForLoanManager(tx.call) && ExecuteLending(w.lending, tx.signers, tx.call).Err?
    ensures WhyNot(w, tx, ExecuteLending(w.lending, tx.signers, tx.call).error)
  {
    match tx.call {
      case ActivateLoan(id) => ActivateRefused(w, tx.signers, id);
      case RefreshLoanState(id) => RefreshRefused(w, id);
      case AddCollateral(id, amount) => TopUpRefused(w, tx.signers, id, amount);
      case PartialRepay(id, amount) => PartialRefused(w, tx.signers, id, amount);
      case FullRepay(id) => FullRefused(w, tx.signers, id);
      case MarkExpired(id) => MarkRefused(w.lending, id);
      case MarkDefaulted(id) => MarkRefused(w.lending, id);
      case Liquidate(id, liquidator, amount) => LiquidateRefused(w, tx.signers, id, liquidator, amount);
      case CleanupLoan(id) => CleanupLoanRefused(w, tx.signers, id);
    }
  }

  /**
   * In every reachable state, a rejected transaction gives an error that names a true reason: who
   * did not sign, which record is missing or in the wrong status, which price is missing or stale,
   * which balance is short, which sum or product does not fit. No other error ever occurs.
   */
  lemma EveryRefusalIsTrue(w: World, tx: Tx)
    requires Reachable(w) && Execute(w, tx).Err?
    ensures WhyNot(w, tx, Execute(w, tx).error)
  {
    ReachableInvariant(w);
    if ForLoanManager(tx.call) {
      LendingRefused(w, tx);
    } else {
      match tx.call
      case CreateOffer(terms) => CreateRefused(w, tx.signers, terms);
      case FundOffer(id) => FundRefused(w, tx.signers, id);
      case ActivateOffer(id) => ActivateOfferRefused(w, tx.signers, id);
      case CancelOffer(id) => SettleRefused(w, tx.signers, id);
      case ExpireOffer(id) => SettleRefused(w, tx.signers, id);
      case AcceptOffer(id, borrower, collateral) => AcceptRefused(w, tx.signers, id, borrower, collateral);
      case CleanupOffer(id) => CleanupOfferRefused(w, tx.signers, id);
      case _ => OutsideRefused(w, tx);
    }
  }
}
