/** The Loan Manager as deployed: it loads a loan, changes the copy step by step, and stores it back. */
module LoanManagerEntry {
  import opened Shared
  import opened RiskMath
  import opened Environment
  import opened VaultEntry
  import opened OracleEntry
  import Spec = LoanManager
  import Vault

  class LoanManagerContract {
    const env: Env
    const vault: VaultContract
    const oracle: OracleContract
    var loans: map<nat, Loan>
    var loanCount: u64

    constructor (env: Env, vault: VaultContract, oracle: OracleContract)
      requires vault.env == env && oracle.env == env
      ensures this.env == env && this.vault == vault && this.oracle == oracle && Wired()
      ensures loans == map[] && loanCount == 0
    {
      this.env, this.vault, this.oracle := env, vault, oracle;
      loans, loanCount := map[], 0;
    }

    /** The contracts it calls run on the same ledger host. */
    ghost predicate Wired() {
      vault.env == env && oracle.env == env
    }

    function View(): Spec.LendingState
      reads this, vault, vault.env, vault.tokens, oracle, env
    {
      Spec.LendingState(vault.View(), loans, loanCount, oracle.prices, env.now)
    }

    method GetLoan(id: nat) returns (r: Result<Loan>)
      ensures r == Spec.GetLoan(View(), id)
    {
      if id !in loans {
        return Err(LoanNotFound);
      }
      return Ok(loans[id]);
    }

    /** Stores a loan and publishes what happened to it. */
    method Store(id: nat, loan: Loan, e: Event)
      requires Wired()
      modifies this`loans, env`log
      ensures View() == Spec.Store(old(View()), old(vault.View()), id, loan, e)
    {
      loans := loans[id := loan];
      env.Publish(e);
    }

    // What a loan's risk is at the current price. The ghost argument is a state with today's prices and
    // clock; only these two parts of it matter, so callers may name the state the transaction started in.

    ghost predicate Current(s: Spec.LendingState)
      reads oracle, env
    {
      s.prices == oracle.prices && s.now == env.now
    }

    method CalculateHealthFactor(loan: Loan, ghost s: Spec.LendingState) returns (r: Result<u32>)
      requires Wired() && Current(s)
      ensures r == Spec.CalculateHealthFactor(s, loan)
    {
      if loan.outstandingDebt <= 0 {
        return Ok(U32_MAX);
      }
      var price :- oracle.GetFreshPriceForAssets(loan.collateralAsset, loan.loanAsset);
      r := HealthFactor(loan.collateralAmount, loan.outstandingDebt, loan.liquidationThresholdBps, price);
    }

    method CalculateLtv(loan: Loan, ghost s: Spec.LendingState) returns (r: Result<u32>)
      requires Wired() && Current(s)
      ensures r == Spec.CalculateLtv(s, loan)
    {
      var price :- oracle.GetFreshPriceForAssets(loan.collateralAsset, loan.loanAsset);
      r := LoanToValue(loan.collateralAmount, loan.outstandingDebt, price);
    }

    method CalculateSeizeCollateral(loan: Loan, repay: i128, ghost s: Spec.LendingState) returns (r: Result<i128>)
      requires Wired() && Current(s)
      ensures r == Spec.CalculateSeizeCollateral(s, loan, repay)
    {
      var price :- oracle.GetFreshPriceForAssets(loan.collateralAsset, loan.loanAsset);
      r := SeizeCollateral(repay, loan.liquidationBonusBps, price);
    }

    /** Refreshes the status of a loaded loan, returning early where the status is final or timed. */
    method UpdateStatus(before: Loan, ghost s: Spec.LendingState) returns (r: Result<Loan>)
      requires Wired() && Current(s)
      ensures r == Spec.UpdateStatus(s, before)
    {
      var loan := before;
      if loan.outstandingDebt == 0 || loan.status.PendingCollateral? {
        return Ok(loan);
      }
      if loan.status.Repaid? || loan.status.Liquidated? || loan.status.Closed? {
        return Ok(loan);
      }
      var defaultTime :- Spec.DefaultTime(loan);
      if env.now > defaultTime {
        loan := loan.(status := Defaulted);
        return Ok(loan);
      }
      if env.now > loan.dueTime {
        loan := loan.(status := LoanStatus.Expired);
        return Ok(loan);
      }
      var hf :- CalculateHealthFactor(loan, s);
      loan := loan.(status := Spec.StatusForHf(loan, hf));
      return Ok(loan);
    }

    method ReleaseAllCollateral(before: Loan) returns (r: Result<Loan>)
      modifies vault, vault.tokens, vault.env`log
      ensures match Spec.ReleaseAllCollateral(old(vault.View()), before)
              case Ok(released) => r == Ok(released.loan) && vault.View() == released.ledger
              case Err(e) => r == Err(e)
    {
      var loan := before;
      if loan.collateralAmount == 0 {
        return Ok(loan);
      }
      var _ :- vault.ReleaseBorrowerCollateral(
                 loan.loanId, loan.borrower, loan.collateralAsset, loan.collateralAmount);
      loan := loan.(collateralAmount := 0);
      return Ok(loan);
    }

    method CreatePendingLoanFromOffer(offer: LoanOffer, borrower: Address, collateral: i128) returns (r: Result<nat>)
      requires Wired()
      modifies this, env`log
      ensures match Spec.CreatePendingLoanFromOffer(old(View()), offer, borrower, collateral)
              case Ok(created) => r == Ok(created.loanId) && View() == created.state
              case Err(e) => r == Err(e)
    {
      if collateral <= 0 {
        return Err(AmountNotPositive);
      }
      if !offer.status.Active? {
        return Err(OfferNotActive);
      }
      if offer.loanAmount <= 0 {
        return Err(InvalidLoanAmount);
      }
      if offer.fixedAprBps == 0 || offer.fixedAprBps > MAX_FIXED_APR_BPS {
        return Err(InvalidApr);
      }
      var id :- CheckedU64Add(loanCount, 1);
      loanCount := id;
      var debt :- PrincipalWithInterest(offer.loanAmount, offer.fixedAprBps, offer.durationDays);
      var loan := Loan(
                    id, offer.offerId, offer.lender, borrower, offer.loanAsset, offer.loanAmount, debt,
                    offer.fixedAprBps, offer.durationDays, offer.collateralAsset, collateral, 0, 0,
                    offer.maxLtvBps, offer.liquidationThresholdBps, offer.liquidationBonusBps,
                    Max(offer.minHealthFactorBps, SAFE_HEALTH_FACTOR_BPS), offer.gracePeriodDays, PendingCollateral);
      Store(id, loan, LoanCreated(id, borrower, debt));
      return Ok(id);
    }

    /** Takes the collateral in, then pays the principal out of the offer's escrow. */
    method Disburse(id: nat, loan: Loan) returns (r: Result<()>)
      requires Wired()
      modifies vault, vault.tokens, env`log
      ensures match Vault.LockBorrowerCollateral(
                      old(vault.View()), env.signers, id, loan.borrower, loan.collateralAsset, loan.collateralAmount)
              case Err(e) => r == Err(e)
              case Ok(locked) =>
                match Vault.TransferLoanAssetToBorrower(
                        locked, loan.offerId, id, loan.borrower, loan.loanAsset, loan.principal)
                case Err(e) => r == Err(e)
                case Ok(paid) => r == Ok(()) && vault.View() == paid
    {
      var _ :- vault.LockBorrowerCollateral(id, loan.borrower, loan.collateralAsset, loan.collateralAmount);
      r := vault.TransferLoanAssetToBorrower(loan.offerId, id, loan.borrower, loan.loanAsset, loan.principal);
    }

    method OpenLoan(id: nat, before: Loan, hf: u32) returns (r: Result<()>)
      requires Wired()
      modifies this, vault, vault.tokens, env`log
      ensures match Spec.OpenLoan(old(View()), env.signers, id, before, hf)
              case Ok(s) => r == Ok(()) && View() == s
              case Err(e) => r == Err(e)
    {
      var loan := before;
      var _ :- Disburse(id, loan);
      loan := loan.(startTime := env.now);
      var due :- CheckedU64Add(env.now, DaysToSeconds(loan.durationDays));
      loan := loan.(dueTime := due);
      loan := loan.(status := Spec.StatusForHf(loan, hf));
      Store(id, loan, LoanActivated(id, loan.outstandingDebt));
      return Ok(());
    }

    method ActivateLoan(id: nat) returns (r: Result<()>)
      requires Wired()
      modifies this, vault, vault.tokens, env`log
      ensures match Spec.ActivateLoan(old(View()), env.signers, id)
              case Ok(s) => r == Ok(()) && View() == s
              case Err(e) => r == Err(e)
    {
      var loan :- GetLoan(id);
      if !loan.status.PendingCollateral? {
        return Err(LoanNotPending);
      }
      var _ :- env.RequireAuth(loan.borrower);
      var ltv :- CalculateLtv(loan, old(View()));
      if ltv > loan.maxLtvBps {
        return Err(CollateralBelowMaxLtv);
      }
      var hf :- CalculateHealthFactor(loan, old(View()));
      if hf < Spec.EffectiveMinHf(loan) {
        return Err(HealthFactorBelowMinimum);
      }
      r := OpenLoan(id, loan, hf);
    }

    /** Answers the status that it stores. */
    method RefreshLoanState(id: nat) returns (r: Result<LoanStatus>)
      requires Wired()
      modifies this, env`log
      ensures match Spec.RefreshLoanState(old(View()), id)
              case Ok(s) => id in loans && r == Ok(loans[id].status) && View() == s
              case Err(e) => r == Err(e)
    {
      var loan :- GetLoan(id);
      loan :- UpdateStatus(loan, old(View()));
      Store(id, loan, LoanStateUpdated(id, loan.status));
      return Ok(loan.status);
    }

    method AddCollateral(id: nat, amount: i128) returns (r: Result<()>)
      requires Wired()
      modifies this, vault, vault.tokens, env`log
      ensures match Spec.AddCollateral(old(View()), env.signers, id, amount)
              case Ok(s) => r == Ok(()) && View() == s
              case Err(e) => r == Err(e)
    {
      if amount <= 0 {
        return Err(AmountNotPositive);
      }
      var loan :- GetLoan(id);
      :- Need(Mutable(loan.status), LoanClosed);
      var _ :- env.RequireAuth(loan.borrower);
      var _ :- vault.LockBorrowerCollateral(id, loan.borrower, loan.collateralAsset, amount);
      var total :- CheckedI128Add(loan.collateralAmount, amount);
      loan := loan.(collateralAmount := total);
      loan :- UpdateStatus(loan, old(View()));
      Store(id, loan, CollateralAdded(id, amount));
      return Ok(());
    }

    /** A repayment that clears the debt closes the loan; any other refreshes its status. */
    method SettleOrRefresh(before: Loan, ghost s: Spec.LendingState) returns (r: Result<Loan>)
      requires Wired() && Current(s)
      modifies vault, vault.tokens, env`log
      ensures if before.outstandingDebt == 0 then
                match Spec.ReleaseAllCollateral(old(vault.View()), before)
                case Ok(released) => r == Ok(released.loan.(status := Repaid)) && vault.View() == released.ledger
                case Err(e) => r == Err(e)
              else
                r == Spec.UpdateStatus(s, before) && vault.View() == old(vault.View())
    {
      var loan := before;
      if loan.outstandingDebt == 0 {
        loan :- ReleaseAllCollateral(loan);
        loan := loan.(status := Repaid);
      } else {
        loan :- UpdateStatus(loan, s);
      }
      return Ok(loan);
    }

    method ApplyRepayment(id: nat, before: Loan, repay: i128) returns (r: Result<()>)
      requires Wired()
      requires repay == before.outstandingDebt || 0 < repay < before.outstandingDebt
      modifies this, vault, vault.tokens, env`log
      ensures match Spec.ApplyRepayment(old(View()), env.signers, id, before, repay)
              case Ok(s) => r == Ok(()) && View() == s
              case Err(e) => r == Err(e)
    {
      var loan := before;
      var _ :- vault.CollectRepaymentFrom(id, loan.borrower, loan.lender, loan.loanAsset, repay);
      loan := loan.(outstandingDebt := loan.outstandingDebt - repay);
      loan :- SettleOrRefresh(loan, old(View()));
      Store(id, loan, PartialRepaid(id, repay));
      return Ok(());
    }

    method PartialRepay(id: nat, amount: i128) returns (r: Result<()>)
      requires Wired()
      modifies this, vault, vault.tokens, env`log
      ensures match Spec.PartialRepay(old(View()), env.signers, id, amount)
              case Ok(s) => r == Ok(()) && View() == s
              case Err(e) => r == Err(e)
    {
      if amount <= 0 {
        return Err(AmountNotPositive);
      }
      var loan :- GetLoan(id);
      :- Need(Mutable(loan.status), LoanClosed);
      var _ :- env.RequireAuth(loan.borrower);
      r := ApplyRepayment(id, loan, Min(amount, loan.outstandingDebt));
    }

    method FullRepay(id: nat) returns (r: Result<()>)
      requires Wired()
      modifies this, vault, vault.tokens, env`log
      ensures match Spec.FullRepay(old(View()), env.signers, id)
              case Ok(s) => r == Ok(()) && View() == s
              case Err(e) => r == Err(e)
    {
      var loan :- GetLoan(id);
      :- Need(Mutable(loan.status), LoanClosed);
      var _ :- env.RequireAuth(loan.borrower);
      var repay := loan.outstandingDebt;
      if repay > 0 {
        var _ :- vault.CollectRepaymentFrom(id, loan.borrower, loan.lender, loan.loanAsset, repay);
      }
      loan := loan.(outstandingDebt := 0);
      loan :- ReleaseAllCollateral(loan);
      loan := loan.(status := Repaid);
      Store(id, loan, LoanRepaid(id, repay));
      return Ok(());
    }

    method MarkExpired(id: nat) returns (r: Result<()>)
      requires Wired()
      modifies this, env`log
      ensures match Spec.MarkExpired(old(View()), id)
              case Ok(s) => r == Ok(()) && View() == s
              case Err(e) => r == Err(e)
    {
      var loan :- GetLoan(id);
      :- Need(Mutable(loan.status), LoanClosed);
      if env.now <= loan.dueTime {
        return Err(LoanNotExpired);
      }
      loan := loan.(status := LoanStatus.Expired);
      Store(id, loan, LoanExpired(id));
      return Ok(());
    }

    method MarkDefaulted(id: nat) returns (r: Result<()>)
      requires Wired()
      modifies this, env`log
      ensures match Spec.MarkDefaulted(old(View()), id)
              case Ok(s) => r == Ok(()) && View() == s
              case Err(e) => r == Err(e)
    {
      var loan :- GetLoan(id);
      :- Need(Mutable(loan.status), LoanClosed);
      var defaultTime :- Spec.DefaultTime(loan);
      if env.now <= defaultTime {
        return Err(LoanInGracePeriod);
      }
      loan := loan.(status := Defaulted);
      Store(id, loan, LoanDefaulted(id));
      return Ok(());
    }

    /** The checks of a liquidation, and the amounts it will move. */
    method QuoteLiquidation(loan: Loan, amount: i128) returns (r: Result<Spec.Quote>)
      requires Wired()
      ensures r == Spec.LiquidationQuote(View(), loan, amount)
    {
      var hf :- CalculateHealthFactor(loan, old(View()));
      if hf >= LIQUIDATION_HEALTH_FACTOR_BPS && !loan.status.Defaulted? {
        return Err(LoanNotLiquidatable);
      }
      var limit :- CloseFactorLimit(loan.outstandingDebt);
      var repay: i128 := Min(amount, Min(limit, loan.outstandingDebt));
      :- Need(repay > 0, AmountNotPositive);
      var seized :- CalculateSeizeCollateral(loan, repay, old(View()));
      if seized > loan.collateralAmount {
        return Err(InsufficientCollateralToSeize);
      }
      return Ok(Spec.Quote(repay, seized));
    }

    /** Pays the lender, then hands the seized collateral to the liquidator. */
    method Seize(id: nat, liquidator: Address, loan: Loan, quote: Spec.Quote) returns (r: Result<()>)
      requires Wired()
      modifies vault, vault.tokens, env`log
      ensures match Vault.CollectRepaymentFrom(
                      old(vault.View()), env.signers, id, liquidator, loan.lender, loan.loanAsset, quote.repay)
              case Err(e) => r == Err(e)
              case Ok(paid) =>
                match Vault.TransferCollateralToLiquidator(paid, id, liquidator, loan.collateralAsset, quote.seized)
                case Err(e) => r == Err(e)
                case Ok(taken) => r == Ok(()) && vault.View() == taken
    {
      var _ :- vault.CollectRepaymentFrom(id, liquidator, loan.lender, loan.loanAsset, quote.repay);
      r := vault.TransferCollateralToLiquidator(id, liquidator, loan.collateralAsset, quote.seized);
    }

    method CloseLiquidation(before: Loan, ghost s: Spec.LendingState) returns (r: Result<Loan>)
      requires Wired() && Current(s)
      modifies vault, vault.tokens, env`log
      ensures match Spec.CloseLiquidation(s, old(vault.View()), before)
              case Ok(closed) => r == Ok(closed.loan) && vault.View() == closed.ledger
              case Err(e) => r == Err(e)
    {
      var loan := before;
      if loan.outstandingDebt == 0 {
        loan := loan.(status := Liquidated);
        if loan.collateralAmount > 0 {
          loan :- ReleaseAllCollateral(loan);
        }
      } else {
        loan :- UpdateStatus(loan, s);
      }
      return Ok(loan);
    }

    method ApplyQuote(id: nat, liquidator: Address, before: Loan, quote: Spec.Quote) returns (r: Result<()>)
      requires Wired()
      requires 0 < quote.repay <= before.outstandingDebt && 0 <= quote.seized <= before.collateralAmount
      modifies this, vault, vault.tokens, env`log
      ensures match Spec.ApplyQuote(old(View()), env.signers, id, liquidator, before, quote)
              case Ok(s) => r == Ok(()) && View() == s
              case Err(e) => r == Err(e)
    {
      var loan := before;
      var _ :- Seize(id, liquidator, loan, quote);
      loan := loan.(outstandingDebt := loan.outstandingDebt - quote.repay);
      loan := loan.(collateralAmount := loan.collateralAmount - quote.seized);
      loan :- CloseLiquidation(loan, old(View()));
      Store(id, loan, LoanLiquidated(id, liquidator, quote.repay));
      return Ok(());
    }

    method Liquidate(id: nat, liquidator: Address, amount: i128) returns (r: Result<()>)
      requires Wired()
      modifies this, vault, vault.tokens, env`log
      ensures match Spec.Liquidate(old(View()), env.signers, id, liquidator, amount)
              case Ok(s) => r == Ok(()) && View() == s
              case Err(e) => r == Err(e)
    {
      if amount <= 0 {
        return Err(AmountNotPositive);
      }
      var loan :- GetLoan(id);
      :- Need(Mutable(loan.status), LoanClosed);
      var _ :- env.RequireAuth(liquidator);
      var quote :- QuoteLiquidation(loan, amount);
      r := ApplyQuote(id, liquidator, loan, quote);
    }

    method CleanupLoan(id: nat) returns (r: Result<()>)
      requires Wired()
      modifies this, env`log
      ensures match Spec.CleanupLoan(old(View()), env.signers, id)
              case Ok(s) => r == Ok(()) && View() == s
              case Err(e) => r == Err(e)
    {
      var _ :- env.RequireAuth(ADMIN);
      var loan :- GetLoan(id);
      if !loan.status.Repaid? && !loan.status.Liquidated? && !loan.status.Closed? {
        return Err(LoanNotTerminal);
      }
      if loan.collateralAmount > 0 || loan.outstandingDebt > 0 {
        return Err(LoanHasBalances);
      }
      loans := loans - {id};
      env.Publish(LoanCleaned(id));
      return Ok(());
    }
  }
}
