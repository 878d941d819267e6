/** Exactly when a call succeeds, in any reachable state: what the checks add up to across the contracts. */
module EntryConditions {
  import opened Shared
  import opened Token
  import opened Ledger
  import opened Oracle
  import opened RiskMath
  import opened RiskProperties
  import opened LoanManager
  import opened Marketplace
  import opened Protocol
  import opened Invariant
  import opened Custody
  import opened PricedLoans
  import Vault

  /** Terms a lender may offer. */
  predicate AcceptableTerms(t: Terms) {
    && t.loanAsset != t.collateralAsset
    && t.loanAmount > 0
    && 1 <= t.fixedAprBps <= 2_000
    && t.durationDays >= 1
    && 1 <= t.maxLtvBps <= t.liquidationThresholdBps <= 10_000
    && t.liquidationBonusBps <= 5_000
    && (t.minHealthFactorBps == 0 || t.minHealthFactorBps >= 14_000)
  }

  /** The offer says what its lender asked for, with 500 bps and 14000 bps where nothing was asked. */
  predicate HasTerms(offer: LoanOffer, t: Terms) {
    && offer.lender == t.lender
    && offer.loanAsset == t.loanAsset && offer.collateralAsset == t.collateralAsset
    && offer.loanAmount == t.loanAmount && offer.fixedAprBps == t.fixedAprBps
    && offer.durationDays == t.durationDays && offer.gracePeriodDays == t.gracePeriodDays
    && offer.maxLtvBps == t.maxLtvBps && offer.liquidationThresholdBps == t.liquidationThresholdBps
    && offer.liquidationBonusBps == (if t.liquidationBonusBps == 0 then 500 else t.liquidationBonusBps)
    && offer.minHealthFactorBps == Max(t.minHealthFactorBps, 14_000)
  }

  /** An offer is created exactly for acceptable terms that its lender signs, under the next identifier. */
  lemma CreateSucceeds(w: World, signers: Signers, t: Terms)
    requires Reachable(w)
    ensures var r := Execute(w, Tx(signers, Call.CreateOffer(t)));
            && (r.Ok? <==> t.lender in signers && AcceptableTerms(t) && w.offerCount < U64_MAX)
            && (r.Ok? ==>
                  var id, offers := w.offerCount + 1, r.value.offers;
                  && r.value.offerCount == id
                  && id !in w.offers && id in offers && offers == w.offers[id := offers[id]]
                  && HasTerms(offers[id], t) && offers[id].status.Draft? && offers[id].offerId == id)
  {
    ReachableInvariant(w);
  }

  /** Funding needs a draft, its lender's signature and the lender's money, and nothing else. */
  lemma FundSucceeds(w: World, signers: Signers, id: nat)
    requires Reachable(w)
    ensures Execute(w, Tx(signers, Call.FundOffer(id))).Ok?
       <==> && id in w.offers && w.offers[id].status.Draft? && w.offers[id].lender in signers
            && BalanceOf(w.lending.ledger.balances, w.offers[id].loanAsset, w.offers[id].lender)
               >= w.offers[id].loanAmount
  {
    ReachableInvariant(w);
    if id in w.offers {
      var offer := w.offers[id];
      assert OfferOk(w, id) && OfferLocked(w.lending.ledger, id) == ExpectedLock(w, id);
      TransferSucceeds(w.lending.ledger.balances, offer.loanAsset, offer.lender, VaultAddress, offer.loanAmount);
      FundingNeedsLock(w, signers, id);
    }
  }

  lemma FundingNeedsLock(w: World, signers: Signers, id: nat)
    requires id in w.offers && w.offers[id].loanAmount > 0
    requires w.offers[id].status.Draft? ==> OfferLocked(w.lending.ledger, id) == 0
    ensures Marketplace.FundOffer(w, signers, id).Ok?
       <==> && w.offers[id].status.Draft? && w.offers[id].lender in signers
            && Transfer(w.lending.ledger.balances, w.offers[id].loanAsset, w.offers[id].lender, VaultAddress,
                        w.offers[id].loanAmount).Ok?
  {
  }

  /** A funded offer can always be activated: the check of its escrow never fails. */
  lemma ActivateOfferSucceeds(w: World, signers: Signers, id: nat)
    requires Reachable(w)
    ensures Execute(w, Tx(signers, Call.ActivateOffer(id))).Ok?
       <==> id in w.offers && w.offers[id].status.Funding? && w.offers[id].lender in signers
  {
    ReachableInvariant(w);
    assert OfferLocked(w.lending.ledger, id) == ExpectedLock(w, id);
  }

  /** Principal and interest of an offer fit their types. */
  predicate DebtFits(offer: LoanOffer) {
    var product := offer.loanAmount * offer.fixedAprBps * offer.durationDays;
    product <= U128_MAX && offer.loanAmount + product / 3_650_000 <= I128_MAX
  }

  lemma DebtOnStoredData(offer: LoanOffer)
    requires offer.loanAmount > 0 && offer.durationDays > 0
    ensures PrincipalWithInterest(offer.loanAmount, offer.fixedAprBps, offer.durationDays).Ok? <==> DebtFits(offer)
  {
    var yearly := offer.loanAmount * offer.fixedAprBps;
    MulMonotone(1, offer.durationDays, yearly);
  }

  /** An active offer can be accepted by anyone but its lender; the Loan Manager's own checks never fail. */
  lemma AcceptSucceeds(w: World, signers: Signers, id: nat, borrower: Address, collateral: i128)
    requires Reachable(w)
    ensures Execute(w, Tx(signers, Call.AcceptOffer(id, borrower, collateral))).Ok?
       <==> && id in w.offers && w.offers[id].status.Active? && w.offers[id].lender != borrower
            && borrower in signers && collateral > 0 && w.lending.loanCount < U64_MAX && DebtFits(w.offers[id])
  {
    ReachableInvariant(w);
    if id in w.offers {
      assert OfferOk(w, id);
      DebtOnStoredData(w.offers[id]);
      AcceptingNeedsDebt(w, signers, id, borrower, collateral);
    }
  }

  /** The loan has the terms of the offer, and owes principal and interest. */
  predicate Inherits(loan: Loan, offer: LoanOffer) {
    && loan.offerId == offer.offerId && loan.lender == offer.lender
    && loan.loanAsset == offer.loanAsset && loan.collateralAsset == offer.collateralAsset
    && loan.principal == offer.loanAmount && loan.fixedAprBps == offer.fixedAprBps
    && loan.durationDays == offer.durationDays && loan.gracePeriodDays == offer.gracePeriodDays
    && loan.maxLtvBps == offer.maxLtvBps && loan.liquidationThresholdBps == offer.liquidationThresholdBps
    && loan.liquidationBonusBps == offer.liquidationBonusBps && loan.minHealthFactorBps == offer.minHealthFactorBps
    && PrincipalWithInterest(offer.loanAmount, offer.fixedAprBps, offer.durationDays) == Ok(loan.outstandingDebt)
  }

  /** Acceptance matches the offer and adds one waiting loan on the offer's own terms, and moves no money. */
  lemma AcceptEffect(w: World, signers: Signers, id: nat, borrower: Address, collateral: i128)
    requires Reachable(w) && Marketplace.AcceptOffer(w, signers, id, borrower, collateral).Ok?
    ensures id in w.offers
    ensures var v, k := Marketplace.AcceptOffer(w, signers, id, borrower, collateral).value, w.lending.loanCount + 1;
            && v.offers == w.offers[id := w.offers[id].(status := Matched)]
            && k !in w.lending.loans && k in v.lending.loans && v.lending.loans == w.lending.loans[k := v.lending.loans[k]]
            && Inherits(v.lending.loans[k], w.offers[id])
            && v.lending.loans[k].borrower == borrower && v.lending.loans[k].collateralAmount == collateral
            && v.lending.loans[k].status.PendingCollateral?
            && v.lending.ledger.balances == w.lending.ledger.balances
  {
    ReachableInvariant(w);
    assert OfferOk(w, id);
  }

  lemma AcceptingNeedsDebt(w: World, signers: Signers, id: nat, borrower: Address, collateral: i128)
    requires id in w.offers && w.offers[id].loanAmount > 0 && 0 < w.offers[id].fixedAprBps <= MAX_FIXED_APR_BPS
    ensures Marketplace.AcceptOffer(w, signers, id, borrower, collateral).Ok?
       <==> && w.offers[id].status.Active? && w.offers[id].lender != borrower
            && borrower in signers && collateral > 0 && w.lending.loanCount < U64_MAX
            && PrincipalWithInterest(w.offers[id].loanAmount, w.offers[id].fixedAprBps, w.offers[id].durationDays).Ok?
  {
  }

  /** The admin can clean up a settled offer exactly when no loan of it still waits for its principal. */
  lemma CleanupOfferSucceeds(w: World, signers: Signers, id: nat)
    requires Reachable(w)
    ensures Execute(w, Tx(signers, Call.CleanupOffer(id))).Ok?
       <==> && ADMIN in signers && id in w.offers && NotSettled(w.offers[id].status).Fail?
            && !(w.offers[id].status.Matched? && HasPending(w, id))
  {
    ReachableInvariant(w);
    assert OfferLocked(w.lending.ledger, id) == ExpectedLock(w, id);
    if id in w.offers {
      assert OfferOk(w, id);
    }
  }

  /** The admin can clean up a loan exactly when it is repaid: no closed loan has balances left. */
  lemma CleanupLoanSucceeds(w: World, signers: Signers, id: nat)
    requires Reachable(w)
    ensures Execute(w, Tx(signers, Call.CleanupLoan(id))).Ok?
       <==> ADMIN in signers && id in w.lending.loans && w.lending.loans[id].status.Repaid?
  {
    ReachableInvariant(w);
    if id in w.lending.loans {
      LoanIsOk(w, id);
    }
  }

  /**
   * Anyone can mark an open loan exactly when its time has come; where the end of the grace
   * period does not fit in a u64, it has not.
   */
  lemma MarkingSucceeds(s: LendingState, id: nat)
    requires id in s.loans
    ensures var loan := s.loans[id];
            && (LoanManager.MarkExpired(s, id).Ok? <==> Mutable(loan.status) && s.now > loan.dueTime)
            && (LoanManager.MarkDefaulted(s, id).Ok?
                <==> Mutable(loan.status) && s.now > loan.dueTime + loan.gracePeriodDays * 86_400)
  {
  }

  /**
   * What the price has to be for a waiting loan: at most a day old, with products that fit, and
   * such that debt is within the largest LTV and the weighted value within the smallest health factor.
   */
  predicate PassesGate(s: LendingState, loan: Loan) {
    var price := PriceOf(s, loan);
    && HasFreshPrice(s, loan) && HealthFits(loan, price)
    && loan.outstandingDebt * 10_000 <= U128_MAX
    && loan.outstandingDebt * 10_000 < (loan.maxLtvBps + 1) * Worth(loan.collateralAmount, price)
    && Weighted(loan, price) >= loan.minHealthFactorBps * loan.outstandingDebt
  }

  /** The gate as the contract checks it. */
  predicate GateOpens(s: LendingState, loan: Loan) {
    var ltv, hf := CalculateLtv(s, loan), CalculateHealthFactor(s, loan);
    ltv.Ok? && ltv.value <= loan.maxLtvBps && hf.Ok? && hf.value >= EffectiveMinHf(loan)
  }

  lemma GateOnStoredData(w: World, id: nat)
    requires Reachable(w) && id in w.lending.loans && w.lending.loans[id].status.PendingCollateral?
    ensures GateOpens(w.lending, w.lending.loans[id]) <==> PassesGate(w.lending, w.lending.loans[id])
  {
    ReachableInvariant(w);
    LoanIsOk(w, id);
    var loan := w.lending.loans[id];
    InterestNonNegative(loan.principal, loan.fixedAprBps, loan.durationDays);
    LtvOnStoredData(w.lending, loan, loan.maxLtvBps);
    HealthOnStoredData(w.lending, loan, loan.minHealthFactorBps);
  }

  /**
   * A waiting loan is opened exactly when it passes the gate, its borrower signs and holds the
   * collateral, and the Vault holds the principal; the escrow entries are always sufficient.
   */
  lemma ActivateLoanSucceeds(w: World, signers: Signers, id: nat)
    requires Reachable(w)
    ensures Execute(w, Tx(signers, Call.ActivateLoan(id))).Ok?
       <==> && id in w.lending.loans
            && var loan := w.lending.loans[id];
               && loan.status.PendingCollateral? && loan.borrower in signers && PassesGate(w.lending, loan)
               && BalanceOf(w.lending.ledger.balances, loan.collateralAsset, loan.borrower) >= loan.collateralAmount
               && VaultBalance(w, loan.loanAsset) >= loan.principal
               && w.lending.now + loan.durationDays * SECONDS_PER_DAY <= U64_MAX
  {
    if id in w.lending.loans {
      if w.lending.loans[id].status.PendingCollateral? && w.lending.loans[id].borrower in signers {
        DisbursementSucceeds(w, signers, id);
        GateOnStoredData(w, id);
      }
      OpeningNeeds(w.lending, signers, id);
    }
  }

  /** Both transfers of an activation, one after the other. */
  function Disbursed(s: LedgerState, signers: Signers, id: nat, loan: Loan): Result<LedgerState> {
    var locked :- Vault.LockBorrowerCollateral(
                    s, signers, id, loan.borrower, loan.collateralAsset, loan.collateralAmount);
    Vault.TransferLoanAssetToBorrower(locked, loan.offerId, id, loan.borrower, loan.loanAsset, loan.principal)
  }

  lemma OpeningNeeds(s: LendingState, signers: Signers, id: nat)
    requires id in s.loans
    ensures LoanManager.ActivateLoan(s, signers, id).Ok?
       <==> var loan := s.loans[id];
            && loan.status.PendingCollateral? && loan.borrower in signers && GateOpens(s, loan)
            && Disbursed(s.ledger, signers, id, loan).Ok?
            && s.now + loan.durationDays * SECONDS_PER_DAY <= U64_MAX
  {
  }

  lemma DisbursementSucceeds(w: World, signers: Signers, id: nat)
    requires Reachable(w) && id in w.lending.loans
    requires w.lending.loans[id].status.PendingCollateral? && w.lending.loans[id].borrower in signers
    ensures var loan := w.lending.loans[id];
            Disbursed(w.lending.ledger, signers, id, loan).Ok?
            <==> && BalanceOf(w.lending.ledger.balances, loan.collateralAsset, loan.borrower) >= loan.collateralAmount
                 && VaultBalance(w, loan.loanAsset) >= loan.principal
  {
    ReachableInvariant(w);
    LoanIsOk(w, id);
    EscrowOf(w, id);
    var s, loan := w.lending.ledger, w.lending.loans[id];
    TransferSucceeds(s.balances, loan.collateralAsset, loan.borrower, VaultAddress, loan.collateralAmount);
    if BalanceOf(s.balances, loan.collateralAsset, loan.borrower) >= loan.collateralAmount {
      LockingSucceeds(s, signers, id, loan);
      var locked := Vault.LockBorrowerCollateral(
                      s, signers, id, loan.borrower, loan.collateralAsset, loan.collateralAmount).value;
      MovedKeepsSupply(s, locked, loan.collateralAsset, loan.borrower, VaultAddress, loan.collateralAmount);
      TransferSucceeds(locked.balances, loan.loanAsset, VaultAddress, loan.borrower, loan.principal);
      PayoutSucceeds(locked, loan, id);
    }
  }

  lemma LockingSucceeds(s: LedgerState, signers: Signers, id: nat, loan: Loan)
    requires loan.borrower in signers && loan.collateralAmount > 0
    requires LoanCollateral(s, id) == 0 && Locked(s, id, loan.collateralAsset) == 0
    requires Transfer(s.balances, loan.collateralAsset, loan.borrower, VaultAddress, loan.collateralAmount).Ok?
    ensures Vault.LockBorrowerCollateral(
              s, signers, id, loan.borrower, loan.collateralAsset, loan.collateralAmount).Ok?
  {
  }

  lemma PayoutSucceeds(s: LedgerState, loan: Loan, id: nat)
    requires loan.principal > 0 && OfferLocked(s, loan.offerId) == loan.principal
    ensures Vault.TransferLoanAssetToBorrower(s, loan.offerId, id, loan.borrower, loan.loanAsset, loan.principal).Ok?
       <==> Transfer(s.balances, loan.loanAsset, VaultAddress, loan.borrower, loan.principal).Ok?
  {
  }

  /** The loan that a liquidation leaves, before its status is refreshed. */
  function Reduced(loan: Loan, q: Quote): Loan
    requires 0 < q.repay <= loan.outstandingDebt && 0 <= q.seized <= loan.collateralAmount
  {
    loan.(outstandingDebt := loan.outstandingDebt - q.repay, collateralAmount := loan.collateralAmount - q.seized)
  }

  /** The loan is open, the liquidator asks for something and signs, and the end of the grace period fits. */
  predicate MayLiquidate(s: LendingState, signers: Signers, id: nat, liquidator: Address, amount: i128) {
    && id in s.loans && Mutable(s.loans[id].status) && amount > 0 && liquidator in signers
    && s.loans[id].dueTime + s.loans[id].gracePeriodDays * 86_400 <= U64_MAX
  }

  /**
   * An open loan is liquidated exactly when its price is at most a day old, it is defaulted or its
   * weighted value is below 1.2 times the debt, the products fit, the repayment and the seizure
   * are each at least one unit and the collateral suffices, and both payers hold what they pay.
   */
  lemma LiquidateSucceeds(w: World, signers: Signers, id: nat, liquidator: Address, amount: i128)
    requires Reachable(w)
    ensures Execute(w, Tx(signers, Call.Liquidate(id, liquidator, amount))).Ok?
       <==> && MayLiquidate(w.lending, signers, id, liquidator, amount)
            && var loan := w.lending.loans[id];
               && IsLiquidatable(w.lending, loan, amount)
               && var repay := RepaymentFor(loan, amount);
                  var seized := SeizedFor(repay, loan.liquidationBonusBps, PriceOf(w.lending, loan));
                  && seized >= 1
                  && BalanceOf(w.lending.ledger.balances, loan.loanAsset, liquidator) >= repay
                  && VaultBalance(w, loan.collateralAsset) >= seized
  {
    if id in w.lending.loans && Mutable(w.lending.loans[id].status) && liquidator in signers {
      LiquidationParts(w, signers, id, liquidator, amount);
      LiquidatingNeeds(w.lending, signers, id, liquidator, amount);
    }
  }

  /** What the price has to be for a liquidation that the loan's health does not decide. */
  predicate SeizureIsPriced(s: LendingState, loan: Loan, repay: int) {
    var price := PriceOf(s, loan);
    && HasFreshPrice(s, loan) && HealthFits(loan, price) && loan.outstandingDebt * 5_000 <= U128_MAX
    && repay >= 1 && SeizureFits(repay, loan.liquidationBonusBps, price)
    && 1 <= SeizedFor(repay, loan.liquidationBonusBps, price) <= loan.collateralAmount
  }

  /**
   * A defaulted loan is liquidatable whatever its health, but only at a price that is at most a
   * day old, and only up to the collateral it has; the end of its grace period always fits.
   */
  lemma DefaultedIsLiquidatable(w: World, signers: Signers, id: nat, liquidator: Address, amount: i128)
    requires Reachable(w) && id in w.lending.loans && w.lending.loans[id].status.Defaulted?
    ensures Execute(w, Tx(signers, Call.Liquidate(id, liquidator, amount))).Ok?
       <==> var loan := w.lending.loans[id];
            var repay := RepaymentFor(loan, amount);
            && amount > 0 && liquidator in signers && SeizureIsPriced(w.lending, loan, repay)
            && BalanceOf(w.lending.ledger.balances, loan.loanAsset, liquidator) >= repay
            && VaultBalance(w, loan.collateralAsset)
               >= SeizedFor(repay, loan.liquidationBonusBps, PriceOf(w.lending, loan))
  {
    LiquidateSucceeds(w, signers, id, liquidator, amount);
    ReachableInvariant(w);
    LoanIsOk(w, id);
  }

  /** The three parts of a liquidation that can fail, each in terms of what is stored. */
  lemma LiquidationParts(w: World, signers: Signers, id: nat, liquidator: Address, amount: i128)
    requires Reachable(w) && id in w.lending.loans && Mutable(w.lending.loans[id].status) && liquidator in signers
    ensures w.lending.loans[id].outstandingDebt > 0
    ensures var loan := w.lending.loans[id];
            var quote, repay := LiquidationQuote(w.lending, loan, amount), RepaymentFor(loan, amount);
            && (quote.Ok? <==> IsLiquidatable(w.lending, loan, amount))
            && (quote.Ok? ==>
                  var seized := SeizedFor(repay, loan.liquidationBonusBps, PriceOf(w.lending, loan));
                  && quote.value.repay == repay && quote.value.seized == seized
                  && (SeizedLedger(w.lending.ledger, signers, id, liquidator, loan, quote.value).Ok?
                      <==> && seized > 0
                           && BalanceOf(w.lending.ledger.balances, loan.loanAsset, liquidator) >= repay
                           && VaultBalance(w, loan.collateralAsset) >= seized)
                  && (UpdateStatus(w.lending, Reduced(loan, quote.value)).Ok?
                      <==> loan.dueTime + loan.gracePeriodDays * 86_400 <= U64_MAX))
  {
    ReachableInvariant(w);
    LoanIsOk(w, id);
    var s, loan := w.lending, w.lending.loans[id];
    QuoteOnStoredData(s, loan, amount);
    if IsLiquidatable(s, loan, amount) {
      var q := LiquidationQuote(s, loan, amount).value;
      SeizureSucceeds(w, signers, id, liquidator, q);
      ReducedStatus(s, loan, q);
    }
  }

  lemma ReducedStatus(s: LendingState, loan: Loan, q: Quote)
    requires ValidPrices(s.prices, s.now) && Mutable(loan.status)
    requires HasFreshPrice(s, loan) && HealthFits(loan, PriceOf(s, loan))
    requires 0 < q.repay <= loan.outstandingDebt / 2 && 0 <= q.seized <= loan.collateralAmount
    ensures UpdateStatus(s, Reduced(loan, q)).Ok? <==> loan.dueTime + loan.gracePeriodDays * 86_400 <= U64_MAX
  {
    PriceIsUsable(s, loan);
    LessCollateralFits(loan, Reduced(loan, q), PriceOf(s, loan));
    StatusOnStoredData(s, Reduced(loan, q));
  }

  function SeizedLedger(s: LedgerState, signers: Signers, id: nat, liquidator: Address, loan: Loan, q: Quote)
    : Result<LedgerState>
  {
    var paid :- Vault.CollectRepaymentFrom(s, signers, id, liquidator, loan.lender, loan.loanAsset, q.repay);
    Vault.TransferCollateralToLiquidator(paid, id, liquidator, loan.collateralAsset, q.seized)
  }

  lemma LiquidatingNeeds(s: LendingState, signers: Signers, id: nat, liquidator: Address, amount: i128)
    requires id in s.loans && Mutable(s.loans[id].status) && s.loans[id].outstandingDebt > 0
    ensures LoanManager.Liquidate(s, signers, id, liquidator, amount).Ok?
       <==> var loan := s.loans[id];
            var quote := LiquidationQuote(s, loan, amount);
            && amount > 0 && liquidator in signers && quote.Ok?
            && SeizedLedger(s.ledger, signers, id, liquidator, loan, quote.value).Ok?
            && UpdateStatus(s, Reduced(loan, quote.value)).Ok?
  {
    var loan := s.loans[id];
    if LiquidationQuote(s, loan, amount).Ok? {
      QuoteBounds(s, loan, amount);
    }
  }

  lemma SeizureSucceeds(w: World, signers: Signers, id: nat, liquidator: Address, q: Quote)
    requires Reachable(w) && id in w.lending.loans && Mutable(w.lending.loans[id].status) && liquidator in signers
    requires 0 < q.repay && 0 <= q.seized <= w.lending.loans[id].collateralAmount
    ensures var loan := w.lending.loans[id];
            SeizedLedger(w.lending.ledger, signers, id, liquidator, loan, q).Ok?
            <==> && q.seized > 0
                 && BalanceOf(w.lending.ledger.balances, loan.loanAsset, liquidator) >= q.repay
                 && VaultBalance(w, loan.collateralAsset) >= q.seized
  {
    ReachableInvariant(w);
    LoanIsOk(w, id);
    EscrowOf(w, id);
    var s, loan := w.lending.ledger, w.lending.loans[id];
    TransferSucceeds(s.balances, loan.loanAsset, liquidator, loan.lender, q.repay);
    var paid := Vault.CollectRepaymentFrom(s, signers, id, liquidator, loan.lender, loan.loanAsset, q.repay);
    if paid.Ok? {
      MovedKeepsSupply(s, paid.value, loan.loanAsset, liquidator, loan.lender, q.repay);
      TransferSucceeds(paid.value.balances, loan.collateralAsset, VaultAddress, liquidator, q.seized);
    }
  }

  // Who pays whom

  /** Two payments, and no other change of any balance. */
  ghost predicate TwoPayments(
    s: LedgerState, t: LedgerState, a1: Asset, from1: Address, to1: Address, x1: int,
    a2: Asset, from2: Address, to2: Address, x2: int)
  {
    forall a, h ::
      BalanceOf(t.balances, a, h)
      == BalanceOf(s.balances, a, h)
         + (if a == a1 && h == to1 then x1 else 0) - (if a == a1 && h == from1 then x1 else 0)
         + (if a == a2 && h == to2 then x2 else 0) - (if a == a2 && h == from2 then x2 else 0)
  }

  /** An activation moves the collateral from the borrower to the Vault, and the principal the other way. */
  lemma ActivateLoanEffect(s: LendingState, signers: Signers, id: nat)
    requires LoanManager.ActivateLoan(s, signers, id).Ok?
    ensures id in s.loans
    ensures var loan := s.loans[id];
            TwoPayments(s.ledger, LoanManager.ActivateLoan(s, signers, id).value.ledger,
                        loan.collateralAsset, loan.borrower, VaultAddress, loan.collateralAmount,
                        loan.loanAsset, VaultAddress, loan.borrower, loan.principal)
  {
    var locked, paid, open := ActivateShape(s, signers, id);
  }

  /**
   * A liquidation pays the lender out of the liquidator's pocket, by what the debt falls, and
   * hands the liquidator what the collateral falls by.
   */
  lemma LiquidateEffect(w: World, signers: Signers, id: nat, liquidator: Address, amount: i128)
    requires Reachable(w) && LoanManager.Liquidate(w.lending, signers, id, liquidator, amount).Ok?
    ensures var t := LoanManager.Liquidate(w.lending, signers, id, liquidator, amount).value;
            && id in w.lending.loans && id in t.loans
            && var before, after := w.lending.loans[id], t.loans[id];
               TwoPayments(w.lending.ledger, t.ledger,
                           before.loanAsset, liquidator, before.lender, before.outstandingDebt - after.outstandingDebt,
                           before.collateralAsset, VaultAddress, liquidator,
                           before.collateralAmount - after.collateralAmount)
  {
    LiquidateTouchesMutable(w.lending, signers, id, liquidator, amount);
    ReachableInvariant(w);
    LoanIsOk(w, id);
    SeizureEffect(w.lending, signers, id, liquidator, amount);
  }

  lemma SeizureEffect(s: LendingState, signers: Signers, id: nat, liquidator: Address, amount: i128)
    requires LoanManager.Liquidate(s, signers, id, liquidator, amount).Ok?
    requires id in s.loans && LoanOk(s, id) && Mutable(s.loans[id].status)
    ensures var t := LoanManager.Liquidate(s, signers, id, liquidator, amount).value;
            && id in t.loans
            && var before, after := s.loans[id], t.loans[id];
               TwoPayments(s.ledger, t.ledger,
                           before.loanAsset, liquidator, before.lender, before.outstandingDebt - after.outstandingDebt,
                           before.collateralAsset, VaultAddress, liquidator,
                           before.collateralAmount - after.collateralAmount)
  {
    var q, taken, less := LiquidateShape(s, signers, id, liquidator, amount);
    UpdateStatusOk(s, less);
  }

  /** A repayment moves money from the borrower to the lender, and the debt falls by exactly that. */
  lemma PayDownEffect(w: World, signers: Signers, id: nat, amount: i128)
    requires Reachable(w) && LoanManager.PartialRepay(w.lending, signers, id, amount).Ok?
    requires id in w.lending.loans && amount < w.lending.loans[id].outstandingDebt
    ensures var t := LoanManager.PartialRepay(w.lending, signers, id, amount).value;
            && id in t.loans && t.loans[id].outstandingDebt == w.lending.loans[id].outstandingDebt - amount
            && t.loans[id].collateralAmount == w.lending.loans[id].collateralAmount
            && var loan := w.lending.loans[id];
               TwoPayments(w.lending.ledger, t.ledger, loan.loanAsset, loan.borrower, loan.lender, amount,
                           loan.collateralAsset, VaultAddress, loan.borrower, 0)
  {
    var repay, paid, less := PartialRepayShape(w.lending, signers, id, amount);
  }
}
