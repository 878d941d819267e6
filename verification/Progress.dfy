/** Who can always get out: repayment and cancellation succeed whenever their parties can pay. */
module Progress {
  import opened Shared
  import opened Sums
  import opened Token
  import opened Ledger
  import opened PricedLoans
  import opened LoanManager
  import opened Marketplace
  import opened Protocol
  import opened Invariant
  import opened Custody
  import Vault

  /** The Vault's escrow covers every single loan and offer. */
  lemma EscrowCovers(w: World, loan: nat, offer: nat, asset: Asset)
    requires Inv(w)
    ensures LoanAt(w, loan, asset) <= Escrow(w, asset)
    ensures OfferAt(w, offer, asset) <= Escrow(w, asset)
  {
    forall l ensures LoanAt(w, l, asset) >= 0 {
      if l in w.lending.loans {
        LoanIsOk(w, l);
        EscrowOf(w, l);
      }
    }
    forall o ensures OfferAt(w, o, asset) >= 0 {
      LockOf(w, o);
    }
    var offers, loans := OfferShare(w, asset), LoanShare(w, asset);
    SumAtLeastPart(w.offers.Keys, {}, offers);
    SumAtLeastPart(w.lending.loans.Keys, {}, loans);
    if loan in w.lending.loans {
      SumAtLeastPart(w.lending.loans.Keys, {loan}, loans);
      SumSingle(loan, loans);
    }
    if offer in w.offers {
      SumAtLeastPart(w.offers.Keys, {offer}, offers);
      SumSingle(offer, offers);
    }
  }

  /** The Vault can return a loan's collateral to its borrower exactly if it holds that much. */
  lemma ReleaseSucceeds(w: World, id: nat, paid: LedgerState, loan: Loan)
    requires Inv(w) && id in w.lending.loans && Mutable(w.lending.loans[id].status)
    requires loan == w.lending.loans[id].(outstandingDebt := 0)
    requires CollateralSame(w.lending.ledger, paid) && SupplyOk(paid)
    requires BalanceOf(paid.balances, loan.collateralAsset, VaultAddress) == VaultBalance(w, loan.collateralAsset)
    ensures ReleaseAllCollateral(paid, loan).Ok? <==> VaultBalance(w, loan.collateralAsset) >= loan.collateralAmount
  {
    LoanIsOk(w, id);
    EscrowOf(w, id);
    TransferSucceeds(paid.balances, loan.collateralAsset, VaultAddress, loan.borrower, loan.collateralAmount);
  }

  /** The Vault holds at least the collateral of the loan, as it does unless the admin withdrew it. */
  predicate VaultHoldsCollateral(w: World, id: nat)
    requires id in w.lending.loans
  {
    VaultBalance(w, w.lending.loans[id].collateralAsset) >= w.lending.loans[id].collateralAmount
  }

  /** The condition for a full repayment: the loan is open, its borrower signs and holds the debt. */
  ghost predicate CanRepay(w: World, signers: Signers, id: nat) {
    && id in w.lending.loans
    && var loan := w.lending.loans[id];
       && Mutable(loan.status)
       && loan.borrower in signers
       && BalanceOf(w.lending.ledger.balances, loan.loanAsset, loan.borrower) >= loan.outstandingDebt
  }

  /** The payment of the whole debt succeeds exactly if the borrower holds it. */
  lemma PaymentSucceeds(w: World, signers: Signers, id: nat)
    requires Inv(w) && id in w.lending.loans && Mutable(w.lending.loans[id].status)
    requires w.lending.loans[id].borrower in signers
    ensures var loan := w.lending.loans[id];
            var paid := Vault.CollectRepaymentFrom(
                          w.lending.ledger, signers, id, loan.borrower, loan.lender, loan.loanAsset,
                          loan.outstandingDebt);
            && (paid.Ok? <==> BalanceOf(w.lending.ledger.balances, loan.loanAsset, loan.borrower) >= loan.outstandingDebt)
            && (paid.Ok? ==>
                  && CollateralSame(w.lending.ledger, paid.value) && SupplyOk(paid.value)
                  && BalanceOf(paid.value.balances, loan.collateralAsset, VaultAddress)
                     == VaultBalance(w, loan.collateralAsset))
  {
    LoanIsOk(w, id);
    var loan := w.lending.loans[id];
    TransferSucceeds(w.lending.ledger.balances, loan.loanAsset, loan.borrower, loan.lender, loan.outstandingDebt);
    var paid := Vault.CollectRepaymentFrom(
                  w.lending.ledger, signers, id, loan.borrower, loan.lender, loan.loanAsset, loan.outstandingDebt);
    if paid.Ok? {
      MovedKeepsSupply(w.lending.ledger, paid.value, loan.loanAsset, loan.borrower, loan.lender, loan.outstandingDebt);
    }
  }

  /**
   * Full repayment succeeds exactly if the borrower asks for it and holds the debt, and the Vault
   * holds the collateral. Prices, their age, the clock and the health of the loan play no part.
   */
  lemma FullRepaySucceeds(w: World, signers: Signers, id: nat)
    requires Reachable(w)
    ensures Execute(w, Tx(signers, FullRepay(id))).Ok? <==> CanRepay(w, signers, id) && VaultHoldsCollateral(w, id)
  {
    ReachableInvariant(w);
    if id in w.lending.loans && Mutable(w.lending.loans[id].status) && w.lending.loans[id].borrower in signers {
      var loan := w.lending.loans[id];
      LoanIsOk(w, id);
      PaymentSucceeds(w, signers, id);
      var paid := Vault.CollectRepaymentFrom(
                    w.lending.ledger, signers, id, loan.borrower, loan.lender, loan.loanAsset, loan.outstandingDebt);
      if paid.Ok? {
        ReleaseSucceeds(w, id, paid.value, loan.(outstandingDebt := 0));
      }
    }
  }

  /** In every run without withdrawals, a borrower who holds the debt can repay it at any time. */
  lemma {:induction false} RepaymentIsNeverBlocked(start: World, txs: seq<Tx>, signers: Signers, id: nat)
    requires Genesis(start)
    requires forall i | 0 <= i < |txs| :: !txs[i].call.Withdraw?
    ensures Execute(Run(start, txs), Tx(signers, FullRepay(id))).Ok? <==> CanRepay(Run(start, txs), signers, id)
  {
    var w := Run(start, txs);
    FullRepaySucceeds(w, signers, id);
    if CanRepay(w, signers, id) {
      SolventWithoutWithdrawals(start, txs, w.lending.loans[id].collateralAsset);
      SolventVaultHoldsCollateral(w, id);
    }
  }

  lemma SolventVaultHoldsCollateral(w: World, id: nat)
    requires Reachable(w) && id in w.lending.loans && Mutable(w.lending.loans[id].status)
    requires Surplus(w, w.lending.loans[id].collateralAsset) >= 0
    ensures VaultHoldsCollateral(w, id)
  {
    ReachableInvariant(w);
    EscrowOf(w, id);
    EscrowCovers(w, id, 0, w.lending.loans[id].collateralAsset);
  }

  /** After a full repayment the loan is settled, the lender paid and the collateral back home. */
  lemma FullRepayEffect(w: World, signers: Signers, id: nat)
    requires Reachable(w) && Execute(w, Tx(signers, FullRepay(id))).Ok?
    ensures var v := Execute(w, Tx(signers, FullRepay(id))).value;
            && id in w.lending.loans && id in v.lending.loans
            && var loan := w.lending.loans[id];
               && v.lending.loans == w.lending.loans[id := loan.(outstandingDebt := 0, collateralAmount := 0, status := Repaid)]
               && LoanCollateral(v.lending.ledger, id) == 0
               && (forall a, h :: BalanceOf(v.lending.ledger.balances, a, h)
                     == BalanceOf(w.lending.ledger.balances, a, h)
                        + (if a == loan.loanAsset && h == loan.lender then loan.outstandingDebt else 0)
                        - (if a == loan.loanAsset && h == loan.borrower then loan.outstandingDebt else 0)
                        + (if a == loan.collateralAsset && h == loan.borrower then loan.collateralAmount else 0)
                        - (if a == loan.collateralAsset && h == VaultAddress then loan.collateralAmount else 0))
  {
    ReachableInvariant(w);
    var v := Execute(w, Tx(signers, FullRepay(id))).value;
    FullRepayTouchesMutable(w.lending, signers, id);
    LoanIsOk(w, id);
    EscrowOf(w, id);
    var paid, less := FullRepayShape(w.lending, signers, id);
    SettlementBalances(w.lending, signers, id, paid, less, ReleaseAllCollateral(paid, less).value);
  }

  lemma SettlementBalances(
    s: LendingState, signers: Signers, id: nat, paid: LedgerState, less: Loan, released: Released)
    requires id in s.loans && LoanOk(s, id) && Repaying(s, signers, id, s.loans[id].outstandingDebt, paid, less)
    requires ReleaseAllCollateral(paid, less) == Ok(released)
    requires LoanCollateral(s.ledger, id) == s.loans[id].collateralAmount
    ensures released.loan == less.(collateralAmount := 0)
    ensures LoanCollateral(released.ledger, id) == 0
    ensures forall a, h :: BalanceOf(released.ledger.balances, a, h)
                     == BalanceOf(s.ledger.balances, a, h)
                        + (if a == less.loanAsset && h == less.lender then s.loans[id].outstandingDebt else 0)
                        - (if a == less.loanAsset && h == less.borrower then s.loans[id].outstandingDebt else 0)
                        + (if a == less.collateralAsset && h == less.borrower then less.collateralAmount else 0)
                        - (if a == less.collateralAsset && h == VaultAddress then less.collateralAmount else 0)
  {
  }

  /** The same state, as far as storage and balances go. */
  ghost predicate SameButLog(w: World, v: World) {
    WithLedger(w, w.lending.ledger.(log := [])) == WithLedger(v, v.lending.ledger.(log := []))
  }

  /** A partial repayment of the whole debt or more is a full repayment, but for the event's name. */
  lemma PartialRepayCanClose(w: World, signers: Signers, id: nat, amount: i128)
    requires Reachable(w) && id in w.lending.loans && amount > 0
    requires amount >= w.lending.loans[id].outstandingDebt
    ensures var full, partial := Execute(w, Tx(signers, FullRepay(id))), Execute(w, Tx(signers, PartialRepay(id, amount)));
            && (full.Ok? <==> partial.Ok?)
            && (full.Ok? ==> SameButLog(full.value, partial.value))
  {
    ReachableInvariant(w);
    LoanIsOk(w, id);
    ClosingRepayment(w.lending, signers, id, amount);
  }

  lemma ClosingRepayment(s: LendingState, signers: Signers, id: nat, amount: i128)
    requires id in s.loans && LoanOk(s, id) && amount > 0 && amount >= s.loans[id].outstandingDebt
    ensures var full, partial := LoanManager.FullRepay(s, signers, id), LoanManager.PartialRepay(s, signers, id, amount);
            && (full.Ok? <==> partial.Ok?)
            && (full.Ok? ==>
                  full.value.(ledger := full.value.ledger.(log := []))
                  == partial.value.(ledger := partial.value.ledger.(log := [])))
  {
    var loan := s.loans[id];
    assert LoanManager.PartialRepay(s, signers, id, amount).Ok? ==>
        LoanManager.PartialRepay(s, signers, id, amount)
        == ApplyRepayment(s, signers, id, loan, loan.outstandingDebt);
  }

  /** The borrower of an open loan asks to add collateral that it holds. */
  predicate CanTopUp(s: LendingState, signers: Signers, id: nat, amount: i128) {
    && id in s.loans
    && var loan := s.loans[id];
       && Mutable(loan.status) && loan.borrower in signers && amount > 0
       && BalanceOf(s.ledger.balances, loan.collateralAsset, loan.borrower) >= amount
       && loan.collateralAmount + amount <= I128_MAX
  }

  /**
   * Adding collateral is not always possible on an open loan: before the due time it takes a stored
   * price that is at most a day old, and products of the topped-up loan that fit.
   */
  lemma AddCollateralSucceeds(w: World, signers: Signers, id: nat, amount: i128)
    requires Reachable(w)
    ensures Execute(w, Tx(signers, AddCollateral(id, amount))).Ok?
       <==> && CanTopUp(w.lending, signers, id, amount)
            && var loan := w.lending.loans[id];
               StatusIsComputable(w.lending, loan.(collateralAmount := loan.collateralAmount + amount))
  {
    if CanTopUp(w.lending, signers, id, amount) {
      LockSucceeds(w, signers, id, amount);
    }
    TopUpNeedsStatus(w.lending, signers, id, amount);
  }

  lemma TopUpNeedsStatus(s: LendingState, signers: Signers, id: nat, amount: i128)
    requires CanTopUp(s, signers, id, amount) ==>
               && s.loans[id].outstandingDebt > 0
               && Vault.LockBorrowerCollateral(
                    s.ledger, signers, id, s.loans[id].borrower, s.loans[id].collateralAsset, amount).Ok?
    ensures LoanManager.AddCollateral(s, signers, id, amount).Ok?
       <==> && CanTopUp(s, signers, id, amount)
            && var loan := s.loans[id];
               UpdateStatus(s, loan.(collateralAmount := loan.collateralAmount + amount)).Ok?
  {
  }

  /** The borrower of an open loan repays less than the debt, from a sufficient balance. */
  predicate CanPayDown(s: LendingState, signers: Signers, id: nat, amount: i128) {
    && id in s.loans
    && var loan := s.loans[id];
       && Mutable(loan.status) && loan.borrower in signers && 0 < amount < loan.outstandingDebt
       && BalanceOf(s.ledger.balances, loan.loanAsset, loan.borrower) >= amount
  }

  /** A repayment that leaves some debt takes such a price in the same way. */
  lemma PayDownSucceeds(w: World, signers: Signers, id: nat, amount: i128)
    requires Reachable(w) && id in w.lending.loans && amount < w.lending.loans[id].outstandingDebt
    ensures Execute(w, Tx(signers, PartialRepay(id, amount))).Ok?
       <==> && CanPayDown(w.lending, signers, id, amount)
            && var loan := w.lending.loans[id];
               StatusIsComputable(w.lending, loan.(outstandingDebt := loan.outstandingDebt - amount))
  {
    PayDownPays(w, signers, id, amount);
    PayDownNeedsStatus(w.lending, signers, id, amount);
  }

  lemma PayDownPays(w: World, signers: Signers, id: nat, amount: i128)
    requires Reachable(w) && id in w.lending.loans && amount < w.lending.loans[id].outstandingDebt
    ensures var loan := w.lending.loans[id];
            && (amount > 0 && loan.borrower in signers ==>
                  (Vault.CollectRepaymentFrom(
                     w.lending.ledger, signers, id, loan.borrower, loan.lender, loan.loanAsset, amount).Ok?
                   <==> BalanceOf(w.lending.ledger.balances, loan.loanAsset, loan.borrower) >= amount))
            && (amount > 0 && Mutable(loan.status) ==>
                  var less := loan.(outstandingDebt := loan.outstandingDebt - amount);
                  UpdateStatus(w.lending, less).Ok? <==> StatusIsComputable(w.lending, less))
  {
    ReachableInvariant(w);
    LoanIsOk(w, id);
    var loan := w.lending.loans[id];
    TransferSucceeds(w.lending.ledger.balances, loan.loanAsset, loan.borrower, loan.lender, amount);
    if amount > 0 && Mutable(loan.status) {
      StatusOnStoredData(w.lending, loan.(outstandingDebt := loan.outstandingDebt - amount));
    }
  }

  lemma PayDownNeedsStatus(s: LendingState, signers: Signers, id: nat, amount: i128)
    requires id in s.loans && amount < s.loans[id].outstandingDebt
    requires var loan := s.loans[id];
             amount > 0 && loan.borrower in signers ==>
               (Vault.CollectRepaymentFrom(s.ledger, signers, id, loan.borrower, loan.lender, loan.loanAsset, amount).Ok?
                <==> BalanceOf(s.ledger.balances, loan.loanAsset, loan.borrower) >= amount)
    ensures LoanManager.PartialRepay(s, signers, id, amount).Ok?
       <==> && CanPayDown(s, signers, id, amount)
            && var loan := s.loans[id];
               UpdateStatus(s, loan.(outstandingDebt := loan.outstandingDebt - amount)).Ok?
  {
  }

  /** A solvent Vault and a borrower together hold no more than the supply, so the new total always fits. */
  lemma CollateralFits(w: World, id: nat, amount: i128)
    requires Reachable(w) && id in w.lending.loans && Mutable(w.lending.loans[id].status)
    requires var loan := w.lending.loans[id];
             && BalanceOf(w.lending.ledger.balances, loan.collateralAsset, loan.borrower) >= amount
             && Surplus(w, loan.collateralAsset) >= 0
    ensures w.lending.loans[id].collateralAmount + amount <= I128_MAX
  {
    ReachableInvariant(w);
    var loan := w.lending.loans[id];
    LoanIsOk(w, id);
    EscrowOf(w, id);
    EscrowCovers(w, id, 0, loan.collateralAsset);
    PairWithinSupply(w.lending.ledger.balances, loan.collateralAsset, VaultAddress, loan.borrower);
  }

  lemma TopUpStatus(w: World, signers: Signers, id: nat, amount: i128)
    requires Reachable(w) && CanTopUp(w.lending, signers, id, amount)
    ensures var loan := w.lending.loans[id];
            var grown := loan.(collateralAmount := loan.collateralAmount + amount);
            UpdateStatus(w.lending, grown).Ok? <==> StatusIsComputable(w.lending, grown)
  {
    ReachableInvariant(w);
    LoanIsOk(w, id);
    var loan := w.lending.loans[id];
    StatusOnStoredData(w.lending, loan.(collateralAmount := loan.collateralAmount + amount));
  }

  lemma LockSucceeds(w: World, signers: Signers, id: nat, amount: i128)
    requires Reachable(w) && CanTopUp(w.lending, signers, id, amount)
    ensures var loan := w.lending.loans[id];
            && loan.outstandingDebt > 0
            && Vault.LockBorrowerCollateral(
                 w.lending.ledger, signers, id, loan.borrower, loan.collateralAsset, amount).Ok?
            && var grown := loan.(collateralAmount := loan.collateralAmount + amount);
               UpdateStatus(w.lending, grown).Ok? <==> StatusIsComputable(w.lending, grown)
  {
    TopUpStatus(w, signers, id, amount);
    ReachableInvariant(w);
    var loan := w.lending.loans[id];
    LoanIsOk(w, id);
    EscrowOf(w, id);
    TransferSucceeds(w.lending.ledger.balances, loan.collateralAsset, loan.borrower, VaultAddress, amount);
    var paid := Vault.Move(w.lending.ledger, loan.collateralAsset, loan.borrower, VaultAddress, amount).value;
    assert LoanCollateral(paid, id) == LoanCollateral(w.lending.ledger, id);
    assert Locked(paid, id, loan.collateralAsset) == Locked(w.lending.ledger, id, loan.collateralAsset);
  }

  /** The Vault holds at least what is locked for the offer, as it does unless the admin withdrew it. */
  predicate VaultHoldsFunds(w: World, id: nat)
    requires id in w.offers
  {
    VaultBalance(w, w.offers[id].loanAsset) >= OfferLocked(w.lending.ledger, id)
  }

  /** The Vault can return to a lender what is locked for an offer exactly if it holds that much. */
  lemma UnlockSucceeds(w: World, id: nat)
    requires Inv(w) && id in w.offers
    ensures UnlockOfferIfNeeded(w.lending.ledger, w.offers[id]).Ok? <==> VaultHoldsFunds(w, id)
  {
    var offer := w.offers[id];
    assert OfferOk(w, id);
    var locked := OfferLocked(w.lending.ledger, id);
    TransferSucceeds(w.lending.ledger.balances, offer.loanAsset, VaultAddress, offer.lender, locked);
  }

  /**
   * Cancelling succeeds exactly on offers that are not settled, for their lender, while the Vault
   * holds their funds; it returns exactly what was locked. Settled offers get the error of their status.
   */
  lemma CancelSucceeds(w: World, signers: Signers, id: nat)
    requires Reachable(w) && id in w.offers
    ensures var r := Execute(w, Tx(signers, CancelOffer(id)));
            var offer := w.offers[id];
            && (r.Ok? <==> offer.lender in signers && NotSettled(offer.status).Pass? && VaultHoldsFunds(w, id))
            && (offer.lender in signers && offer.status.Matched? ==> r == Err(Error.OfferMatched))
            && (offer.lender in signers && offer.status.Cancelled? ==> r == Err(OfferAlreadyCancelled))
            && (offer.lender in signers && offer.status.Expired? ==> r == Err(OfferAlreadyExpired))
            && (r.Ok? ==> Returned(w, r.value, id) && r.value.offers == w.offers[id := offer.(status := Cancelled)])
  {
    ReachableInvariant(w);
    UnlockSucceeds(w, id);
    if VaultHoldsFunds(w, id) {
      UnlockReturns(w, id, UnlockOfferIfNeeded(w.lending.ledger, w.offers[id]).value);
    }
  }

  /** Anyone can expire an offer that is not settled, with the same effect on its lender. */
  lemma ExpireSucceeds(w: World, signers: Signers, id: nat)
    requires Reachable(w) && id in w.offers
    ensures var r := Execute(w, Tx(signers, ExpireOffer(id)));
            var offer := w.offers[id];
            && (r.Ok? <==> NotSettled(offer.status).Pass? && VaultHoldsFunds(w, id))
            && (offer.status.Matched? ==> r == Err(Error.OfferMatched))
            && (offer.status.Cancelled? ==> r == Err(OfferAlreadyCancelled))
            && (offer.status.Expired? ==> r == Err(OfferAlreadyExpired))
            && (r.Ok? ==> Returned(w, r.value, id) && r.value.offers == w.offers[id := offer.(status := OfferStatus.Expired)])
  {
    ReachableInvariant(w);
    UnlockSucceeds(w, id);
    if VaultHoldsFunds(w, id) {
      UnlockReturns(w, id, UnlockOfferIfNeeded(w.lending.ledger, w.offers[id]).value);
    }
  }

  /** In every run without withdrawals, a lender can cancel any offer that is not settled. */
  lemma {:induction false} CancellationIsNeverBlocked(start: World, txs: seq<Tx>, signers: Signers, id: nat)
    requires Genesis(start) && id in Run(start, txs).offers
    requires forall i | 0 <= i < |txs| :: !txs[i].call.Withdraw?
    ensures var w := Run(start, txs);
            Execute(w, Tx(signers, CancelOffer(id))).Ok?
            <==> w.offers[id].lender in signers
                 && (w.offers[id].status.Draft? || w.offers[id].status.Funding? || w.offers[id].status.Active?)
  {
    var w := Run(start, txs);
    CancelSucceeds(w, signers, id);
    SolventWithoutWithdrawals(start, txs, w.offers[id].loanAsset);
    SolventVaultHoldsFunds(w, id);
  }

  lemma SolventVaultHoldsFunds(w: World, id: nat)
    requires Reachable(w) && id in w.offers && Surplus(w, w.offers[id].loanAsset) >= 0
    ensures VaultHoldsFunds(w, id)
  {
    ReachableInvariant(w);
    EscrowCovers(w, 0, id, w.offers[id].loanAsset);
  }

  /** The offer's escrow went back to its lender, and no other balance changed but the Vault's. */
  ghost predicate Returned(w: World, v: World, id: nat)
    requires id in w.offers
  {
    var offer, locked := w.offers[id], OfferLocked(w.lending.ledger, id);
    && OfferLocked(v.lending.ledger, id) == 0
    && (forall a, h :: BalanceOf(v.lending.ledger.balances, a, h)
                       == BalanceOf(w.lending.ledger.balances, a, h)
                          + (if a == offer.loanAsset && h == offer.lender then locked else 0)
                          - (if a == offer.loanAsset && h == VaultAddress then locked else 0))
  }

  lemma UnlockReturns(w: World, id: nat, unlocked: LedgerState)
    requires Inv(w) && id in w.offers && UnlockOfferIfNeeded(w.lending.ledger, w.offers[id]) == Ok(unlocked)
    ensures Returned(w, WithLedger(w, unlocked), id)
  {
    assert OfferOk(w, id);
    LockOf(w, id);
  }
}
