/** Nobody pays without signing. */
module Authorization {
  import opened Shared
  import opened Token
  import opened Ledger
  import opened LoanManager
  import opened Marketplace
  import opened Protocol
  import opened Invariant
  import opened Lifecycle
  import Vault

  /** Of all holders only signers, and the Vault, may have less than before. */
  ghost predicate Unforced(s: LedgerState, t: LedgerState, signers: Signers) {
    forall a, h :: h !in signers && h != VaultAddress ==> BalanceOf(t.balances, a, h) >= BalanceOf(s.balances, a, h)
  }

  lemma MovedUnforced(
    s: LedgerState, t: LedgerState, signers: Signers, asset: Asset, sender: Address, recipient: Address, amount: int)
    requires Vault.Moved(s, t, asset, sender, recipient, amount)
    requires sender in signers || sender == VaultAddress
    ensures Unforced(s, t, signers)
  {
  }

  lemma LoanCallUnforced(s: LendingState, signers: Signers, call: Call)
    requires ChangesLoan(call) && ExecuteLending(s, signers, call).Ok?
    requires LoanOf(call) in s.loans ==> LoanOk(s, LoanOf(call))
    ensures Unforced(s.ledger, ExecuteLending(s, signers, call).value.ledger, signers)
  {
    var id := LoanOf(call);
    match call {
      case ActivateLoan(_) =>
        var locked, paid, open := ActivateShape(s, signers, id);
        OpenedUnforced(s, signers, id, locked, paid, open);
      case AddCollateral(_, amount) =>
        var locked, grown := AddCollateralShape(s, signers, id, amount);
        MovedUnforced(s.ledger, locked, signers, grown.collateralAsset, grown.borrower, VaultAddress, amount);
      case PartialRepay(_, amount) =>
        var repay, paid, less := PartialRepayShape(s, signers, id, amount);
        RepayingUnforced(s, signers, id, repay, paid, less);
      case FullRepay(_) =>
        FullRepayTouchesMutable(s, signers, id);
        var paid, less := FullRepayShape(s, signers, id);
        RepayingUnforced(s, signers, id, s.loans[id].outstandingDebt, paid, less);
      case Liquidate(_, liquidator, amount) =>
        LiquidateUnforced(s, signers, id, liquidator, amount);
      case _ =>
    }
  }

  lemma OpenedUnforced(s: LendingState, signers: Signers, id: nat, locked: LedgerState, paid: LedgerState, open: Loan)
    requires id in s.loans && Opened(s, signers, id, locked, paid, open)
    ensures Unforced(s.ledger, paid, signers)
  {
    MovedUnforced(s.ledger, locked, signers, open.collateralAsset, open.borrower, VaultAddress, open.collateralAmount);
    MovedUnforced(locked, paid, signers, open.loanAsset, VaultAddress, open.borrower, open.principal);
  }

  lemma RepayingUnforced(s: LendingState, signers: Signers, id: nat, repay: int, paid: LedgerState, less: Loan)
    requires id in s.loans && Repaying(s, signers, id, repay, paid, less)
    ensures Unforced(s.ledger, paid, signers)
    ensures ReleaseAllCollateral(paid, less).Ok? ==>
              Unforced(s.ledger, ReleaseAllCollateral(paid, less).value.ledger, signers)
  {
    MovedUnforced(s.ledger, paid, signers, less.loanAsset, less.borrower, less.lender, repay);
    var released := ReleaseAllCollateral(paid, less);
    if released.Ok? && less.collateralAmount != 0 {
      MovedUnforced(paid, released.value.ledger, signers, less.collateralAsset, VaultAddress, less.borrower,
                    less.collateralAmount);
    }
  }

  lemma LiquidateUnforced(s: LendingState, signers: Signers, id: nat, liquidator: Address, amount: i128)
    requires LoanManager.Liquidate(s, signers, id, liquidator, amount).Ok?
    requires id in s.loans ==> LoanOk(s, id)
    ensures Unforced(s.ledger, LoanManager.Liquidate(s, signers, id, liquidator, amount).value.ledger, signers)
  {
    LiquidateTouchesMutable(s, signers, id, liquidator, amount);
    var loan := s.loans[id];
    var q, taken, less := LiquidateShape(s, signers, id, liquidator, amount);
    var paid := Vault.CollectRepaymentFrom(
                  s.ledger, signers, id, liquidator, loan.lender, loan.loanAsset, q.repay).value;
    MovedUnforced(s.ledger, paid, signers, loan.loanAsset, liquidator, loan.lender, q.repay);
    MovedUnforced(paid, taken, signers, loan.collateralAsset, VaultAddress, liquidator, q.seized);
  }

  lemma OtherCallUnforced(w: World, tx: Tx)
    requires !ChangesLoan(tx.call) && Execute(w, tx).Ok?
    requires (tx.call.CancelOffer? || tx.call.ExpireOffer?) && tx.call.offer in w.offers ==> OfferOk(w, tx.call.offer)
    ensures Unforced(w.lending.ledger, Execute(w, tx).value.lending.ledger, tx.signers)
  {
    var s, t := w.lending.ledger, Execute(w, tx).value.lending.ledger;
    match tx.call
    case FundOffer(id) =>
      MovedUnforced(s, t, tx.signers, w.offers[id].loanAsset, w.offers[id].lender, VaultAddress, w.offers[id].loanAmount);
    case CancelOffer(id) => SettleUnforced(w, id, tx.signers);
    case ExpireOffer(id) => SettleUnforced(w, id, tx.signers);
    case Withdraw(asset, recipient, amount) => MovedUnforced(s, t, tx.signers, asset, VaultAddress, recipient, amount);
    case TransferTokens(asset, sender, recipient, amount) =>
      MovedUnforced(s, t, tx.signers, asset, sender, recipient, amount);
    case _ => BalancesUntouched(w, tx);
  }

  lemma SettleUnforced(w: World, id: nat, signers: Signers)
    requires id in w.offers && OfferOk(w, id)
    ensures var r := UnlockOfferIfNeeded(w.lending.ledger, w.offers[id]);
            r.Ok? ==> Unforced(w.lending.ledger, r.value, signers)
  {
    var s, offer := w.lending.ledger, w.offers[id];
    var r := UnlockOfferIfNeeded(s, offer);
    if r.Ok? && OfferLocked(s, id) > 0 {
      MovedUnforced(s, r.value, signers, offer.loanAsset, VaultAddress, offer.lender, OfferLocked(s, id));
    }
  }

  lemma BalancesUntouched(w: World, tx: Tx)
    requires !ChangesLoan(tx.call) && Execute(w, tx).Ok?
    requires !tx.call.FundOffer? && !tx.call.CancelOffer? && !tx.call.ExpireOffer?
    requires !tx.call.Withdraw? && !tx.call.TransferTokens?
    ensures Execute(w, tx).value.lending.ledger.balances == w.lending.ledger.balances
  {
  }

  /** No transaction, by anyone, lowers the balance of an account that did not sign it. */
  lemma NobodyPaysUnsigned(w: World, tx: Tx, asset: Asset, holder: Address)
    requires Reachable(w) && holder !in tx.signers && holder != VaultAddress
    ensures BalanceOf(Step(w, tx).lending.ledger.balances, asset, holder)
         >= BalanceOf(w.lending.ledger.balances, asset, holder)
  {
    ReachableInvariant(w);
    if Execute(w, tx).Ok? {
      if ChangesLoan(tx.call) {
        if LoanOf(tx.call) in w.lending.loans {
          LoanIsOk(w, LoanOf(tx.call));
        }
        LoanCallUnforced(w.lending, tx.signers, tx.call);
      } else {
        OtherCallUnforced(w, tx);
      }
    }
  }
}
