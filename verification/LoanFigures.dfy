/** What each transaction does to the debt and the collateral of a loan, and to the price of its pair. */
module LoanFigures {
  import opened Shared
  import opened LoanManager
  import opened Marketplace
  import opened PricedLoans
  import opened Protocol
  import opened Invariant
  import opened Lifecycle

  /** The calls that may lower the debt of a loan. */
  predicate LowersDebt(call: Call, id: nat) {
    (call.PartialRepay? || call.FullRepay? || call.Liquidate?) && call.loan == id
  }

  predicate Liquidates(call: Call, id: nat) {
    call.Liquidate? && call.loan == id
  }

  /** Debt and collateral after a call that is not a liquidation: settled, or no worse for the lender. */
  predicate Figures(before: Loan, after: Loan, call: Call, id: nat) {
    && (LowersDebt(call, id) || after.outstandingDebt == before.outstandingDebt)
    && (after.collateralAmount >= before.collateralAmount
        || (after.collateralAmount == 0 && after.outstandingDebt == 0))
  }

  lemma UpdateKeepsFigures(s: LendingState, loan: Loan)
    requires UpdateStatus(s, loan).Ok?
    ensures UpdateStatus(s, loan).value == loan.(status := UpdateStatus(s, loan).value.status)
  {
  }

  lemma PartialRepayFigures(s: LendingState, signers: Signers, id: nat, amount: i128)
    requires LoanManager.PartialRepay(s, signers, id, amount).Ok?
    ensures var t := LoanManager.PartialRepay(s, signers, id, amount).value;
            && id in s.loans && id in t.loans
            && Figures(s.loans[id], t.loans[id], PartialRepay(id, amount), id)
  {
    var repay, paid, less := PartialRepayShape(s, signers, id, amount);
    if less.outstandingDebt != 0 {
      UpdateKeepsFigures(s, less);
    }
  }

  lemma FullRepayFigures(s: LendingState, signers: Signers, id: nat)
    requires LoanManager.FullRepay(s, signers, id).Ok?
    requires id in s.loans ==> LoanOk(s, id)
    ensures var t := LoanManager.FullRepay(s, signers, id).value;
            && id in s.loans && id in t.loans
            && Figures(s.loans[id], t.loans[id], FullRepay(id), id)
  {
    FullRepayTouchesMutable(s, signers, id);
    var paid, less := FullRepayShape(s, signers, id);
  }

  lemma AddCollateralFigures(s: LendingState, signers: Signers, id: nat, amount: i128)
    requires LoanManager.AddCollateral(s, signers, id, amount).Ok?
    ensures var t := LoanManager.AddCollateral(s, signers, id, amount).value;
            && id in s.loans && id in t.loans
            && Figures(s.loans[id], t.loans[id], AddCollateral(id, amount), id)
  {
    var locked, grown := AddCollateralShape(s, signers, id, amount);
    UpdateKeepsFigures(s, grown);
  }

  lemma StatusFigures(s: LendingState, signers: Signers, call: Call)
    requires call.RefreshLoanState? || call.MarkExpired? || call.MarkDefaulted?
    requires ExecuteLending(s, signers, call).Ok?
    ensures var t, id := ExecuteLending(s, signers, call).value, LoanOf(call);
            && id in s.loans && id in t.loans
            && Figures(s.loans[id], t.loans[id], call, id)
  {
    if call.RefreshLoanState? {
      UpdateKeepsFigures(s, s.loans[call.loan]);
    }
  }

  lemma ActivateFigures(s: LendingState, signers: Signers, id: nat)
    requires LoanManager.ActivateLoan(s, signers, id).Ok?
    ensures var t := LoanManager.ActivateLoan(s, signers, id).value;
            && id in s.loans && id in t.loans
            && Figures(s.loans[id], t.loans[id], ActivateLoan(id), id)
  {
    var locked, paid, open := ActivateShape(s, signers, id);
  }

  lemma LoanCallFigures(s: LendingState, signers: Signers, call: Call)
    requires ChangesLoan(call) && !call.Liquidate? && ExecuteLending(s, signers, call).Ok?
    requires LoanOf(call) in s.loans ==> LoanOk(s, LoanOf(call))
    ensures var t, id := ExecuteLending(s, signers, call).value, LoanOf(call);
            && id in s.loans && id in t.loans
            && Figures(s.loans[id], t.loans[id], call, id)
  {
    match call {
      case ActivateLoan(id) => ActivateFigures(s, signers, id);
      case AddCollateral(id, amount) => AddCollateralFigures(s, signers, id, amount);
      case PartialRepay(id, amount) => PartialRepayFigures(s, signers, id, amount);
      case FullRepay(id) => FullRepayFigures(s, signers, id);
      case _ => StatusFigures(s, signers, call);
    }
  }

  /** The price of a loan's pair, unless it is the one that is set. */
  predicate SetsPriceOf(call: Call, loan: Loan) {
    call.SetPrice? && call.base == loan.collateralAsset && call.quote == loan.loanAsset
  }

  lemma OtherCallFigures(w: World, tx: Tx, id: nat)
    requires Inv(w) && id in w.lending.loans && !ChangesLoan(tx.call) && Execute(w, tx).Ok?
    ensures w.lending.loans[id].outstandingDebt > 0 ==> id in Execute(w, tx).value.lending.loans
    ensures id in Execute(w, tx).value.lending.loans ==> Execute(w, tx).value.lending.loans[id] == w.lending.loans[id]
  {
    LoanIsOk(w, id);
    LoansUntouched(w, tx);
  }

  lemma OtherCallPrice(w: World, tx: Tx, loan: Loan)
    requires !ChangesLoan(tx.call) && Execute(w, tx).Ok? && !SetsPriceOf(tx.call, loan)
    ensures PriceOf(Execute(w, tx).value.lending, loan) == PriceOf(w.lending, loan)
  {
  }

  /** One step, seen from one loan: its figures, its price, and whether it is still stored. */
  lemma StepFigures(w: World, tx: Tx, id: nat)
    requires Inv(w) && id in w.lending.loans
    ensures var v, before := Step(w, tx), w.lending.loans[id];
            && (before.outstandingDebt > 0 ==> id in v.lending.loans)
            && (!SetsPriceOf(tx.call, before) ==> PriceOf(v.lending, before) == PriceOf(w.lending, before))
            && (id in v.lending.loans ==>
                  && LoanLater(before, v.lending.loans[id])
                  && (!Liquidates(tx.call, id) || !Execute(w, tx).Ok? ==>
                        Figures(before, v.lending.loans[id], tx.call, id)))
  {
    if Execute(w, tx).Ok? {
      if ChangesLoan(tx.call) {
        LoanCallSeenFromLoan(w, tx, id);
      } else {
        OtherCallFigures(w, tx, id);
        if !SetsPriceOf(tx.call, w.lending.loans[id]) {
          OtherCallPrice(w, tx, w.lending.loans[id]);
        }
      }
    }
  }

  lemma LoanCallSeenFromLoan(w: World, tx: Tx, id: nat)
    requires Inv(w) && id in w.lending.loans && ChangesLoan(tx.call) && Execute(w, tx).Ok?
    ensures var t, before := Execute(w, tx).value.lending, w.lending.loans[id];
            && id in t.loans && t.prices == w.lending.prices
            && LoanLater(before, t.loans[id])
            && (!Liquidates(tx.call, id) ==> Figures(before, t.loans[id], tx.call, id))
  {
    var s, k := w.lending, LoanOf(tx.call);
    if k in s.loans {
      LoanIsOk(w, k);
    }
    AdvancedSeenFromLoan(s, tx.signers, tx.call, id);
  }

  lemma AdvancedSeenFromLoan(s: LendingState, signers: Signers, call: Call, id: nat)
    requires ChangesLoan(call) && ExecuteLending(s, signers, call).Ok? && id in s.loans
    requires LoanOf(call) in s.loans ==> LoanOk(s, LoanOf(call))
    ensures var t := ExecuteLending(s, signers, call).value;
            && id in t.loans && t.prices == s.prices
            && LoanLater(s.loans[id], t.loans[id])
            && (!Liquidates(call, id) ==> Figures(s.loans[id], t.loans[id], call, id))
  {
    LoanCallLater(s, signers, call);
    if !call.Liquidate? {
      LoanCallFigures(s, signers, call);
    }
  }
}
