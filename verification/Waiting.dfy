/** Matched offers whose borrower has not brought the collateral yet: where the lender's funds stay, and how long. */
module Waiting {
  import opened Shared
  import opened Ledger
  import opened LoanManager
  import opened Marketplace
  import opened Protocol
  import opened Invariant
  import opened Lifecycle
  import opened Conservation
  import opened Custody
  import opened Progress

  predicate Waits(w: World, id: nat) {
    id in w.lending.loans && w.lending.loans[id].status.PendingCollateral?
  }

  /** The loan's borrower signs its activation. */
  predicate BorrowerActivates(tx: Tx, id: nat, borrower: Address) {
    tx.call == ActivateLoan(id) && borrower in tx.signers
  }

  lemma LoanCallLeavesWaiting(s: LendingState, signers: Signers, call: Call, id: nat)
    requires ChangesLoan(call) && call != ActivateLoan(id) && ExecuteLending(s, signers, call).Ok?
    requires LoanOf(call) in s.loans ==> LoanOk(s, LoanOf(call))
    requires id in s.loans && s.loans[id].status.PendingCollateral?
    ensures id in ExecuteLending(s, signers, call).value.loans
    ensures ExecuteLending(s, signers, call).value.loans[id] == s.loans[id]
  {
    LoanCallLater(s, signers, call);
    if LoanOf(call) == id {
      OnlyRefreshOnWaiting(s, signers, call);
    }
  }

  lemma OtherCallLeavesWaiting(w: World, tx: Tx, id: nat)
    requires Inv(w) && Waits(w, id) && !ChangesLoan(tx.call) && Execute(w, tx).Ok?
    ensures id in Execute(w, tx).value.lending.loans
    ensures Execute(w, tx).value.lending.loans[id] == w.lending.loans[id]
  {
    LoanIsOk(w, id);
    LoansUntouched(w, tx);
  }

  /** A step ends the waiting of a loan if and only if it is a successful activation, which its borrower signs. */
  lemma OnlyActivationEndsWaiting(w: World, tx: Tx, id: nat)
    requires Inv(w) && Waits(w, id)
    ensures id in Step(w, tx).lending.loans
    ensures Step(w, tx).lending.loans[id] == w.lending.loans[id] <==> !(tx.call == ActivateLoan(id) && Execute(w, tx).Ok?)
    ensures tx.call == ActivateLoan(id) && Execute(w, tx).Ok? ==>
              BorrowerActivates(tx, id, w.lending.loans[id].borrower)
  {
    if Execute(w, tx).Ok? {
      if tx.call == ActivateLoan(id) {
        var locked, paid, open := ActivateShape(w.lending, tx.signers, id);
      } else if ChangesLoan(tx.call) {
        if LoanOf(tx.call) in w.lending.loans {
          LoanIsOk(w, LoanOf(tx.call));
        }
        LoanCallLeavesWaiting(w.lending, tx.signers, tx.call, id);
      } else {
        OtherCallLeavesWaiting(w, tx, id);
      }
    }
  }

  lemma {:induction false} WaitingOverRuns(w: World, txs: seq<Tx>, id: nat)
    requires Inv(w) && Waits(w, id)
    requires forall i | 0 <= i < |txs| :: !BorrowerActivates(txs[i], id, w.lending.loans[id].borrower)
    ensures Inv(Run(w, txs)) && Waits(Run(w, txs), id)
    ensures Run(w, txs).lending.loans[id] == w.lending.loans[id]
    decreases |txs|
  {
    if txs != [] {
      StepKeepsInvariant(w, txs[0]);
      OnlyActivationEndsWaiting(w, txs[0], id);
      WaitingOverRuns(Step(w, txs[0]), txs[1..], id);
    }
  }

  /** The lender's funds are in escrow in full, and none of the three ways to settle or remove the offer is open. */
  ghost predicate FundsAreBound(w: World, offer: nat, amount: int) {
    && offer in w.offers && w.offers[offer].status.Matched?
    && OfferLocked(w.lending.ledger, offer) == amount
    && forall signers: Signers ::
         && Execute(w, Tx(signers, CancelOffer(offer))).Err?
         && Execute(w, Tx(signers, ExpireOffer(offer))) == Err(Error.OfferMatched)
         && Execute(w, Tx(signers, CleanupOffer(offer))).Err?
  }

  lemma WaitingBindsFunds(w: World, id: nat)
    requires Inv(w) && Waits(w, id)
    ensures FundsAreBound(w, w.lending.loans[id].offerId, w.lending.loans[id].principal)
  {
    LoanIsOk(w, id);
    EscrowOf(w, id);
    assert LoanFromOffer(w, id);
  }

  /**
   * Over every run in which the borrower does not activate a waiting loan, whatever else anyone
   * does and however much time passes: the loan keeps waiting, its offer stays matched, the whole
   * principal stays in escrow for it, and the lender can neither cancel nor expire the offer.
   */
  lemma {:induction false} MatchedFundsWait(w: World, txs: seq<Tx>, id: nat)
    requires Reachable(w) && Waits(w, id)
    requires forall i | 0 <= i < |txs| :: !BorrowerActivates(txs[i], id, w.lending.loans[id].borrower)
    ensures var v, loan := Run(w, txs), w.lending.loans[id];
            && id in v.lending.loans && v.lending.loans[id] == loan
            && FundsAreBound(v, loan.offerId, loan.principal)
  {
    ReachableInvariant(w);
    WaitingOverRuns(w, txs, id);
    WaitingBindsFunds(Run(w, txs), id);
  }

  /** Without withdrawals the Vault also holds that principal, for every waiting loan of every run. */
  lemma {:induction false} WaitingPrincipalIsHeld(start: World, txs: seq<Tx>, id: nat)
    requires Genesis(start) && Waits(Run(start, txs), id)
    requires forall i | 0 <= i < |txs| :: !txs[i].call.Withdraw?
    ensures var w := Run(start, txs);
            var loan := w.lending.loans[id];
            VaultBalance(w, loan.loanAsset) >= OfferLocked(w.lending.ledger, loan.offerId) == loan.principal
  {
    var w := Run(start, txs);
    ReachableInvariant(w);
    EscrowOf(w, id);
    assert LoanFromOffer(w, id);
    var offer := w.lending.loans[id].offerId;
    SolventWithoutWithdrawals(start, txs, w.offers[offer].loanAsset);
    SolventVaultHoldsFunds(w, offer);
  }
}
