/** The Vault's ledgers against the records of the Marketplace and the Loan Manager. */
module Agreement {
  import opened Shared
  import opened Sums
  import opened Ledger
  import opened LoanManager
  import opened Marketplace
  import opened Protocol
  import opened Invariant
  import opened Lifecycle
  import Vault
  import VaultAlone

  /** A loan's collateral in escrow is what its record says, in its own collateral asset only. */
  lemma LoanAgreesWithVault(w: World, id: nat)
    requires Reachable(w)
    ensures id in w.lending.loans && Mutable(w.lending.loans[id].status) ==>
              && LoanCollateral(w.lending.ledger, id) == w.lending.loans[id].collateralAmount
              && Locked(w.lending.ledger, id, w.lending.loans[id].collateralAsset) == w.lending.loans[id].collateralAmount
    ensures id in w.lending.loans && !Mutable(w.lending.loans[id].status) ==> LoanCollateral(w.lending.ledger, id) == 0
    ensures id in w.lending.loans && w.lending.loans[id].status.Repaid? ==>
              w.lending.loans[id].outstandingDebt == 0 && w.lending.loans[id].collateralAmount == 0
    ensures id !in w.lending.loans ==> LoanCollateral(w.lending.ledger, id) == 0
    ensures id in w.lending.loans ==>
              Locked(w.lending.ledger, id, w.lending.loans[id].collateralAsset) == LoanCollateral(w.lending.ledger, id)
    ensures forall a | !(id in w.lending.loans && w.lending.loans[id].collateralAsset == a) ::
              Locked(w.lending.ledger, id, a) == 0
  {
    ReachableInvariant(w);
    assert LoanCollateral(w.lending.ledger, id) == ExpectedCollateral(w.lending, id);
    assert forall a :: Locked(w.lending.ledger, id, a) == ExpectedLocked(w.lending, id, a);
    if id in w.lending.loans {
      LoanIsOk(w, id);
    }
  }

  /**
   * An offer's escrow holds its whole amount exactly while it is funded, active, or matched with
   * a loan that waits for its collateral; at all other times it is empty.
   */
  lemma OfferAgreesWithVault(w: World, id: nat)
    requires Reachable(w)
    ensures var held := id in w.offers && (w.offers[id].status.Funding? || w.offers[id].status.Active?
                                           || (w.offers[id].status.Matched? && HasPending(w, id)));
            OfferLocked(w.lending.ledger, id) == if held then w.offers[id].loanAmount else 0
    ensures id in w.offers ==> w.offers[id].loanAmount > 0
  {
    ReachableInvariant(w);
    assert OfferLocked(w.lending.ledger, id) == ExpectedLock(w, id);
    if id in w.offers {
      assert OfferOk(w, id);
    }
  }

  /** Loans that stem from the same offer are the same loan. */
  lemma OneLoanForEachOffer(w: World, k: nat, l: nat)
    requires Reachable(w) && k in w.lending.loans && l in w.lending.loans
    requires w.lending.loans[k].offerId == w.lending.loans[l].offerId
    ensures k == l
  {
    ReachableInvariant(w);
  }

  // The two parallel collateral ledgers

  lemma {:induction false} SumOfZeros<K>(keys: set<K>, f: K -> int)
    requires forall k | k in keys :: f(k) == 0
    ensures SumOver(keys, f) == 0
  {
    if keys != {} {
      var k :| k in keys;
      SumRemove(keys, f, k);
      SumOfZeros(keys - {k}, f);
    }
  }

  /** A loan's total is the sum of its per-asset entries, over whatever entries are stored. */
  lemma CollateralIsSumOfAssets(w: World, id: nat)
    requires Reachable(w)
    ensures LoanCollateral(w.lending.ledger, id) == VaultAlone.LoanEntries(w.lending.ledger, id)
  {
    LoanAgreesWithVault(w, id);
    var s := w.lending.ledger;
    var asset := if id in w.lending.loans then w.lending.loans[id].collateralAsset else 0;
    var key, f := (id, asset), VaultAlone.EntryOf(s, id);
    forall k | k in s.locked.Keys - {key} ensures f(k) == 0 {
      assert Locked(s, k.0, k.1) == s.locked[k];
    }
    SumOfZeros<(nat, Asset)>(s.locked.Keys - {key}, f);
    if key in s.locked {
      SumRemove<(nat, Asset)>(s.locked.Keys, f, key);
      assert Locked(s, id, asset) == s.locked[key];
    } else {
      assert s.locked.Keys - {key} == s.locked.Keys;
      assert Locked(s, id, asset) == 0;
    }
  }

  // Stored entries are positive

  /** No stored entry is zero: entries are removed instead. */
  ghost predicate Clean(s: LedgerState) {
    && (forall o | o in s.offerLocked :: s.offerLocked[o] != 0)
    && (forall l | l in s.loanCollateral :: s.loanCollateral[l] != 0)
    && (forall k | k in s.locked :: s.locked[k] != 0)
  }

  lemma CollateralCallsKeepClean(s: LedgerState, signers: Signers, l: nat, holder: Address, asset: Asset, amount: int)
    requires Clean(s)
    ensures var r := Vault.LockBorrowerCollateral(s, signers, l, holder, asset, amount); r.Ok? ==> Clean(r.value)
    ensures var r := Vault.ReleaseBorrowerCollateral(s, l, holder, asset, amount); r.Ok? ==> Clean(r.value)
    ensures var r := Vault.TransferCollateralToLiquidator(s, l, holder, asset, amount); r.Ok? ==> Clean(r.value)
  {
  }

  lemma OfferCallsKeepClean(s: LedgerState, signers: Signers, o: nat, l: nat, holder: Address, asset: Asset, amount: int)
    requires Clean(s)
    ensures var r := Vault.LockLenderFunds(s, signers, o, holder, asset, amount); r.Ok? ==> Clean(r.value)
    ensures var r := Vault.UnlockLenderFunds(s, o, holder, asset, amount); r.Ok? ==> Clean(r.value)
    ensures var r := Vault.TransferLoanAssetToBorrower(s, o, l, holder, asset, amount); r.Ok? ==> Clean(r.value)
  {
  }

  lemma LoanCallKeepsClean(s: LendingState, signers: Signers, call: Call)
    requires ChangesLoan(call) && ExecuteLending(s, signers, call).Ok? && Clean(s.ledger)
    requires LoanOf(call) in s.loans ==> LoanOk(s, LoanOf(call))
    ensures Clean(ExecuteLending(s, signers, call).value.ledger)
  {
    var id := LoanOf(call);
    match call {
      case ActivateLoan(_) =>
        var locked, paid, open := ActivateShape(s, signers, id);
        CollateralCallsKeepClean(s.ledger, signers, id, open.borrower, open.collateralAsset, open.collateralAmount);
        OfferCallsKeepClean(locked, signers, open.offerId, id, open.borrower, open.loanAsset, open.principal);
      case AddCollateral(_, amount) =>
        var locked, grown := AddCollateralShape(s, signers, id, amount);
        CollateralCallsKeepClean(s.ledger, signers, id, grown.borrower, grown.collateralAsset, amount);
      case PartialRepay(_, amount) =>
        var repay, paid, less := PartialRepayShape(s, signers, id, amount);
        RepayingKeepsClean(s, signers, id, repay, paid, less);
      case FullRepay(_) =>
        FullRepayTouchesMutable(s, signers, id);
        var paid, less := FullRepayShape(s, signers, id);
        RepayingKeepsClean(s, signers, id, s.loans[id].outstandingDebt, paid, less);
      case Liquidate(_, liquidator, amount) =>
        LiquidateKeepsClean(s, signers, id, liquidator, amount);
      case _ =>
    }
  }

  lemma RepayingKeepsClean(s: LendingState, signers: Signers, id: nat, repay: int, paid: LedgerState, less: Loan)
    requires id in s.loans && Repaying(s, signers, id, repay, paid, less) && Clean(s.ledger)
    ensures Clean(paid)
    ensures ReleaseAllCollateral(paid, less).Ok? ==> Clean(ReleaseAllCollateral(paid, less).value.ledger)
  {
    CollateralCallsKeepClean(paid, signers, less.loanId, less.borrower, less.collateralAsset, less.collateralAmount);
  }

  lemma LiquidateKeepsClean(s: LendingState, signers: Signers, id: nat, liquidator: Address, amount: i128)
    requires LoanManager.Liquidate(s, signers, id, liquidator, amount).Ok? && Clean(s.ledger)
    requires id in s.loans ==> LoanOk(s, id)
    ensures Clean(LoanManager.Liquidate(s, signers, id, liquidator, amount).value.ledger)
  {
    LiquidateTouchesMutable(s, signers, id, liquidator, amount);
    var loan := s.loans[id];
    var q, taken, less := LiquidateShape(s, signers, id, liquidator, amount);
    var paid := Vault.CollectRepaymentFrom(
                  s.ledger, signers, id, liquidator, loan.lender, loan.loanAsset, q.repay).value;
    CollateralCallsKeepClean(paid, signers, id, liquidator, loan.collateralAsset, q.seized);
  }

  lemma StepKeepsClean(w: World, tx: Tx)
    requires Inv(w) && Clean(w.lending.ledger)
    ensures Clean(Step(w, tx).lending.ledger)
  {
    if Execute(w, tx).Ok? {
      if ChangesLoan(tx.call) {
        if LoanOf(tx.call) in w.lending.loans {
          LoanIsOk(w, LoanOf(tx.call));
        }
        LoanCallKeepsClean(w.lending, tx.signers, tx.call);
      } else {
        OtherCallKeepsClean(w, tx);
      }
    }
  }

  lemma OtherCallKeepsClean(w: World, tx: Tx)
    requires !ChangesLoan(tx.call) && Execute(w, tx).Ok? && Clean(w.lending.ledger)
    requires Inv(w)
    ensures Clean(Execute(w, tx).value.lending.ledger)
  {
    var s := w.lending.ledger;
    match tx.call
    case FundOffer(id) =>
      var offer := w.offers[id];
      OfferCallsKeepClean(s, tx.signers, id, 0, offer.lender, offer.loanAsset, offer.loanAmount);
    case CancelOffer(id) => SettleKeepsClean(w, id);
    case ExpireOffer(id) => SettleKeepsClean(w, id);
    case AcceptOffer(id, borrower, collateral) => AcceptLeavesStores(w, tx.signers, id, borrower, collateral);
    case _ => StoresUntouched(w, tx);
  }

  lemma SettleKeepsClean(w: World, id: nat)
    requires Clean(w.lending.ledger) && id in w.offers && OfferOk(w, id)
    ensures var r := UnlockOfferIfNeeded(w.lending.ledger, w.offers[id]); r.Ok? ==> Clean(r.value)
  {
    var offer := w.offers[id];
    OfferCallsKeepClean(w.lending.ledger, {}, id, 0, offer.lender, offer.loanAsset, OfferLocked(w.lending.ledger, id));
  }

  predicate SameStores(s: LedgerState, t: LedgerState) {
    t.offerLocked == s.offerLocked && t.loanCollateral == s.loanCollateral && t.locked == s.locked
  }

  lemma AcceptLeavesStores(w: World, signers: Signers, id: nat, borrower: Address, collateral: i128)
    requires Marketplace.AcceptOffer(w, signers, id, borrower, collateral).Ok?
    ensures SameStores(w.lending.ledger,
                       Marketplace.AcceptOffer(w, signers, id, borrower, collateral).value.lending.ledger)
  {
  }

  lemma QuietLeavesStores(w: World, tx: Tx)
    requires tx.call.CreateOffer? || tx.call.ActivateOffer? || tx.call.CleanupOffer? || tx.call.CleanupLoan?
    requires Execute(w, tx).Ok?
    ensures SameStores(w.lending.ledger, Execute(w, tx).value.lending.ledger)
  {
    match tx.call
    case CreateOffer(_) =>
    case ActivateOffer(_) =>
    case CleanupOffer(_) =>
    case CleanupLoan(id) => assert LoanManager.CleanupLoan(w.lending, tx.signers, id).Ok?;
  }

  lemma StoresUntouched(w: World, tx: Tx)
    requires !ChangesLoan(tx.call) && !tx.call.AcceptOffer? && Execute(w, tx).Ok?
    requires !tx.call.FundOffer? && !tx.call.CancelOffer? && !tx.call.ExpireOffer?
    ensures SameStores(w.lending.ledger, Execute(w, tx).value.lending.ledger)
  {
    match tx.call
    case SetPrice(_, _, _, _) =>
    case Withdraw(_, _, _) =>
    case TransferTokens(_, _, _, _) =>
    case Tick(_) =>
    case _ => QuietLeavesStores(w, tx);
  }

  lemma {:induction false} RunKeepsClean(w: World, txs: seq<Tx>)
    requires Inv(w) && Clean(w.lending.ledger)
    ensures Clean(Run(w, txs).lending.ledger)
    decreases |txs|
  {
    if txs != [] {
      StepKeepsInvariant(w, txs[0]);
      StepKeepsClean(w, txs[0]);
      RunKeepsClean(Step(w, txs[0]), txs[1..]);
    }
  }

  /** No entry of any of the Vault's three ledgers is ever zero or negative. */
  lemma EntriesArePositive(w: World)
    requires Reachable(w)
    ensures forall o | o in w.lending.ledger.offerLocked :: w.lending.ledger.offerLocked[o] > 0
    ensures forall l | l in w.lending.ledger.loanCollateral :: w.lending.ledger.loanCollateral[l] > 0
    ensures forall k | k in w.lending.ledger.locked :: w.lending.ledger.locked[k] > 0
  {
    var start, txs :| Genesis(start) && w == Run(start, txs);
    GenesisInvariant(start);
    RunKeepsClean(start, txs);
    var s := w.lending.ledger;
    forall o | o in s.offerLocked ensures s.offerLocked[o] > 0 {
      OfferAgreesWithVault(w, o);
      assert OfferLocked(s, o) == s.offerLocked[o];
    }
    forall l | l in s.loanCollateral ensures s.loanCollateral[l] > 0 {
      assert LoanCollateral(s, l) == s.loanCollateral[l];
      CollateralNonNegative(w, l);
    }
    forall k | k in s.locked ensures s.locked[k] > 0 {
      LoanAgreesWithVault(w, k.0);
      assert Locked(s, k.0, k.1) == s.locked[k];
      CollateralNonNegative(w, k.0);
    }
  }

  lemma CollateralNonNegative(w: World, id: nat)
    requires Reachable(w)
    ensures LoanCollateral(w.lending.ledger, id) >= 0
  {
    LoanAgreesWithVault(w, id);
    ReachableInvariant(w);
    if id in w.lending.loans {
      LoanIsOk(w, id);
    }
  }
}
