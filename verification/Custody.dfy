/** Solvency: the Vault's token balance backs every escrow entry, asset by asset, in every run. */
module Custody {
  import opened Shared
  import opened Sums
  import opened Token
  import opened Ledger
  import opened LoanManager
  import opened Marketplace
  import opened Protocol
  import opened Invariant
  import opened Lifecycle
  import opened Conservation
  import Vault

  function VaultBalance(w: World, asset: Asset): nat {
    BalanceOf(w.lending.ledger.balances, asset, VaultAddress)
  }

  /** Lender funds in escrow for an offer, if it lends the asset. */
  function OfferAt(w: World, o: nat, asset: Asset): int {
    if o in w.offers && w.offers[o].loanAsset == asset then OfferLocked(w.lending.ledger, o) else 0
  }

  /** Collateral of the asset in escrow for a loan. */
  function LoanAt(w: World, l: nat, asset: Asset): int {
    if l in w.lending.loans then Locked(w.lending.ledger, l, asset) else 0
  }

  ghost function OfferShare(w: World, asset: Asset): nat -> int {
    (o: nat) => OfferAt(w, o, asset)
  }

  ghost function LoanShare(w: World, asset: Asset): nat -> int {
    (l: nat) => LoanAt(w, l, asset)
  }

  /** What the Vault owes in an asset: all lender funds and all collateral in escrow. */
  ghost function Escrow(w: World, asset: Asset): int {
    SumOver(w.offers.Keys, OfferShare(w, asset)) + SumOver(w.lending.loans.Keys, LoanShare(w, asset))
  }

  /** What the Vault holds beyond what it owes. */
  ghost function Surplus(w: World, asset: Asset): int {
    VaultBalance(w, asset) - Escrow(w, asset)
  }

  /** A step touches at most one offer and one loan, so escrow changes by what happens there. */
  lemma EscrowChange(w: World, v: World, o: nat, l: nat, asset: Asset)
    requires v.offers - {o} == w.offers - {o}
    requires v.lending.loans.Keys - {l} == w.lending.loans.Keys - {l}
    requires forall p: nat :: p != o ==> OfferLocked(v.lending.ledger, p) == OfferLocked(w.lending.ledger, p)
    requires forall k: nat :: k != l ==> Locked(v.lending.ledger, k, asset) == Locked(w.lending.ledger, k, asset)
    ensures Escrow(v, asset) - Escrow(w, asset)
         == OfferAt(v, o, asset) - OfferAt(w, o, asset) + LoanAt(v, l, asset) - LoanAt(w, l, asset)
  {
    assert (v.offers - {o}).Keys == v.offers.Keys - {o} && (w.offers - {o}).Keys == w.offers.Keys - {o};
    forall p | p in w.offers && p != o ensures OfferShare(w, asset)(p) == OfferShare(v, asset)(p) {
      assert p in w.offers - {o} && (v.offers - {o})[p] == (w.offers - {o})[p];
    }
    forall k | k in w.lending.loans && k != l ensures LoanShare(w, asset)(k) == LoanShare(v, asset)(k) {
      assert k in w.lending.loans.Keys - {l};
    }
    SumChange(w.offers.Keys, OfferShare(w, asset), v.offers.Keys, OfferShare(v, asset), o);
    SumChange(w.lending.loans.Keys, LoanShare(w, asset), v.lending.loans.Keys, LoanShare(v, asset), l);
  }

  /** The Vault's balance changed exactly as the collateral of one loan did. */
  ghost predicate Backed(s: LedgerState, t: LedgerState, id: nat) {
    && OffersSame(s, t)
    && (forall l: nat, a: Asset :: l != id ==> Locked(t, l, a) == Locked(s, l, a))
    && (forall a: Asset :: BalanceOf(t.balances, a, VaultAddress) - BalanceOf(s.balances, a, VaultAddress)
                           == Locked(t, id, a) - Locked(s, id, a))
  }

  lemma LockBacked(
    s: LedgerState, t: LedgerState, signers: Signers, id: nat, borrower: Address, asset: Asset, amount: int)
    requires Vault.LockBorrowerCollateral(s, signers, id, borrower, asset, amount) == Ok(t)
    ensures Backed(s, t, id)
  {
  }

  lemma ReleaseBacked(s: LedgerState, t: LedgerState, id: nat, borrower: Address, asset: Asset, amount: int)
    requires Vault.ReleaseBorrowerCollateral(s, id, borrower, asset, amount) == Ok(t) && borrower != VaultAddress
    ensures Backed(s, t, id)
  {
  }

  lemma SeizureBacked(s: LedgerState, t: LedgerState, id: nat, liquidator: Address, asset: Asset, amount: int)
    requires Vault.TransferCollateralToLiquidator(s, id, liquidator, asset, amount) == Ok(t)
    requires liquidator != VaultAddress
    ensures Backed(s, t, id)
  {
  }

  lemma RepaymentBacked(
    s: LedgerState, t: LedgerState, signers: Signers, id: nat, payer: Address, lender: Address, asset: Asset, amount: int)
    requires Vault.CollectRepaymentFrom(s, signers, id, payer, lender, asset, amount) == Ok(t)
    requires lender != VaultAddress
    ensures Backed(s, t, id)
  {
  }

  /** All Loan Manager calls but the activation keep collateral backed. */
  lemma LoanCallBacked(s: LendingState, signers: Signers, call: Call)
    requires ChangesLoan(call) && !call.ActivateLoan? && ExecuteLending(s, signers, call).Ok?
    requires LoanOf(call) in s.loans ==> LoanOk(s, LoanOf(call))
    ensures Backed(s.ledger, ExecuteLending(s, signers, call).value.ledger, LoanOf(call))
  {
    var id, t := LoanOf(call), ExecuteLending(s, signers, call).value;
    match call {
      case AddCollateral(_, amount) =>
        var locked, grown := AddCollateralShape(s, signers, id, amount);
        LockBacked(s.ledger, locked, signers, id, grown.borrower, grown.collateralAsset, amount);
      case PartialRepay(_, amount) =>
        var repay, paid, less := PartialRepayShape(s, signers, id, amount);
        RepayingBacked(s, signers, id, repay, paid, less);
      case FullRepay(_) =>
        FullRepayTouchesMutable(s, signers, id);
        var paid, less := FullRepayShape(s, signers, id);
        RepayingBacked(s, signers, id, s.loans[id].outstandingDebt, paid, less);
      case Liquidate(_, liquidator, amount) =>
        LiquidateBacked(s, signers, id, liquidator, amount);
      case _ =>
    }
  }

  lemma RepayingBacked(s: LendingState, signers: Signers, id: nat, repay: int, paid: LedgerState, less: Loan)
    requires id in s.loans && LoanOk(s, id) && Repaying(s, signers, id, repay, paid, less)
    ensures Backed(s.ledger, paid, id)
    ensures ReleaseAllCollateral(paid, less).Ok? ==>
              Backed(s.ledger, ReleaseAllCollateral(paid, less).value.ledger, id)
  {
    RepaymentBacked(s.ledger, paid, signers, id, less.borrower, less.lender, less.loanAsset, repay);
    var released := ReleaseAllCollateral(paid, less);
    if released.Ok? && less.collateralAmount != 0 {
      ReleaseBacked(paid, released.value.ledger, id, less.borrower, less.collateralAsset, less.collateralAmount);
    }
  }

  lemma LiquidateBacked(s: LendingState, signers: Signers, id: nat, liquidator: Address, amount: i128)
    requires LoanManager.Liquidate(s, signers, id, liquidator, amount).Ok?
    requires id in s.loans ==> LoanOk(s, id)
    ensures Backed(s.ledger, LoanManager.Liquidate(s, signers, id, liquidator, amount).value.ledger, id)
  {
    LiquidateTouchesMutable(s, signers, id, liquidator, amount);
    var loan := s.loans[id];
    var q, taken, less := LiquidateShape(s, signers, id, liquidator, amount);
    var paid := Vault.CollectRepaymentFrom(
                  s.ledger, signers, id, liquidator, loan.lender, loan.loanAsset, q.repay).value;
    RepaymentBacked(s.ledger, paid, signers, id, liquidator, loan.lender, loan.loanAsset, q.repay);
    SeizureBacked(paid, taken, id, liquidator, loan.collateralAsset, q.seized);
  }

  lemma BackedKeepsSurplus(w: World, t: LendingState, id: nat, asset: Asset)
    requires Inv(w) && Advanced(w.lending, t, id) && Backed(w.lending.ledger, t.ledger, id)
    ensures Surplus(w.(lending := t), asset) == Surplus(w, asset)
  {
    EscrowChange(w, w.(lending := t), 0, id, asset);
  }

  lemma ActivateKeepsSurplus(w: World, signers: Signers, id: nat, asset: Asset)
    requires Inv(w) && LoanManager.ActivateLoan(w.lending, signers, id).Ok?
    ensures Surplus(w.(lending := LoanManager.ActivateLoan(w.lending, signers, id).value), asset) == Surplus(w, asset)
  {
    var s, t := w.lending, LoanManager.ActivateLoan(w.lending, signers, id).value;
    var v := w.(lending := t);
    LoanIsOk(w, id);
    var locked, paid, open := ActivateShape(s, signers, id);
    OpenedKeepsSurplus(w, v, signers, id, locked, paid, open, asset);
  }

  lemma OpenedKeepsSurplus(
    w: World, v: World, signers: Signers, id: nat, locked: LedgerState, paid: LedgerState, open: Loan, asset: Asset)
    requires id in w.lending.loans && LoanOk(w.lending, id) && LoanFromOffer(w, id)
    requires Opened(w.lending, signers, id, locked, paid, open)
    requires v == w.(lending := Store(w.lending, paid, id, open, LoanActivated(id, open.outstandingDebt)))
    ensures Surplus(v, asset) == Surplus(w, asset)
  {
    LockBacked(w.lending.ledger, locked, signers, id, open.borrower, open.collateralAsset, open.collateralAmount);
    PrincipalFromOffer(locked, paid, open.offerId, id, open.borrower, open.loanAsset, open.principal, asset);
    EscrowChange(w, v, open.offerId, id, asset);
  }

  lemma PrincipalFromOffer(
    s: LedgerState, t: LedgerState, offer: nat, id: nat, borrower: Address, a: Asset, amount: int, asset: Asset)
    requires Vault.TransferLoanAssetToBorrower(s, offer, id, borrower, a, amount) == Ok(t)
    requires borrower != VaultAddress
    ensures BalanceOf(t.balances, asset, VaultAddress)
         == BalanceOf(s.balances, asset, VaultAddress) - (if a == asset then amount else 0)
    ensures OfferLocked(t, offer) == OfferLocked(s, offer) - amount
    ensures forall o: nat :: o != offer ==> OfferLocked(t, o) == OfferLocked(s, o)
    ensures CollateralSame(s, t)
  {
  }

  lemma FundKeepsSurplus(w: World, signers: Signers, id: nat, asset: Asset)
    requires Inv(w) && Marketplace.FundOffer(w, signers, id).Ok?
    ensures Surplus(Marketplace.FundOffer(w, signers, id).value, asset) == Surplus(w, asset)
  {
    assert OfferOk(w, id);
    EscrowChange(w, Marketplace.FundOffer(w, signers, id).value, id, 0, asset);
  }

  lemma SettleKeepsSurplus(w: World, id: nat, unlocked: LedgerState, settled: OfferStatus, e: Event, asset: Asset)
    requires Inv(w) && id in w.offers
    requires UnlockOfferIfNeeded(w.lending.ledger, w.offers[id]) == Ok(unlocked)
    ensures Surplus(StoreOffer(w, unlocked, id, w.offers[id].(status := settled), e), asset) == Surplus(w, asset)
  {
    assert OfferOk(w, id);
    EscrowChange(w, StoreOffer(w, unlocked, id, w.offers[id].(status := settled), e), id, 0, asset);
  }

  /** Creating, activating and cleaning up an offer move no funds. */
  lemma QuietOfferChange(w: World, v: World, id: nat, asset: Asset)
    requires v.offers - {id} == w.offers - {id} && v.lending.loans == w.lending.loans
    requires OffersSame(w.lending.ledger, v.lending.ledger)
    requires v.lending.ledger.locked == w.lending.ledger.locked
    requires v.lending.ledger.balances == w.lending.ledger.balances
    requires OfferLocked(w.lending.ledger, id) == 0
             || (id in w.offers && id in v.offers && v.offers[id].loanAsset == w.offers[id].loanAsset)
    ensures Surplus(v, asset) == Surplus(w, asset)
  {
    EscrowChange(w, v, id, 0, asset);
  }

  lemma QuietOfferKeepsSurplus(w: World, tx: Tx, asset: Asset)
    requires Inv(w) && Execute(w, tx).Ok?
    requires tx.call.CreateOffer? || tx.call.ActivateOffer? || tx.call.CleanupOffer?
    ensures Surplus(Execute(w, tx).value, asset) == Surplus(w, asset)
  {
    var id := if tx.call.CreateOffer? then w.offerCount + 1 else tx.call.offer;
    LockOf(w, id);
    QuietOfferChange(w, Execute(w, tx).value, id, asset);
  }

  lemma LockOf(w: World, id: nat)
    requires Inv(w)
    ensures OfferLocked(w.lending.ledger, id) >= 0
    ensures id > w.offerCount ==> OfferLocked(w.lending.ledger, id) == 0
  {
    assert OfferLocked(w.lending.ledger, id) == ExpectedLock(w, id);
    if id in w.offers {
      assert OfferOk(w, id);
    }
  }

  lemma AcceptKeepsSurplus(w: World, signers: Signers, id: nat, borrower: Address, collateral: i128, asset: Asset)
    requires Inv(w) && Marketplace.AcceptOffer(w, signers, id, borrower, collateral).Ok?
    ensures Surplus(Marketplace.AcceptOffer(w, signers, id, borrower, collateral).value, asset) == Surplus(w, asset)
  {
    var newId, loan := AcceptShape(w, signers, id, borrower, collateral);
    assert Locked(w.lending.ledger, newId, asset) == ExpectedLocked(w.lending, newId, asset);
    if newId in w.lending.loans {
      LoanIsOk(w, newId);
    }
    EscrowChange(w, Marketplace.AcceptOffer(w, signers, id, borrower, collateral).value, id, newId, asset);
  }

  lemma CleanupLoanKeepsSurplus(w: World, signers: Signers, id: nat, asset: Asset)
    requires Inv(w) && LoanManager.CleanupLoan(w.lending, signers, id).Ok?
    ensures Surplus(w.(lending := LoanManager.CleanupLoan(w.lending, signers, id).value), asset) == Surplus(w, asset)
  {
    LoanIsOk(w, id);
    EscrowOf(w, id);
    EscrowChange(w, w.(lending := LoanManager.CleanupLoan(w.lending, signers, id).value), 0, id, asset);
  }

  /** Only the admin's withdrawal and transfers from outside move the surplus. */
  function SurplusChange(call: Call, asset: Asset): int {
    match call
    case Withdraw(a, recipient, amount) => if a == asset && recipient != VaultAddress then 0 - amount else 0
    case TransferTokens(a, _, recipient, amount) => if a == asset && recipient == VaultAddress then amount else 0
    case _ => 0
  }

  lemma OutsideChangesSurplus(w: World, tx: Tx, asset: Asset)
    requires Inv(w) && Execute(w, tx).Ok?
    requires tx.call.SetPrice? || tx.call.Withdraw? || tx.call.TransferTokens? || tx.call.Tick?
    ensures Surplus(Execute(w, tx).value, asset) == Surplus(w, asset) + SurplusChange(tx.call, asset)
  {
    EscrowChange(w, Execute(w, tx).value, 0, 0, asset);
  }

  lemma StepChangesSurplus(w: World, tx: Tx, asset: Asset)
    requires Inv(w) && Execute(w, tx).Ok?
    ensures Surplus(Execute(w, tx).value, asset) == Surplus(w, asset) + SurplusChange(tx.call, asset)
  {
    if ChangesLoan(tx.call) && !tx.call.ActivateLoan? {
      var id := LoanOf(tx.call);
      if id in w.lending.loans {
        LoanIsOk(w, id);
      }
      LoanCallLater(w.lending, tx.signers, tx.call);
      LoanCallBacked(w.lending, tx.signers, tx.call);
      BackedKeepsSurplus(w, Execute(w, tx).value.lending, id, asset);
    } else {
      match tx.call
      case ActivateLoan(id) => ActivateKeepsSurplus(w, tx.signers, id, asset);
      case FundOffer(id) => FundKeepsSurplus(w, tx.signers, id, asset);
      case CancelOffer(id) =>
        SettleKeepsSurplus(w, id, UnlockOfferIfNeeded(w.lending.ledger, w.offers[id]).value, Cancelled,
                           OfferCancelled(id, w.offers[id].loanAmount), asset);
      case ExpireOffer(id) =>
        SettleKeepsSurplus(w, id, UnlockOfferIfNeeded(w.lending.ledger, w.offers[id]).value, OfferStatus.Expired,
                           OfferExpired(id, w.offers[id].loanAmount), asset);
      case AcceptOffer(id, borrower, collateral) => AcceptKeepsSurplus(w, tx.signers, id, borrower, collateral, asset);
      case CleanupLoan(id) => CleanupLoanKeepsSurplus(w, tx.signers, id, asset);
      case SetPrice(_, _, _, _) => OutsideChangesSurplus(w, tx, asset);
      case Withdraw(_, _, _) => OutsideChangesSurplus(w, tx, asset);
      case TransferTokens(_, _, _, _) => OutsideChangesSurplus(w, tx, asset);
      case Tick(_) => OutsideChangesSurplus(w, tx, asset);
      case _ => QuietOfferKeepsSurplus(w, tx, asset);
    }
  }

  // Statements about every run

  /** What the successful transactions of a run add to the surplus. */
  function RunSurplus(w: World, txs: seq<Tx>, asset: Asset): int
    decreases |txs|
  {
    if txs == [] then 0
    else
      (if Execute(w, txs[0]).Ok? then SurplusChange(txs[0].call, asset) else 0)
      + RunSurplus(Step(w, txs[0]), txs[1..], asset)
  }

  lemma {:induction false} RunChangesSurplus(w: World, txs: seq<Tx>, asset: Asset)
    requires Inv(w)
    ensures Surplus(Run(w, txs), asset) == Surplus(w, asset) + RunSurplus(w, txs, asset)
    decreases |txs|
  {
    if txs != [] {
      if Execute(w, txs[0]).Ok? {
        StepChangesSurplus(w, txs[0], asset);
      }
      StepKeepsInvariant(w, txs[0]);
      RunChangesSurplus(Step(w, txs[0]), txs[1..], asset);
    }
  }

  /**
   * Custody over all runs: the Vault's balance is exactly what it owes in lender funds and
   * collateral, plus what it started with, plus outside transfers into it, minus withdrawals.
   */
  lemma {:induction false} CustodyOverRuns(start: World, txs: seq<Tx>, asset: Asset)
    requires Genesis(start)
    ensures VaultBalance(Run(start, txs), asset)
         == Escrow(Run(start, txs), asset) + VaultBalance(start, asset) + RunSurplus(start, txs, asset)
  {
    GenesisInvariant(start);
    GenesisOwesNothing(start, asset);
    RunChangesSurplus(start, txs, asset);
  }

  lemma GenesisOwesNothing(start: World, asset: Asset)
    requires Genesis(start)
    ensures Escrow(start, asset) == 0
  {
  }

  lemma {:induction false} WithoutWithdrawals(w: World, txs: seq<Tx>, asset: Asset)
    requires forall i | 0 <= i < |txs| :: !txs[i].call.Withdraw?
    ensures RunSurplus(w, txs, asset) >= 0
    decreases |txs|
  {
    if txs != [] {
      assert !txs[0].call.Withdraw?;
      WithoutWithdrawals(Step(w, txs[0]), txs[1..], asset);
    }
  }

  /** Solvency: as long as the admin does not withdraw, the Vault can pay all it owes, in every asset. */
  lemma {:induction false} SolventWithoutWithdrawals(start: World, txs: seq<Tx>, asset: Asset)
    requires Genesis(start)
    requires forall i | 0 <= i < |txs| :: !txs[i].call.Withdraw?
    ensures VaultBalance(Run(start, txs), asset) >= Escrow(Run(start, txs), asset)
  {
    CustodyOverRuns(start, txs, asset);
    WithoutWithdrawals(start, txs, asset);
  }

  /** A withdrawal to an account leaves the Vault solvent exactly if it stays within the surplus. */
  lemma WithdrawalStaysSolvent(w: World, tx: Tx)
    requires Reachable(w) && tx.call.Withdraw? && tx.call.recipient != VaultAddress && Execute(w, tx).Ok?
    ensures Surplus(Execute(w, tx).value, tx.call.asset) >= 0 <==> tx.call.amount <= Surplus(w, tx.call.asset)
  {
    ReachableInvariant(w);
    StepChangesSurplus(w, tx, tx.call.asset);
  }
}
