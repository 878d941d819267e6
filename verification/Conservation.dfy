/** Accounting over whole runs: what the event log says must match what the contracts hold. */
module Conservation {
  import opened Shared
  import opened Token
  import opened Ledger
  import opened RiskMath
  import opened LoanManager
  import opened Marketplace
  import opened Protocol
  import opened Invariant
  import opened Lifecycle
  import opened Parties
  import Vault

  // The Vault's own books

  /** What an offer's escrow deviates from its logged inflow and outflow. */
  function OfferImbalance(s: LedgerState, o: nat): int {
    Total(s.log, FundsIn, o) - Total(s.log, FundsOut, o) - Total(s.log, Disbursed, o) - OfferLocked(s, o)
  }

  function CollateralImbalance(s: LedgerState, l: nat): int {
    Total(s.log, CollateralIn, l) - Total(s.log, CollateralSeized, l) - Total(s.log, CollateralOut, l)
    - LoanCollateral(s, l)
  }

  function BalanceImbalance(s: LedgerState, a: Asset, h: Address): int {
    Gained(s.log, a, h) - BalanceOf(s.balances, a, h)
  }

  ghost predicate SameSupply(s: LedgerState, t: LedgerState) {
    forall a :: Supply(t.balances, a) == Supply(s.balances, a)
  }

  /** Every change of escrow and of balances between two states is in the log, and nothing else is. */
  ghost predicate Explained(s: LedgerState, t: LedgerState) {
    && (forall o :: OfferImbalance(t, o) == OfferImbalance(s, o))
    && (forall l :: CollateralImbalance(t, l) == CollateralImbalance(s, l))
    && (forall a, h :: BalanceImbalance(t, a, h) == BalanceImbalance(s, a, h))
    && SameSupply(s, t)
  }

  /** One event was logged, and escrow and balances changed as that event says. */
  ghost predicate Posted(s: LedgerState, t: LedgerState, e: Event) {
    && t.log == s.log + [e]
    && (forall o :: OfferLocked(t, o) == OfferLocked(s, o)
                    + Amount(e, FundsIn, o) - Amount(e, FundsOut, o) - Amount(e, Disbursed, o))
    && (forall l :: LoanCollateral(t, l) == LoanCollateral(s, l)
                    + Amount(e, CollateralIn, l) - Amount(e, CollateralSeized, l) - Amount(e, CollateralOut, l))
    && (forall a, h :: BalanceOf(t.balances, a, h) == BalanceOf(s.balances, a, h) + Gain(e, a, h))
    && SameSupply(s, t)
  }

  lemma PostedIsExplained(s: LedgerState, t: LedgerState, e: Event)
    requires Posted(s, t, e)
    ensures Explained(s, t)
  {
    TotalOfPublish(s.log, e);
    GainedByPublish(s.log, e);
  }

  /** A transfer between holders changes balances as its event says. */
  lemma MovedAsLogged(s: LedgerState, t: LedgerState, e: Event)
    requires var m := MovementOf(e);
             m.Move? && Vault.Moved(s, t, m.asset, m.sender, m.recipient, m.amount)
    ensures forall a, h :: BalanceOf(t.balances, a, h) == BalanceOf(s.balances, a, h) + Gain(e, a, h)
    ensures SameSupply(s, t)
  {
    var m := MovementOf(e);
    MovedKeepsSupply(s, t, m.asset, m.sender, m.recipient, m.amount);
  }

  /** A movement of collateral, in escrow and in balances. */
  lemma CollateralPosted(s: LedgerState, t: LedgerState, l: nat, asset: Asset, delta: int, e: Event)
    requires t.log == s.log + [e]
    requires Vault.CollateralChanged(s, t, l, asset, delta) && OffersSame(s, t)
    requires MovementOf(e).Move? && Vault.Moved(s, t, asset, MovementOf(e).sender, MovementOf(e).recipient, e.amount)
    requires MovementOf(e).asset == asset && MovementOf(e).amount == e.amount
    requires || (e.CollateralLocked? && e.loanId == l && delta == e.amount)
             || ((e.CollateralReleased? || e.CollateralToLiquidator?) && e.loanId == l && delta == -e.amount)
    ensures Posted(s, t, e)
  {
    MovedAsLogged(s, t, e);
  }

  /** A movement of a lender's funds, in escrow and in balances. */
  lemma FundsPosted(s: LedgerState, t: LedgerState, o: nat, asset: Asset, delta: int, e: Event)
    requires t.log == s.log + [e]
    requires Vault.OffersChanged(s, t, o, delta) && CollateralSame(s, t)
    requires MovementOf(e).Move? && Vault.Moved(s, t, asset, MovementOf(e).sender, MovementOf(e).recipient, e.amount)
    requires MovementOf(e).asset == asset && MovementOf(e).amount == e.amount
    requires || (e.LenderFundsLocked? && e.offerId == o && delta == e.amount)
             || ((e.LenderFundsUnlocked? || e.LoanAssetTransferred?) && e.offerId == o && delta == -e.amount)
    ensures Posted(s, t, e)
  {
    MovedAsLogged(s, t, e);
  }

  /** Events that report no movement of tokens. */
  predicate Silent(e: Event) {
    && MovementOf(e).NoMovement?
  }

  lemma PublishIsPosted(s: LedgerState, e: Event)
    requires Silent(e)
    ensures Posted(s, Publish(s, e), e)
  {
  }

  lemma LockLenderFundsPosted(s: LedgerState, signers: Signers, o: nat, lender: Address, asset: Asset, amount: int)
    ensures var r := Vault.LockLenderFunds(s, signers, o, lender, asset, amount);
            r.Ok? ==> Posted(s, r.value, LenderFundsLocked(o, lender, asset, amount))
  {
    var r := Vault.LockLenderFunds(s, signers, o, lender, asset, amount);
    if r.Ok? {
      FundsPosted(s, r.value, o, asset, amount, LenderFundsLocked(o, lender, asset, amount));
    }
  }

  lemma UnlockLenderFundsPosted(s: LedgerState, o: nat, lender: Address, asset: Asset, amount: int)
    ensures var r := Vault.UnlockLenderFunds(s, o, lender, asset, amount);
            r.Ok? ==> Posted(s, r.value, LenderFundsUnlocked(o, lender, asset, amount))
  {
    var r := Vault.UnlockLenderFunds(s, o, lender, asset, amount);
    if r.Ok? {
      FundsPosted(s, r.value, o, asset, -amount, LenderFundsUnlocked(o, lender, asset, amount));
    }
  }

  lemma LockCollateralPosted(s: LedgerState, signers: Signers, l: nat, borrower: Address, asset: Asset, amount: int)
    ensures var r := Vault.LockBorrowerCollateral(s, signers, l, borrower, asset, amount);
            r.Ok? ==> Posted(s, r.value, CollateralLocked(l, borrower, asset, amount))
  {
    var r := Vault.LockBorrowerCollateral(s, signers, l, borrower, asset, amount);
    if r.Ok? {
      CollateralPosted(s, r.value, l, asset, amount, CollateralLocked(l, borrower, asset, amount));
    }
  }

  lemma ReleaseCollateralPosted(s: LedgerState, l: nat, borrower: Address, asset: Asset, amount: int)
    ensures var r := Vault.ReleaseBorrowerCollateral(s, l, borrower, asset, amount);
            r.Ok? ==> Posted(s, r.value, CollateralReleased(l, borrower, asset, amount))
  {
    var r := Vault.ReleaseBorrowerCollateral(s, l, borrower, asset, amount);
    if r.Ok? {
      CollateralPosted(s, r.value, l, asset, -amount, CollateralReleased(l, borrower, asset, amount));
    }
  }

  lemma PrincipalPosted(s: LedgerState, o: nat, l: nat, borrower: Address, asset: Asset, amount: int)
    ensures var r := Vault.TransferLoanAssetToBorrower(s, o, l, borrower, asset, amount);
            r.Ok? ==> Posted(s, r.value, LoanAssetTransferred(o, l, borrower, asset, amount))
  {
    var r := Vault.TransferLoanAssetToBorrower(s, o, l, borrower, asset, amount);
    if r.Ok? {
      FundsPosted(s, r.value, o, asset, -amount, LoanAssetTransferred(o, l, borrower, asset, amount));
    }
  }

  lemma RepaymentPosted(
    s: LedgerState, signers: Signers, l: nat, payer: Address, lender: Address, asset: Asset, amount: int)
    ensures var r := Vault.CollectRepaymentFrom(s, signers, l, payer, lender, asset, amount);
            r.Ok? ==> Posted(s, r.value, RepaymentTransferred(l, payer, lender, asset, amount))
  {
    var r := Vault.CollectRepaymentFrom(s, signers, l, payer, lender, asset, amount);
    if r.Ok? {
      MovedAsLogged(s, r.value, RepaymentTransferred(l, payer, lender, asset, amount));
    }
  }

  lemma SeizurePosted(s: LedgerState, l: nat, liquidator: Address, asset: Asset, amount: int)
    ensures var r := Vault.TransferCollateralToLiquidator(s, l, liquidator, asset, amount);
            r.Ok? ==> Posted(s, r.value, CollateralToLiquidator(l, liquidator, asset, amount))
  {
    var r := Vault.TransferCollateralToLiquidator(s, l, liquidator, asset, amount);
    if r.Ok? {
      CollateralPosted(s, r.value, l, asset, -amount, CollateralToLiquidator(l, liquidator, asset, amount));
    }
  }

  lemma WithdrawPosted(s: LedgerState, signers: Signers, asset: Asset, recipient: Address, amount: int)
    ensures var r := Vault.Withdraw(s, signers, asset, recipient, amount);
            r.Ok? ==> Posted(s, r.value, Withdrawn(asset, recipient, amount))
  {
    var r := Vault.Withdraw(s, signers, asset, recipient, amount);
    if r.Ok? {
      MovedAsLogged(s, r.value, Withdrawn(asset, recipient, amount));
    }
  }

  lemma OutsideTransferPosted(
    s: LedgerState, signers: Signers, asset: Asset, sender: Address, recipient: Address, amount: i128)
    ensures var r := OutsideTransfer(s, signers, asset, sender, recipient, amount);
            r.Ok? ==> Posted(s, r.value, TokenTransferred(asset, sender, recipient, amount))
  {
    var r := OutsideTransfer(s, signers, asset, sender, recipient, amount);
    if r.Ok? {
      MovedAsLogged(s, r.value, TokenTransferred(asset, sender, recipient, amount));
    }
  }

  // The contracts' books against the log

  function DebtOf(s: LendingState, l: nat): int {
    if l in s.loans then s.loans[l].outstandingDebt else 0
  }

  function LoggedFor(s: LendingState, flow: Flow, id: nat): int {
    Total(s.ledger.log, flow, id)
  }

  /** What was owed at creation has been paid or is still outstanding. */
  ghost predicate DebtAccount(s: LendingState, l: nat) {
    && LoggedFor(s, Owed, l) == LoggedFor(s, Paid, l) + DebtOf(s, l)
    && 0 <= LoggedFor(s, Liquidations, l) <= LoggedFor(s, Paid, l)
    && (l > s.loanCount ==> LoggedFor(s, Owed, l) == 0)
    && (l in s.loans ==>
          Ok(LoggedFor(s, Owed, l))
          == PrincipalWithInterest(s.loans[l].principal, s.loans[l].fixedAprBps, s.loans[l].durationDays))
  }

  ghost predicate DebtAccounts(s: LendingState) {
    forall l: nat :: DebtAccount(s, l)
  }

  /** An offer is matched at most once, and pays out at most once and only when matched. */
  ghost predicate OfferAccount(w: World, o: nat) {
    && 0 <= LoggedFor(w.lending, Disbursals, o) <= LoggedFor(w.lending, Matches, o) <= 1
    && (o > w.offerCount ==> LoggedFor(w.lending, Matches, o) == 0)
    && (o in w.offers ==> LoggedFor(w.lending, Matches, o) == if w.offers[o].status.Matched? then 1 else 0)
    && (LoggedFor(w.lending, Disbursals, o) == 0 ==> LoggedFor(w.lending, Disbursed, o) == 0)
  }

  /** A loan's principal has been paid out exactly if the loan has been opened. */
  ghost predicate PrincipalAccount(s: LendingState, l: nat)
    requires l in s.loans
  {
    var loan := s.loans[l];
    var open := !loan.status.PendingCollateral?;
    && LoggedFor(s, Disbursals, loan.offerId) == (if open then 1 else 0)
    && LoggedFor(s, Disbursed, loan.offerId) == (if open then loan.principal else 0)
  }

  ghost predicate OfferAccounts(w: World) {
    && (forall o: nat :: OfferAccount(w, o))
    && (forall l | l in w.lending.loans :: PrincipalAccount(w.lending, l))
  }

  ghost predicate Accounts(w: World) {
    DebtAccounts(w.lending) && OfferAccounts(w)
  }

  /** The entry in the log that a payment, and nothing else, adds to a loan's accounts. */
  ghost predicate PaymentLogged(s: LendingState, t: LendingState, id: nat, payment: int, liquidations: int) {
    && (forall l: nat :: LoggedFor(t, Owed, l) == LoggedFor(s, Owed, l))
    && (forall l: nat :: LoggedFor(t, Paid, l) == LoggedFor(s, Paid, l) + (if l == id then payment else 0))
    && (forall l: nat :: LoggedFor(t, Liquidations, l)
                    == LoggedFor(s, Liquidations, l) + (if l == id then liquidations else 0))
  }

  ghost predicate OffersNotLogged(s: LendingState, t: LendingState) {
    && (forall o: nat :: LoggedFor(t, Matches, o) == LoggedFor(s, Matches, o))
    && (forall o: nat :: LoggedFor(t, Disbursals, o) == LoggedFor(s, Disbursals, o))
    && (forall o: nat :: LoggedFor(t, Disbursed, o) == LoggedFor(s, Disbursed, o))
  }

  /** A loan whose debt falls by what was logged as paid keeps its accounts. */
  lemma PaymentKeepsDebtAccounts(s: LendingState, t: LendingState, id: nat, payment: int, liquidations: int)
    requires DebtAccounts(s) && Advanced(s, t, id)
    requires PaymentLogged(s, t, id, payment, liquidations)
    requires payment == s.loans[id].outstandingDebt - t.loans[id].outstandingDebt
    requires 0 <= liquidations <= payment
    ensures DebtAccounts(t)
  {
    forall l: nat ensures DebtAccount(t, l) {
      assert DebtAccount(s, l);
    }
  }

  /** An open loan's later stages do not concern the accounts of offers. */
  lemma PaymentKeepsOfferAccounts(w: World, t: LendingState, id: nat)
    requires OfferAccounts(w) && Advanced(w.lending, t, id) && OffersNotLogged(w.lending, t)
    requires w.lending.loans[id].status.PendingCollateral? == t.loans[id].status.PendingCollateral?
    ensures OfferAccounts(w.(lending := t))
  {
    var v := w.(lending := t);
    forall o: nat ensures OfferAccount(v, o) {
      assert OfferAccount(w, o);
    }
    forall l | l in t.loans ensures PrincipalAccount(t, l) {
      assert PrincipalAccount(w.lending, l);
    }
  }

  /** A log that grew by up to three events. */
  lemma LogOfThree(s: LedgerState, a: LedgerState, b: LedgerState, t: LedgerState, e: Event, f: Event, g: Event)
    requires Posted(s, a, e) && Posted(a, b, f) && Posted(b, t, g)
    ensures Explained(s, t)
    ensures forall flow, id :: Total(t.log, flow, id)
                               == Total(s.log, flow, id) + Amount(e, flow, id) + Amount(f, flow, id) + Amount(g, flow, id)
  {
    LogOfTwo(s, a, b, e, f);
    PostedIsExplained(b, t, g);
    TotalOfPublish(b.log, g);
  }

  lemma LogOfTwo(s: LedgerState, a: LedgerState, t: LedgerState, e: Event, f: Event)
    requires Posted(s, a, e) && Posted(a, t, f)
    ensures Explained(s, t)
    ensures forall flow, id :: Total(t.log, flow, id)
                               == Total(s.log, flow, id) + Amount(e, flow, id) + Amount(f, flow, id)
  {
    PostedIsExplained(s, a, e);
    TotalOfPublish(s.log, e);
    PostedIsExplained(a, t, f);
    TotalOfPublish(a.log, f);
  }

  lemma LogOfOne(s: LedgerState, t: LedgerState, e: Event)
    requires Posted(s, t, e)
    ensures Explained(s, t)
    ensures forall flow, id :: Total(t.log, flow, id) == Total(s.log, flow, id) + Amount(e, flow, id)
  {
    PostedIsExplained(s, t, e);
    TotalOfPublish(s.log, e);
  }

  // Loan Manager calls

  /** What a call that leaves a loan open, or settles it, adds to the log. */
  ghost predicate LoanCallLogged(s: LendingState, t: LendingState, id: nat, payment: int, liquidations: int) {
    && Explained(s.ledger, t.ledger)
    && PaymentLogged(s, t, id, payment, liquidations)
    && OffersNotLogged(s, t)
  }

  lemma StatusCallLogged(s: LendingState, t: LendingState, id: nat, e: Event)
    requires t.ledger == Publish(s.ledger, e)
    requires e.LoanStateUpdated? || e.LoanExpired? || e.LoanDefaulted?
    ensures LoanCallLogged(s, t, id, 0, 0)
  {
    PublishIsPosted(s.ledger, e);
    LogOfOne(s.ledger, t.ledger, e);
  }

  lemma AddCollateralLogged(s: LendingState, signers: Signers, id: nat, amount: i128)
    requires LoanManager.AddCollateral(s, signers, id, amount).Ok?
    ensures LoanCallLogged(s, LoanManager.AddCollateral(s, signers, id, amount).value, id, 0, 0)
  {
    var locked, grown := AddCollateralShape(s, signers, id, amount);
    LockCollateralPosted(s.ledger, signers, id, grown.borrower, grown.collateralAsset, amount);
    AdditionLogged(s, LoanManager.AddCollateral(s, signers, id, amount).value, locked, id,
                   CollateralLocked(id, grown.borrower, grown.collateralAsset, amount), CollateralAdded(id, amount));
  }

  lemma AdditionLogged(s: LendingState, t: LendingState, locked: LedgerState, id: nat, moved: Event, done: Event)
    requires Posted(s.ledger, locked, moved) && t.ledger == Publish(locked, done)
    requires moved.CollateralLocked? && done.CollateralAdded?
    ensures LoanCallLogged(s, t, id, 0, 0)
  {
    PublishIsPosted(locked, done);
    LogOfTwo(s.ledger, locked, t.ledger, moved, done);
  }

  /** A payment, a movement of collateral, and the closing event of the call. */
  lemma PaymentEvents(
    s: LendingState, t: LendingState, id: nat, a: LedgerState, b: LedgerState, sent: Event, moved: Event, done: Event)
    requires Posted(s.ledger, a, sent) && Posted(a, b, moved) && Posted(b, t.ledger, done)
    requires sent.RepaymentTransferred? && sent.loanId == id
    requires moved.CollateralReleased? || moved.CollateralToLiquidator?
    requires done.PartialRepaid? || done.LoanRepaid? || (done.LoanLiquidated? && done.loanId == id)
    ensures LoanCallLogged(s, t, id, sent.amount, if done.LoanLiquidated? then 1 else 0)
  {
    LogOfThree(s.ledger, a, b, t.ledger, sent, moved, done);
  }

  lemma PaymentOnly(s: LendingState, t: LendingState, id: nat, a: LedgerState, sent: Event, done: Event)
    requires Posted(s.ledger, a, sent) && Posted(a, t.ledger, done)
    requires sent.RepaymentTransferred? && sent.loanId == id
    requires done.PartialRepaid? || done.LoanRepaid?
    ensures LoanCallLogged(s, t, id, sent.amount, 0)
  {
    LogOfTwo(s.ledger, a, t.ledger, sent, done);
  }

  /** A repayment by the borrower, with or without the release of the collateral. */
  lemma RepaymentLogged(
    s: LendingState, t: LendingState, signers: Signers, id: nat, repay: int, paid: LedgerState, less: Loan,
    released: Released, e: Event)
    requires id in s.loans && Repaying(s, signers, id, repay, paid, less) && less.loanId == id
    requires Ok(released) == ReleaseAllCollateral(paid, less) || released == Released(paid, less)
    requires t.ledger == Publish(released.ledger, e) && (e.PartialRepaid? || e.LoanRepaid?)
    ensures LoanCallLogged(s, t, id, repay, 0)
  {
    var sent := RepaymentTransferred(id, less.borrower, less.lender, less.loanAsset, repay);
    RepaymentPosted(s.ledger, signers, id, less.borrower, less.lender, less.loanAsset, repay);
    PublishIsPosted(released.ledger, e);
    if released.ledger == paid {
      PaymentOnly(s, t, id, paid, sent, e);
    } else {
      var back := CollateralReleased(id, less.borrower, less.collateralAsset, less.collateralAmount);
      ReleaseCollateralPosted(paid, id, less.borrower, less.collateralAsset, less.collateralAmount);
      PaymentEvents(s, t, id, paid, released.ledger, sent, back, e);
    }
  }

  lemma PartialRepayLogged(s: LendingState, signers: Signers, id: nat, amount: i128)
    requires LoanManager.PartialRepay(s, signers, id, amount).Ok?
    requires id in s.loans ==> s.loans[id].loanId == id
    ensures var t := LoanManager.PartialRepay(s, signers, id, amount).value;
            && id in s.loans
            && LoanCallLogged(s, t, id, Min(amount, s.loans[id].outstandingDebt), 0)
            && id in t.loans
            && t.loans[id].outstandingDebt == s.loans[id].outstandingDebt - Min(amount, s.loans[id].outstandingDebt)
  {
    var t := LoanManager.PartialRepay(s, signers, id, amount).value;
    var repay, paid, less := PartialRepayShape(s, signers, id, amount);
    var released := if less.outstandingDebt == 0 then ReleaseAllCollateral(paid, less).value else Released(paid, less);
    RepaymentLogged(s, t, signers, id, repay, paid, less, released, PartialRepaid(id, repay));
  }

  lemma FullRepayLogged(s: LendingState, signers: Signers, id: nat)
    requires LoanManager.FullRepay(s, signers, id).Ok?
    requires id in s.loans ==> s.loans[id].loanId == id && s.loans[id].outstandingDebt > 0
    ensures var t := LoanManager.FullRepay(s, signers, id).value;
            && id in s.loans
            && LoanCallLogged(s, t, id, s.loans[id].outstandingDebt, 0)
            && id in t.loans && t.loans[id].outstandingDebt == 0
  {
    var t := LoanManager.FullRepay(s, signers, id).value;
    var paid, less := FullRepayShape(s, signers, id);
    var repay := s.loans[id].outstandingDebt;
    RepaymentLogged(s, t, signers, id, repay, paid, less, ReleaseAllCollateral(paid, less).value, LoanRepaid(id, repay));
  }

  lemma LiquidateLogged(s: LendingState, signers: Signers, id: nat, liquidator: Address, amount: i128)
    returns (payment: int)
    requires id in s.loans && s.loans[id].outstandingDebt > 0
    requires LoanManager.Liquidate(s, signers, id, liquidator, amount).Ok?
    ensures var t := LoanManager.Liquidate(s, signers, id, liquidator, amount).value;
            && LoanCallLogged(s, t, id, payment, 1)
            && id in t.loans && payment > 0
            && payment == s.loans[id].outstandingDebt - t.loans[id].outstandingDebt
  {
    var q, taken, less := LiquidateShape(s, signers, id, liquidator, amount);
    payment := q.repay;
    SeizureLogged(s, LoanManager.Liquidate(s, signers, id, liquidator, amount).value, signers, id, liquidator, q,
                  taken, less);
  }

  lemma SeizureLogged(
    s: LendingState, t: LendingState, signers: Signers, id: nat, liquidator: Address, q: Quote, taken: LedgerState,
    less: Loan)
    requires id in s.loans && Seized(s, signers, id, liquidator, q, taken, less)
    requires t.ledger == Publish(taken, LoanLiquidated(id, liquidator, q.repay))
    ensures LoanCallLogged(s, t, id, q.repay, 1)
  {
    var loan := s.loans[id];
    var paid := Vault.CollectRepaymentFrom(
                  s.ledger, signers, id, liquidator, loan.lender, loan.loanAsset, q.repay).value;
    var e := LoanLiquidated(id, liquidator, q.repay);
    RepaymentPosted(s.ledger, signers, id, liquidator, loan.lender, loan.loanAsset, q.repay);
    SeizurePosted(paid, id, liquidator, loan.collateralAsset, q.seized);
    PublishIsPosted(taken, e);
    PaymentEvents(s, t, id, paid, taken,
                  RepaymentTransferred(id, liquidator, loan.lender, loan.loanAsset, q.repay),
                  CollateralToLiquidator(id, liquidator, loan.collateralAsset, q.seized), e);
  }

  ghost predicate NothingPaid(s: LendingState, t: LendingState) {
    PaymentLogged(s, t, 0, 0, 0)
  }

  // From calls to accounts

  lemma PaymentCallAccounts(w: World, signers: Signers, call: Call)
    requires Inv(w) && Accounts(w) && ChangesLoan(call) && !call.ActivateLoan?
    requires ExecuteLending(w.lending, signers, call).Ok?
    ensures var t := ExecuteLending(w.lending, signers, call).value;
            Accounts(w.(lending := t)) && Explained(w.lending.ledger, t.ledger)
  {
    var s, t, id := w.lending, ExecuteLending(w.lending, signers, call).value, LoanOf(call);
    if id in s.loans {
      LoanIsOk(w, id);
    }
    LoanCallLater(s, signers, call);
    var payment, liquidations := PaymentOf(s, signers, call);
    PaymentKeepsDebtAccounts(s, t, id, payment, liquidations);
    WaitingOnlyByActivation(s, signers, call);
    PaymentKeepsOfferAccounts(w, t, id);
  }

  lemma WaitingOnlyByActivation(s: LendingState, signers: Signers, call: Call)
    requires ChangesLoan(call) && !call.ActivateLoan? && ExecuteLending(s, signers, call).Ok?
    requires LoanOf(call) in s.loans && LoanOk(s, LoanOf(call))
    requires Advanced(s, ExecuteLending(s, signers, call).value, LoanOf(call))
    ensures s.loans[LoanOf(call)].status.PendingCollateral?
       <==> ExecuteLending(s, signers, call).value.loans[LoanOf(call)].status.PendingCollateral?
  {
    if s.loans[LoanOf(call)].status.PendingCollateral? {
      OnlyRefreshOnWaiting(s, signers, call);
    }
  }

  lemma OnlyRefreshOnWaiting(s: LendingState, signers: Signers, call: Call)
    requires ChangesLoan(call) && !call.ActivateLoan? && ExecuteLending(s, signers, call).Ok?
    requires LoanOf(call) in s.loans && s.loans[LoanOf(call)].status.PendingCollateral?
    ensures call.RefreshLoanState?
    ensures ExecuteLending(s, signers, call).value.loans[LoanOf(call)] == s.loans[LoanOf(call)]
  {
  }

  lemma PaymentOf(s: LendingState, signers: Signers, call: Call) returns (payment: int, liquidations: int)
    requires ChangesLoan(call) && !call.ActivateLoan? && ExecuteLending(s, signers, call).Ok?
    requires LoanOf(call) in s.loans && LoanOk(s, LoanOf(call))
    requires Advanced(s, ExecuteLending(s, signers, call).value, LoanOf(call))
    ensures var t, id := ExecuteLending(s, signers, call).value, LoanOf(call);
            && LoanCallLogged(s, t, id, payment, liquidations)
            && payment == s.loans[id].outstandingDebt - t.loans[id].outstandingDebt
            && 0 <= liquidations <= payment
  {
    var t, id := ExecuteLending(s, signers, call).value, LoanOf(call);
    payment, liquidations := 0, 0;
    match call {
      case RefreshLoanState(_) => RefreshEvent(s, id);
      case AddCollateral(_, amount) => AddCollateralEvent(s, signers, id, amount);
      case PartialRepay(_, amount) =>
        PartialRepayLogged(s, signers, id, amount);
        payment := Min(amount, s.loans[id].outstandingDebt);
      case FullRepay(_) =>
        FullRepayTouchesMutable(s, signers, id);
        FullRepayLogged(s, signers, id);
        payment := s.loans[id].outstandingDebt;
      case MarkExpired(_) => StatusCallLogged(s, t, id, LoanExpired(id));
      case MarkDefaulted(_) => StatusCallLogged(s, t, id, LoanDefaulted(id));
      case Liquidate(_, liquidator, amount) =>
        payment := LiquidateLogged(s, signers, id, liquidator, amount);
        liquidations := 1;
    }
  }

  lemma RefreshEvent(s: LendingState, id: nat)
    requires LoanManager.RefreshLoanState(s, id).Ok?
    ensures id in s.loans
    ensures var t := LoanManager.RefreshLoanState(s, id).value;
            && LoanCallLogged(s, t, id, 0, 0)
            && id in t.loans && t.loans[id].outstandingDebt == s.loans[id].outstandingDebt
  {
    var t := LoanManager.RefreshLoanState(s, id).value;
    StatusCallLogged(s, t, id, LoanStateUpdated(id, t.loans[id].status));
  }

  lemma AddCollateralEvent(s: LendingState, signers: Signers, id: nat, amount: i128)
    requires LoanManager.AddCollateral(s, signers, id, amount).Ok?
    ensures id in s.loans
    ensures var t := LoanManager.AddCollateral(s, signers, id, amount).value;
            && LoanCallLogged(s, t, id, 0, 0)
            && id in t.loans && t.loans[id].outstandingDebt == s.loans[id].outstandingDebt
  {
    var locked, grown := AddCollateralShape(s, signers, id, amount);
    AddCollateralLogged(s, signers, id, amount);
  }

  /** The log gained one payment of principal out of an offer, and no other flow. */
  ghost predicate PrincipalLogged(s: LendingState, t: LendingState, offer: nat, principal: int) {
    && NothingPaid(s, t)
    && (forall o: nat :: LoggedFor(t, Matches, o) == LoggedFor(s, Matches, o))
    && (forall o: nat :: LoggedFor(t, Disbursals, o) == LoggedFor(s, Disbursals, o) + (if o == offer then 1 else 0))
    && (forall o: nat :: LoggedFor(t, Disbursed, o)
                         == LoggedFor(s, Disbursed, o) + (if o == offer then principal else 0))
  }

  lemma OpeningEvents(
    s: LendingState, t: LendingState, a: LedgerState, b: LedgerState, locked: Event, sent: Event, done: Event)
    requires Posted(s.ledger, a, locked) && Posted(a, b, sent) && Posted(b, t.ledger, done)
    requires locked.CollateralLocked? && sent.LoanAssetTransferred? && done.LoanActivated?
    ensures Explained(s.ledger, t.ledger) && PrincipalLogged(s, t, sent.offerId, sent.amount)
  {
    LogOfThree(s.ledger, a, b, t.ledger, locked, sent, done);
  }

  /** Opening a loan pays out its principal once, from an offer that has not paid out before. */
  lemma OpenedLogged(
    s: LendingState, t: LendingState, signers: Signers, id: nat, locked: LedgerState, paid: LedgerState, open: Loan)
    requires id in s.loans && Opened(s, signers, id, locked, paid, open)
    requires t.ledger == Publish(paid, LoanActivated(id, open.outstandingDebt))
    ensures Explained(s.ledger, t.ledger) && PrincipalLogged(s, t, open.offerId, open.principal)
  {
    LockCollateralPosted(s.ledger, signers, id, open.borrower, open.collateralAsset, open.collateralAmount);
    PrincipalPosted(locked, open.offerId, id, open.borrower, open.loanAsset, open.principal);
    PublishIsPosted(paid, LoanActivated(id, open.outstandingDebt));
    OpeningEvents(s, t, locked, paid,
                  CollateralLocked(id, open.borrower, open.collateralAsset, open.collateralAmount),
                  LoanAssetTransferred(open.offerId, id, open.borrower, open.loanAsset, open.principal),
                  LoanActivated(id, open.outstandingDebt));
  }

  lemma OpeningKeepsAccounts(w: World, t: LendingState, id: nat)
    requires Accounts(w) && OneLoanPerOffer(w) && id in w.lending.loans && LoanFromOffer(w, id)
    requires Advanced(w.lending, t, id)
    requires w.lending.loans[id].status.PendingCollateral? && !t.loans[id].status.PendingCollateral?
    requires t.loans[id].outstandingDebt == w.lending.loans[id].outstandingDebt
    requires PrincipalLogged(w.lending, t, w.lending.loans[id].offerId, w.lending.loans[id].principal)
    ensures Accounts(w.(lending := t))
  {
    var s, v := w.lending, w.(lending := t);
    PaymentKeepsDebtAccounts(s, t, id, 0, 0);
    var offer := s.loans[id].offerId;
    assert PrincipalAccount(s, id) && OfferAccount(w, offer);
    forall o: nat ensures OfferAccount(v, o) {
      assert OfferAccount(w, o);
    }
    forall l | l in t.loans ensures PrincipalAccount(t, l) {
      if l != id {
        assert PrincipalAccount(s, l);
        assert s.loans[l].offerId != s.loans[id].offerId;
      }
    }
  }

  lemma ActivateAccounts(w: World, signers: Signers, id: nat)
    requires Inv(w) && Accounts(w) && LoanManager.ActivateLoan(w.lending, signers, id).Ok?
    ensures var t := LoanManager.ActivateLoan(w.lending, signers, id).value;
            Accounts(w.(lending := t)) && Explained(w.lending.ledger, t.ledger)
  {
    var s, t := w.lending, LoanManager.ActivateLoan(w.lending, signers, id).value;
    var locked, paid, open := ActivateShape(s, signers, id);
    LoanIsOk(w, id);
    OpenedLogged(s, t, signers, id, locked, paid, open);
    ActivateLater(s, signers, id);
    OpeningKeepsAccounts(w, t, id);
  }

  /** One offer created, moved on or removed, with or without a movement of the lender's funds. */
  lemma OfferChangeAccounts(w: World, v: World, id: nat)
    requires Accounts(w)
    requires v.offers - {id} == w.offers - {id} && v.offerCount >= w.offerCount
    requires id in v.offers ==> !v.offers[id].status.Matched? && (id in w.offers ==> !w.offers[id].status.Matched?)
    requires id in v.offers && id !in w.offers ==> id > w.offerCount
    requires v.lending == w.lending.(ledger := v.lending.ledger)
    requires NothingPaid(w.lending, v.lending) && OffersNotLogged(w.lending, v.lending)
    ensures Accounts(v)
  {
    forall l: nat ensures DebtAccount(v.lending, l) {
      assert DebtAccount(w.lending, l);
    }
    forall o: nat ensures OfferAccount(v, o) {
      assert OfferAccount(w, o);
      if o != id && o in v.offers {
        assert o in v.offers - {id} && (v.offers - {id})[o] == (w.offers - {id})[o];
      }
    }
    forall l | l in v.lending.loans ensures PrincipalAccount(v.lending, l) {
      assert PrincipalAccount(w.lending, l);
    }
  }

  lemma FundsEvents(s: LendingState, t: LendingState, a: LedgerState, moved: Event, done: Event)
    requires Posted(s.ledger, a, moved) && Posted(a, t.ledger, done)
    requires moved.LenderFundsLocked? || moved.LenderFundsUnlocked?
    requires done.OfferFunded? || done.OfferCancelled? || done.OfferExpired?
    ensures Explained(s.ledger, t.ledger) && NothingPaid(s, t) && OffersNotLogged(s, t)
  {
    LogOfTwo(s.ledger, a, t.ledger, moved, done);
  }

  lemma OtherEvent(s: LendingState, t: LendingState, e: Event)
    requires Posted(s.ledger, t.ledger, e)
    requires !e.OfferMatched? && !e.LoanCreated? && !e.LoanAssetTransferred? && !e.RepaymentTransferred?
             && !e.LoanLiquidated?
    ensures Explained(s.ledger, t.ledger) && NothingPaid(s, t) && OffersNotLogged(s, t)
  {
    LogOfOne(s.ledger, t.ledger, e);
  }

  lemma FundOfferAccounts(w: World, signers: Signers, id: nat)
    requires Inv(w) && Accounts(w) && Marketplace.FundOffer(w, signers, id).Ok?
    ensures var v := Marketplace.FundOffer(w, signers, id).value;
            Accounts(v) && Explained(w.lending.ledger, v.lending.ledger)
  {
    var s, v, offer := w.lending, Marketplace.FundOffer(w, signers, id).value, w.offers[id];
    var locked := Vault.LockLenderFunds(s.ledger, signers, id, offer.lender, offer.loanAsset, offer.loanAmount).value;
    var done := OfferFunded(id, offer.loanAmount);
    LockLenderFundsPosted(s.ledger, signers, id, offer.lender, offer.loanAsset, offer.loanAmount);
    PublishIsPosted(locked, done);
    FundsEvents(s, v.lending, locked, LenderFundsLocked(id, offer.lender, offer.loanAsset, offer.loanAmount), done);
    OfferChangeAccounts(w, v, id);
  }

  lemma SettleAccounts(w: World, id: nat, unlocked: LedgerState, settled: OfferStatus, e: Event)
    requires Inv(w) && Accounts(w) && id in w.offers && NotSettled(w.offers[id].status).Pass?
    requires UnlockOfferIfNeeded(w.lending.ledger, w.offers[id]) == Ok(unlocked)
    requires settled.Cancelled? || settled.Expired?
    requires e.OfferCancelled? || e.OfferExpired?
    ensures var v := StoreOffer(w, unlocked, id, w.offers[id].(status := settled), e);
            Accounts(v) && Explained(w.lending.ledger, v.lending.ledger)
  {
    var v := StoreOffer(w, unlocked, id, w.offers[id].(status := settled), e);
    var locked, offer := OfferLocked(w.lending.ledger, id), w.offers[id];
    assert OfferOk(w, id);
    PublishIsPosted(unlocked, e);
    if locked > 0 {
      UnlockLenderFundsPosted(w.lending.ledger, id, offer.lender, offer.loanAsset, locked);
      FundsEvents(w.lending, v.lending, unlocked, LenderFundsUnlocked(id, offer.lender, offer.loanAsset, locked), e);
    } else {
      OtherEvent(w.lending, v.lending, e);
    }
    OfferChangeAccounts(w, v, id);
  }

  /** What creating, activating and cleaning up an offer have in common: one offer, and one event about it. */
  ghost predicate QuietChange(w: World, v: World, id: nat, e: Event) {
    && v.lending == w.lending.(ledger := Publish(w.lending.ledger, e))
    && v.offers - {id} == w.offers - {id} && v.offerCount >= w.offerCount
    && (id in v.offers ==> !v.offers[id].status.Matched? && (id in w.offers ==> !w.offers[id].status.Matched?))
    && (id in v.offers && id !in w.offers ==> id > w.offerCount)
    && (e.OfferCreated? || e.OfferActivated? || e.OfferCleaned?)
  }

  lemma QuietOfferShape(w: World, tx: Tx) returns (id: nat, e: Event)
    requires tx.call.CreateOffer? || tx.call.ActivateOffer? || tx.call.CleanupOffer?
    requires Execute(w, tx).Ok? && w.offerCount + 1 !in w.offers
    ensures QuietChange(w, Execute(w, tx).value, id, e)
  {
    id := if tx.call.CreateOffer? then w.offerCount + 1 else tx.call.offer;
    e := if tx.call.CreateOffer? then OfferCreated(id, tx.call.terms.lender, tx.call.terms.loanAmount)
         else if tx.call.ActivateOffer? then OfferActivated(id, w.offers[id].loanAmount)
         else OfferCleaned(id);
  }

  lemma QuietChangeAccounts(w: World, v: World, id: nat, e: Event)
    requires Accounts(w) && QuietChange(w, v, id, e)
    ensures Accounts(v) && Explained(w.lending.ledger, v.lending.ledger)
  {
    PublishIsPosted(w.lending.ledger, e);
    OtherEvent(w.lending, v.lending, e);
    OfferChangeAccounts(w, v, id);
  }

  lemma QuietOfferAccounts(w: World, tx: Tx)
    requires Inv(w) && Accounts(w) && Execute(w, tx).Ok?
    requires tx.call.CreateOffer? || tx.call.ActivateOffer? || tx.call.CleanupOffer?
    ensures var v := Execute(w, tx).value;
            Accounts(v) && Explained(w.lending.ledger, v.lending.ledger)
  {
    NextOfferIsNew(w);
    var id, e := QuietOfferShape(w, tx);
    QuietChangeAccounts(w, Execute(w, tx).value, id, e);
  }

  lemma NextOfferIsNew(w: World)
    requires Inv(w)
    ensures w.offerCount + 1 !in w.offers
  {
  }

  /** The two events of an acceptance: a loan with its debt, and the offer's match. */
  lemma AcceptEvents(s: LendingState, t: LendingState, a: LedgerState, created: Event, done: Event)
    requires Posted(s.ledger, a, created) && Posted(a, t.ledger, done)
    requires created.LoanCreated? && done.OfferMatched?
    ensures Explained(s.ledger, t.ledger)
    ensures forall l: nat :: LoggedFor(t, Owed, l)
                             == LoggedFor(s, Owed, l) + (if l == created.loanId then created.amount else 0)
    ensures forall l: nat :: LoggedFor(t, Paid, l) == LoggedFor(s, Paid, l)
    ensures forall l: nat :: LoggedFor(t, Liquidations, l) == LoggedFor(s, Liquidations, l)
    ensures forall o: nat :: LoggedFor(t, Matches, o) == LoggedFor(s, Matches, o) + (if o == done.offerId then 1 else 0)
    ensures forall o: nat :: LoggedFor(t, Disbursals, o) == LoggedFor(s, Disbursals, o)
    ensures forall o: nat :: LoggedFor(t, Disbursed, o) == LoggedFor(s, Disbursed, o)
  {
    LogOfTwo(s.ledger, a, t.ledger, created, done);
  }

  /** What an acceptance stores: a waiting loan with the next identifier, and its matched offer. */
  lemma AcceptShape(w: World, signers: Signers, id: nat, borrower: Address, collateral: i128)
    returns (newId: nat, loan: Loan)
    requires Marketplace.AcceptOffer(w, signers, id, borrower, collateral).Ok?
    ensures var v := Marketplace.AcceptOffer(w, signers, id, borrower, collateral).value;
            && newId == w.lending.loanCount + 1 == v.lending.loanCount
            && id in w.offers && w.offers[id].status.Active?
            && loan.offerId == w.offers[id].offerId && loan.status.PendingCollateral?
            && loan.borrower == borrower && borrower in signers
            && Ok(loan.outstandingDebt) == PrincipalWithInterest(loan.principal, loan.fixedAprBps, loan.durationDays)
            && v.lending.loans == w.lending.loans[newId := loan]
            && v.offers == w.offers[id := w.offers[id].(status := Matched)]
            && v.offerCount == w.offerCount
            && v.lending.ledger
               == Publish(Publish(w.lending.ledger, LoanCreated(newId, borrower, loan.outstandingDebt)),
                          Event.OfferMatched(id, borrower, newId))
  {
    newId := w.lending.loanCount + 1;
    loan := Marketplace.AcceptOffer(w, signers, id, borrower, collateral).value.lending.loans[newId];
  }

  lemma AcceptAccounts(w: World, signers: Signers, id: nat, borrower: Address, collateral: i128)
    requires Inv(w) && Accounts(w) && Marketplace.AcceptOffer(w, signers, id, borrower, collateral).Ok?
    ensures var v := Marketplace.AcceptOffer(w, signers, id, borrower, collateral).value;
            Accounts(v) && Explained(w.lending.ledger, v.lending.ledger)
  {
    var v := Marketplace.AcceptOffer(w, signers, id, borrower, collateral).value;
    var newId, loan := AcceptShape(w, signers, id, borrower, collateral);
    var created := LoanCreated(newId, borrower, loan.outstandingDebt);
    PublishIsPosted(w.lending.ledger, created);
    PublishIsPosted(Publish(w.lending.ledger, created), Event.OfferMatched(id, borrower, newId));
    AcceptEvents(w.lending, v.lending, Publish(w.lending.ledger, created), created,
                 Event.OfferMatched(id, borrower, newId));
    assert OfferOk(w, id);
    assert newId !in w.lending.loans by {
      if newId in w.lending.loans {
        LoanIsOk(w, newId);
      }
    }
    MatchKeepsAccounts(w, v, id, newId, loan);
  }

  lemma MatchKeepsAccounts(w: World, v: World, id: nat, newId: nat, loan: Loan)
    requires Accounts(w) && id in w.offers && id <= w.offerCount && w.offers[id].status.Active?
    requires newId !in w.lending.loans && newId == w.lending.loanCount + 1 == v.lending.loanCount
    requires loan.offerId == id && loan.status.PendingCollateral?
    requires Ok(loan.outstandingDebt) == PrincipalWithInterest(loan.principal, loan.fixedAprBps, loan.durationDays)
    requires v.lending.loans == w.lending.loans[newId := loan]
    requires v.offers == w.offers[id := w.offers[id].(status := Matched)] && v.offerCount == w.offerCount
    requires forall l: nat :: LoggedFor(v.lending, Owed, l)
                              == LoggedFor(w.lending, Owed, l) + (if l == newId then loan.outstandingDebt else 0)
    requires forall l: nat :: LoggedFor(v.lending, Paid, l) == LoggedFor(w.lending, Paid, l)
    requires forall l: nat :: LoggedFor(v.lending, Liquidations, l) == LoggedFor(w.lending, Liquidations, l)
    requires forall o: nat :: LoggedFor(v.lending, Matches, o)
                              == LoggedFor(w.lending, Matches, o) + (if o == id then 1 else 0)
    requires forall o: nat :: LoggedFor(v.lending, Disbursals, o) == LoggedFor(w.lending, Disbursals, o)
    requires forall o: nat :: LoggedFor(v.lending, Disbursed, o) == LoggedFor(w.lending, Disbursed, o)
    ensures Accounts(v)
  {
    forall l: nat ensures DebtAccount(v.lending, l) {
      assert DebtAccount(w.lending, l);
    }
    forall o: nat ensures OfferAccount(v, o) {
      assert OfferAccount(w, o);
    }
    forall l | l in v.lending.loans ensures PrincipalAccount(v.lending, l) {
      if l != newId {
        assert PrincipalAccount(w.lending, l);
      } else {
        assert OfferAccount(w, id);
      }
    }
  }

  lemma CleanupLoanAccounts(w: World, signers: Signers, id: nat)
    requires Inv(w) && Accounts(w) && LoanManager.CleanupLoan(w.lending, signers, id).Ok?
    ensures var t := LoanManager.CleanupLoan(w.lending, signers, id).value;
            Accounts(w.(lending := t)) && Explained(w.lending.ledger, t.ledger)
  {
    var s, t := w.lending, LoanManager.CleanupLoan(w.lending, signers, id).value;
    LoanIsOk(w, id);
    PublishIsPosted(s.ledger, LoanCleaned(id));
    OtherEvent(s, t, LoanCleaned(id));
    forall l: nat ensures DebtAccount(t, l) {
      assert DebtAccount(s, l);
    }
    forall o: nat ensures OfferAccount(w.(lending := t), o) {
      assert OfferAccount(w, o);
    }
    forall l | l in t.loans ensures PrincipalAccount(t, l) {
      assert PrincipalAccount(s, l);
    }
  }

  lemma OutsideAccounts(w: World, tx: Tx)
    requires Accounts(w) && Execute(w, tx).Ok?
    requires tx.call.SetPrice? || tx.call.Withdraw? || tx.call.TransferTokens? || tx.call.Tick?
    ensures var v := Execute(w, tx).value;
            Accounts(v) && Explained(w.lending.ledger, v.lending.ledger)
  {
    OutsideLogged(w, tx);
    SameRecordsKeepAccounts(w, Execute(w, tx).value);
  }

  lemma OutsideLogged(w: World, tx: Tx)
    requires Execute(w, tx).Ok?
    requires tx.call.SetPrice? || tx.call.Withdraw? || tx.call.TransferTokens? || tx.call.Tick?
    ensures var s, v := w.lending, Execute(w, tx).value;
            && v == w.(lending := v.lending) && v.lending.loans == s.loans && v.lending.loanCount == s.loanCount
            && Explained(s.ledger, v.lending.ledger) && NothingPaid(s, v.lending) && OffersNotLogged(s, v.lending)
  {
    var s, v := w.lending, Execute(w, tx).value;
    match tx.call {
      case SetPrice(base, quote, price, decimals) =>
        PublishIsPosted(s.ledger, PriceUpdated(base, quote, price));
        OtherEvent(s, v.lending, PriceUpdated(base, quote, price));
      case Withdraw(asset, recipient, amount) =>
        WithdrawPosted(s.ledger, tx.signers, asset, recipient, amount);
        OtherEvent(s, v.lending, Withdrawn(asset, recipient, amount));
      case TransferTokens(asset, sender, recipient, amount) =>
        OutsideTransferPosted(s.ledger, tx.signers, asset, sender, recipient, amount);
        OtherEvent(s, v.lending, TokenTransferred(asset, sender, recipient, amount));
      case Tick(_) =>
    }
  }

  lemma SameRecordsKeepAccounts(w: World, v: World)
    requires Accounts(w) && v == w.(lending := v.lending) && v.lending.loans == w.lending.loans
    requires v.lending.loanCount == w.lending.loanCount
    requires NothingPaid(w.lending, v.lending) && OffersNotLogged(w.lending, v.lending)
    ensures Accounts(v)
  {
    forall l: nat ensures DebtAccount(v.lending, l) {
      assert DebtAccount(w.lending, l);
    }
    forall o: nat ensures OfferAccount(v, o) {
      assert OfferAccount(w, o);
    }
    forall l | l in v.lending.loans ensures PrincipalAccount(v.lending, l) {
      assert PrincipalAccount(w.lending, l);
    }
  }

  lemma StepKeepsAccounts(w: World, tx: Tx)
    requires Inv(w) && Accounts(w)
    ensures Accounts(Step(w, tx)) && Explained(w.lending.ledger, Step(w, tx).lending.ledger)
  {
    if Execute(w, tx).Ok? {
      match tx.call
      case FundOffer(id) => FundOfferAccounts(w, tx.signers, id);
      case CancelOffer(id) =>
        SettleAccounts(w, id, UnlockOfferIfNeeded(w.lending.ledger, w.offers[id]).value, Cancelled,
                       OfferCancelled(id, w.offers[id].loanAmount));
      case ExpireOffer(id) =>
        SettleAccounts(w, id, UnlockOfferIfNeeded(w.lending.ledger, w.offers[id]).value, OfferStatus.Expired,
                       OfferExpired(id, w.offers[id].loanAmount));
      case AcceptOffer(id, borrower, collateral) => AcceptAccounts(w, tx.signers, id, borrower, collateral);
      case CreateOffer(_) => QuietOfferAccounts(w, tx);
      case ActivateOffer(_) => QuietOfferAccounts(w, tx);
      case CleanupOffer(_) => QuietOfferAccounts(w, tx);
      case ActivateLoan(id) => ActivateAccounts(w, tx.signers, id);
      case CleanupLoan(id) => CleanupLoanAccounts(w, tx.signers, id);
      case SetPrice(_, _, _, _) => OutsideAccounts(w, tx);
      case Withdraw(_, _, _) => OutsideAccounts(w, tx);
      case TransferTokens(_, _, _, _) => OutsideAccounts(w, tx);
      case Tick(_) => OutsideAccounts(w, tx);
      case _ => PaymentCallAccounts(w, tx.signers, tx.call);
    }
  }

  lemma {:induction false} RunKeepsAccounts(w: World, txs: seq<Tx>)
    requires Inv(w) && Accounts(w)
    ensures Accounts(Run(w, txs)) && Explained(w.lending.ledger, Run(w, txs).lending.ledger)
    decreases |txs|
  {
    if txs != [] {
      StepKeepsInvariant(w, txs[0]);
      StepKeepsAccounts(w, txs[0]);
      RunKeepsAccounts(Step(w, txs[0]), txs[1..]);
    }
  }

  lemma GenesisAccounts(w: World)
    requires Genesis(w)
    ensures Inv(w) && Accounts(w)
  {
    GenesisInvariant(w);
    forall l: nat ensures DebtAccount(w.lending, l) {
    }
    forall o: nat ensures OfferAccount(w, o) {
    }
  }

  // Statements about every run

  lemma ReachableAccounts(w: World)
    requires Reachable(w)
    ensures Inv(w) && Accounts(w)
  {
    var start, txs :| Genesis(start) && w == Run(start, txs);
    GenesisAccounts(start);
    RunKeepsInvariant(start, txs);
    RunKeepsAccounts(start, txs);
  }

  /** What was logged for a flow in one asset, from or to one party. */
  function LoggedThrough(s: LendingState, flow: Flow, id: nat, asset: Asset, party: Party): int {
    TotalThrough(s.ledger.log, flow, id, asset, party)
  }

  /**
   * Conservation of debt: what the loan's own lender received in the loan's own asset plus the
   * outstanding debt always makes up principal plus interest, and nobody else received a payment
   * for the loan. So a loan that was repaid has paid its lender exactly that.
   */
  lemma DebtIsConserved(w: World, id: nat)
    requires Reachable(w)
    ensures LoggedFor(w.lending, Owed, id) == LoggedFor(w.lending, Paid, id) + DebtOf(w.lending, id)
    ensures id in w.lending.loans ==>
              var loan := w.lending.loans[id];
              var received := LoggedThrough(w.lending, Paid, id, loan.loanAsset, To(loan.lender));
              && received == LoggedFor(w.lending, Paid, id)
              && PrincipalWithInterest(loan.principal, loan.fixedAprBps, loan.durationDays)
                 == Ok(received + loan.outstandingDebt)
              && (loan.status.Repaid? ==>
                    PrincipalWithInterest(loan.principal, loan.fixedAprBps, loan.durationDays) == Ok(received))
  {
    ReachableAccounts(w);
    assert DebtAccount(w.lending, id);
    if id in w.lending.loans {
      LoanIsOk(w, id);
      LoanPartiesForGood(w, [], id);
    }
  }

  /**
   * The same over the whole life of a loan: once it is no longer stored, its lender has received
   * principal plus interest in full, whoever paid, and whatever happened in between.
   */
  lemma {:induction false} LenderIsPaidInFull(w: World, txs: seq<Tx>, id: nat)
    requires Reachable(w) && id in w.lending.loans
    ensures var v, loan := Run(w, txs), w.lending.loans[id];
            && PrincipalWithInterest(loan.principal, loan.fixedAprBps, loan.durationDays)
               == Ok(LoggedThrough(v.lending, Paid, id, loan.loanAsset, To(loan.lender)) + DebtOf(v.lending, id))
            && (id !in v.lending.loans ==> DebtOf(v.lending, id) == 0)
  {
    DebtOverRuns(w, txs, id);
    LoanPartiesForGood(w, txs, id);
  }

  lemma {:induction false} DebtOverRuns(w: World, txs: seq<Tx>, id: nat)
    requires Reachable(w) && id in w.lending.loans
    ensures var v, loan := Run(w, txs), w.lending.loans[id];
            PrincipalWithInterest(loan.principal, loan.fixedAprBps, loan.durationDays)
            == Ok(LoggedFor(v.lending, Paid, id) + DebtOf(v.lending, id))
  {
    ReachableAccounts(w);
    RunKeepsAccounts(w, txs);
    assert DebtAccount(w.lending, id) && DebtAccount(Run(w, txs).lending, id);
    LoanIsOk(w, id);
    OwedIsFixedOverRuns(w, txs, id);
  }

  /** Liquidations of a loan end: over any run there are at most as many as units of debt paid off. */
  lemma LiquidationsAreBounded(w: World, id: nat)
    requires Reachable(w)
    ensures LoggedFor(w.lending, Liquidations, id) + DebtOf(w.lending, id) <= LoggedFor(w.lending, Owed, id)
  {
    ReachableAccounts(w);
    assert DebtAccount(w.lending, id);
  }

  /** Conservation of collateral: what was locked for a loan is still held, was seized or was returned. */
  lemma CollateralIsConserved(w: World, id: nat)
    requires Reachable(w)
    ensures LoggedFor(w.lending, CollateralIn, id)
         == LoanCollateral(w.lending.ledger, id)
            + LoggedFor(w.lending, CollateralSeized, id) + LoggedFor(w.lending, CollateralOut, id)
  {
    var start, txs :| Genesis(start) && w == Run(start, txs);
    GenesisAccounts(start);
    RunKeepsAccounts(start, txs);
    assert CollateralImbalance(start.lending.ledger, id) == 0;
    assert CollateralImbalance(w.lending.ledger, id) == 0;
  }

  /**
   * The same by party, over the whole life of a loan: all that its borrower ever locked, in its
   * collateral asset, is in escrow, was seized, or went back to that borrower; nothing is in
   * escrow once the loan is no longer stored.
   */
  lemma {:induction false} BorrowerGetsCollateralBack(w: World, txs: seq<Tx>, id: nat)
    requires Reachable(w) && id in w.lending.loans
    ensures var v, loan := Run(w, txs), w.lending.loans[id];
            && LoggedThrough(v.lending, CollateralIn, id, loan.collateralAsset, From(loan.borrower))
               == LoanCollateral(v.lending.ledger, id)
                  + LoggedThrough(v.lending, CollateralSeized, id, loan.collateralAsset, Anyone)
                  + LoggedThrough(v.lending, CollateralOut, id, loan.collateralAsset, To(loan.borrower))
            && (id !in v.lending.loans ==> LoanCollateral(v.lending.ledger, id) == 0)
  {
    var v := Run(w, txs);
    LaterIsReachable(w, txs);
    CollateralIsConserved(v, id);
    LoanPartiesForGood(w, txs, id);
    ReachableInvariant(v);
    assert LoanCollateral(v.lending.ledger, id) == ExpectedCollateral(v.lending, id);
  }

  /**
   * Conservation of principal: what was locked for an offer is still in escrow, went back,
   * or was paid out, and it is matched and paid out at most once. It came from the offer's own
   * lender and went back to that lender, in the offer's own asset.
   */
  lemma PrincipalIsConserved(w: World, id: nat)
    requires Reachable(w)
    ensures LoggedFor(w.lending, FundsIn, id)
         == OfferLocked(w.lending.ledger, id)
            + LoggedFor(w.lending, FundsOut, id) + LoggedFor(w.lending, Disbursed, id)
    ensures LoggedFor(w.lending, Disbursals, id) <= LoggedFor(w.lending, Matches, id) <= 1
    ensures id in w.offers ==>
              var offer := w.offers[id];
              LoggedThrough(w.lending, FundsIn, id, offer.loanAsset, From(offer.lender))
              == OfferLocked(w.lending.ledger, id)
                 + LoggedThrough(w.lending, FundsOut, id, offer.loanAsset, To(offer.lender))
                 + LoggedThrough(w.lending, Disbursed, id, offer.loanAsset, Anyone)
  {
    var start, txs :| Genesis(start) && w == Run(start, txs);
    GenesisAccounts(start);
    RunKeepsAccounts(start, txs);
    assert OfferAccount(w, id);
    assert OfferImbalance(start.lending.ledger, id) == 0;
    assert OfferImbalance(w.lending.ledger, id) == 0;
    if id in w.offers {
      OfferPartiesForGood(w, [], id);
    }
  }

  /** A loan's principal has gone from its offer's escrow to its borrower exactly if the loan has been opened. */
  lemma PrincipalPaidOutOnce(w: World, id: nat)
    requires Reachable(w) && id in w.lending.loans
    ensures var loan := w.lending.loans[id];
            var received := LoggedThrough(w.lending, Disbursed, loan.offerId, loan.loanAsset, To(loan.borrower));
            && LoggedFor(w.lending, Disbursals, loan.offerId) == (if loan.status.PendingCollateral? then 0 else 1)
            && received == LoggedFor(w.lending, Disbursed, loan.offerId)
            && received == (if loan.status.PendingCollateral? then 0 else loan.principal)
  {
    ReachableAccounts(w);
    assert PrincipalAccount(w.lending, id);
    LoanPartiesForGood(w, [], id);
  }

  /** The event log explains every balance: replaying it over the initial balances gives the current ones. */
  lemma {:induction false} LogExplainsBalances(start: World, txs: seq<Tx>, asset: Asset, holder: Address)
    requires Genesis(start)
    ensures var w := Run(start, txs);
            BalanceOf(w.lending.ledger.balances, asset, holder)
            == BalanceOf(start.lending.ledger.balances, asset, holder) + Gained(w.lending.ledger.log, asset, holder)
  {
    GenesisAccounts(start);
    RunKeepsAccounts(start, txs);
    var w := Run(start, txs);
    assert BalanceImbalance(w.lending.ledger, asset, holder) == BalanceImbalance(start.lending.ledger, asset, holder);
  }

  /** No run creates or destroys tokens. */
  lemma {:induction false} SupplyIsConstant(start: World, txs: seq<Tx>, asset: Asset)
    requires Genesis(start)
    ensures Supply(Run(start, txs).lending.ledger.balances, asset) == Supply(start.lending.ledger.balances, asset)
  {
    GenesisAccounts(start);
    RunKeepsAccounts(start, txs);
  }
}
