/** Who pays and who is paid: published payments name the parties and assets of the records they are about. */
module Parties {
  import opened Shared
  import opened Ledger
  import opened LoanManager
  import opened Marketplace
  import opened Protocol
  import opened Invariant
  import opened Lifecycle
  import Vault

  // Totals by party

  datatype Party = From(who: Address) | To(who: Address) | Anyone

  /** The event reports a movement of the asset, from or to the party. */
  predicate Through(e: Event, asset: Asset, party: Party) {
    var m := MovementOf(e);
    && m.Move? && m.asset == asset
    && (party.From? ==> m.sender == party.who)
    && (party.To? ==> m.recipient == party.who)
  }

  /** The part of a flow that moved in one asset, from or to one party. */
  function TotalThrough(log: seq<Event>, flow: Flow, id: nat, asset: Asset, party: Party): int {
    if log == [] then 0
    else
      var last := log[|log| - 1];
      TotalThrough(log[..|log| - 1], flow, id, asset, party)
      + (if Through(last, asset, party) then Amount(last, flow, id) else 0)
  }

  /** A flow whose events all name one party in one asset is a flow of that party in that asset. */
  lemma {:induction false} WholeFlow(log: seq<Event>, flow: Flow, id: nat, asset: Asset, party: Party)
    requires forall i | 0 <= i < |log| :: Amount(log[i], flow, id) != 0 ==> Through(log[i], asset, party)
    ensures TotalThrough(log, flow, id, asset, party) == Total(log, flow, id)
    decreases |log|
  {
    if log != [] {
      WholeFlow(log[..|log| - 1], flow, id, asset, party);
    }
  }

  // What an event has to say about a record

  /** If the event pays for this loan, it does so between the loan's parties and in its assets. */
  predicate NamesLoan(e: Event, id: nat, loan: Loan) {
    match e
    case LoanAssetTransferred(o, l, borrower, asset, amount) =>
      l == id || o == loan.offerId ==>
        l == id && o == loan.offerId && borrower == loan.borrower && asset == loan.loanAsset && amount == loan.principal
    case RepaymentTransferred(l, _, lender, asset, _) => l == id ==> lender == loan.lender && asset == loan.loanAsset
    case CollateralLocked(l, borrower, asset, _) =>
      l == id ==> borrower == loan.borrower && asset == loan.collateralAsset
    case CollateralReleased(l, borrower, asset, _) =>
      l == id ==> borrower == loan.borrower && asset == loan.collateralAsset
    case CollateralToLiquidator(l, _, asset, _) => l == id ==> asset == loan.collateralAsset
    case _ => true
  }

  predicate NamesOffer(e: Event, id: nat, offer: LoanOffer) {
    match e
    case LenderFundsLocked(o, lender, asset, _) => o == id ==> lender == offer.lender && asset == offer.loanAsset
    case LenderFundsUnlocked(o, lender, asset, _) => o == id ==> lender == offer.lender && asset == offer.loanAsset
    case LoanAssetTransferred(o, _, _, asset, _) => o == id ==> asset == offer.loanAsset
    case _ => true
  }

  predicate HasLoan(w: World, id: nat, e: Event) {
    id in w.lending.loans && NamesLoan(e, id, w.lending.loans[id])
  }

  predicate HasOffer(w: World, id: nat, e: Event) {
    id in w.offers && NamesOffer(e, id, w.offers[id])
  }

  /** An event as a transaction may publish it that ends in `v` and began with `count` loans created. */
  predicate Proper(v: World, count: nat, e: Event) {
    match e
    case LenderFundsLocked(o, _, _, _) => HasOffer(v, o, e)
    case LenderFundsUnlocked(o, _, _, _) => HasOffer(v, o, e)
    case LoanAssetTransferred(o, l, _, _, _) => HasLoan(v, l, e) && HasOffer(v, o, e) && v.offers[o].status.Matched?
    case RepaymentTransferred(l, _, _, _, _) => HasLoan(v, l, e)
    case CollateralLocked(l, _, _, _) => HasLoan(v, l, e)
    case CollateralReleased(l, _, _, _) => HasLoan(v, l, e)
    case CollateralToLiquidator(l, _, _, _) => HasLoan(v, l, e)
    case LoanCreated(l, _, _) => l > count
    case _ => true
  }

  /** A seizure directly follows a payment towards the same loan by the one who seizes. */
  predicate Paired(e: Event, seizure: Event) {
    seizure.CollateralToLiquidator? ==>
      e.RepaymentTransferred? && e.loanId == seizure.loanId && e.payer == seizure.liquidator
  }

  predicate PaidFor(log: seq<Event>, i: nat)
    requires i < |log|
  {
    log[i].CollateralToLiquidator? ==> i > 0 && Paired(log[i - 1], log[i])
  }

  predicate GoodEvent(v: World, count: nat, log: seq<Event>, i: nat)
    requires i < |log|
  {
    Proper(v, count, log[i]) && PaidFor(log, i)
  }

  /** The log only grew, and what is new is as it should be. */
  ghost predicate News(w: World, v: World) {
    var before, log := w.lending.ledger.log, v.lending.ledger.log;
    && before <= log
    && forall i | |before| <= i < |log| :: GoodEvent(v, w.lending.loanCount, log, i)
  }

  predicate ProperIn(w: World, v: World, e: Event) {
    Proper(v, w.lending.loanCount, e)
  }

  lemma OneEvent(w: World, v: World, e: Event)
    requires v.lending.ledger.log == w.lending.ledger.log + [e]
    requires ProperIn(w, v, e) && !e.CollateralToLiquidator?
    ensures News(w, v)
  {
  }

  lemma TwoEvents(w: World, a: LedgerState, v: World, e: Event, f: Event)
    requires a.log == w.lending.ledger.log + [e] && v.lending.ledger.log == a.log + [f]
    requires ProperIn(w, v, e) && ProperIn(w, v, f)
    requires !e.CollateralToLiquidator? && Paired(e, f)
    ensures News(w, v)
  {
  }

  lemma ThreeEvents(w: World, a: LedgerState, b: LedgerState, v: World, e: Event, f: Event, g: Event)
    requires a.log == w.lending.ledger.log + [e] && b.log == a.log + [f] && v.lending.ledger.log == b.log + [g]
    requires ProperIn(w, v, e) && ProperIn(w, v, f) && ProperIn(w, v, g)
    requires !e.CollateralToLiquidator? && Paired(e, f) && Paired(f, g)
    ensures News(w, v)
  {
  }

  // Loan Manager calls

  lemma ActivateNews(w: World, signers: Signers, id: nat, t: LendingState)
    requires Inv(w) && LoanManager.ActivateLoan(w.lending, signers, id) == Ok(t) && Advanced(w.lending, t, id)
    ensures News(w, w.(lending := t))
  {
    var locked, paid, open := ActivateShape(w.lending, signers, id);
    assert LoanFromOffer(w, id);
    ThreeEvents(w, locked, paid, w.(lending := t),
                CollateralLocked(id, open.borrower, open.collateralAsset, open.collateralAmount),
                LoanAssetTransferred(open.offerId, id, open.borrower, open.loanAsset, open.principal),
                LoanActivated(id, open.outstandingDebt));
  }

  lemma AddCollateralNews(w: World, signers: Signers, id: nat, amount: i128, t: LendingState)
    requires LoanManager.AddCollateral(w.lending, signers, id, amount) == Ok(t) && Advanced(w.lending, t, id)
    ensures News(w, w.(lending := t))
  {
    var locked, grown := AddCollateralShape(w.lending, signers, id, amount);
    TwoEvents(w, locked, w.(lending := t),
              CollateralLocked(id, grown.borrower, grown.collateralAsset, amount), CollateralAdded(id, amount));
  }

  lemma RepayingNews(
    w: World, signers: Signers, id: nat, repay: int, paid: LedgerState, less: Loan, released: Released, t: LendingState,
    e: Event)
    requires id in w.lending.loans && Repaying(w.lending, signers, id, repay, paid, less) && less.loanId == id
    requires Advanced(w.lending, t, id)
    requires Ok(released) == ReleaseAllCollateral(paid, less) || released == Released(paid, less)
    requires t.ledger == Publish(released.ledger, e) && (e.PartialRepaid? || e.LoanRepaid?)
    ensures News(w, w.(lending := t))
  {
    var sent := RepaymentTransferred(id, less.borrower, less.lender, less.loanAsset, repay);
    if released.ledger == paid {
      TwoEvents(w, paid, w.(lending := t), sent, e);
    } else {
      ThreeEvents(w, paid, released.ledger, w.(lending := t), sent,
                  CollateralReleased(id, less.borrower, less.collateralAsset, less.collateralAmount), e);
    }
  }

  lemma PartialRepayNews(w: World, signers: Signers, id: nat, amount: i128, t: LendingState)
    requires Inv(w) && LoanManager.PartialRepay(w.lending, signers, id, amount) == Ok(t) && Advanced(w.lending, t, id)
    ensures News(w, w.(lending := t))
  {
    LoanIsOk(w, id);
    var repay, paid, less := PartialRepayShape(w.lending, signers, id, amount);
    var released := if less.outstandingDebt == 0 then ReleaseAllCollateral(paid, less).value else Released(paid, less);
    RepayingNews(w, signers, id, repay, paid, less, released, t, PartialRepaid(id, repay));
  }

  lemma FullRepayNews(w: World, signers: Signers, id: nat, t: LendingState)
    requires Inv(w) && LoanManager.FullRepay(w.lending, signers, id) == Ok(t) && Advanced(w.lending, t, id)
    ensures News(w, w.(lending := t))
  {
    LoanIsOk(w, id);
    FullRepayTouchesMutable(w.lending, signers, id);
    var paid, less := FullRepayShape(w.lending, signers, id);
    var repay := w.lending.loans[id].outstandingDebt;
    RepayingNews(w, signers, id, repay, paid, less, ReleaseAllCollateral(paid, less).value, t, LoanRepaid(id, repay));
  }

  lemma LiquidateNews(w: World, signers: Signers, id: nat, liquidator: Address, amount: i128, t: LendingState)
    requires Inv(w) && LoanManager.Liquidate(w.lending, signers, id, liquidator, amount) == Ok(t)
    requires Advanced(w.lending, t, id)
    ensures News(w, w.(lending := t))
  {
    LoanIsOk(w, id);
    LiquidateTouchesMutable(w.lending, signers, id, liquidator, amount);
    var q, taken, less := LiquidateShape(w.lending, signers, id, liquidator, amount);
    SeizureNews(w, signers, id, liquidator, q, taken, less, t);
  }

  lemma SeizureNews(
    w: World, signers: Signers, id: nat, liquidator: Address, q: Quote, taken: LedgerState, less: Loan, t: LendingState)
    requires id in w.lending.loans && Seized(w.lending, signers, id, liquidator, q, taken, less)
    requires Advanced(w.lending, t, id) && t.ledger == Publish(taken, LoanLiquidated(id, liquidator, q.repay))
    ensures News(w, w.(lending := t))
  {
    var loan := w.lending.loans[id];
    var paid := Vault.CollectRepaymentFrom(
                  w.lending.ledger, signers, id, liquidator, loan.lender, loan.loanAsset, q.repay).value;
    ThreeEvents(w, paid, taken, w.(lending := t),
                RepaymentTransferred(id, liquidator, loan.lender, loan.loanAsset, q.repay),
                CollateralToLiquidator(id, liquidator, loan.collateralAsset, q.seized),
                LoanLiquidated(id, liquidator, q.repay));
  }

  lemma StatusNews(w: World, signers: Signers, call: Call, t: LendingState)
    requires call.RefreshLoanState? || call.MarkExpired? || call.MarkDefaulted?
    requires ExecuteLending(w.lending, signers, call) == Ok(t)
    ensures News(w, w.(lending := t))
  {
    OneEvent(w, w.(lending := t), t.ledger.log[|t.ledger.log| - 1]);
  }

  lemma LoanCallNews(w: World, signers: Signers, call: Call, t: LendingState)
    requires Inv(w) && ChangesLoan(call) && ExecuteLending(w.lending, signers, call) == Ok(t)
    requires Advanced(w.lending, t, LoanOf(call))
    ensures News(w, w.(lending := t))
  {
    match call {
      case ActivateLoan(id) => ActivateNews(w, signers, id, t);
      case AddCollateral(id, amount) => AddCollateralNews(w, signers, id, amount, t);
      case PartialRepay(id, amount) => PartialRepayNews(w, signers, id, amount, t);
      case FullRepay(id) => FullRepayNews(w, signers, id, t);
      case Liquidate(id, liquidator, amount) => LiquidateNews(w, signers, id, liquidator, amount, t);
      case _ => StatusNews(w, signers, call, t);
    }
  }

  // Other calls

  lemma FundNews(w: World, tx: Tx)
    requires tx.call.FundOffer? && Execute(w, tx).Ok?
    ensures News(w, Execute(w, tx).value)
  {
    var id := tx.call.offer;
    var offer := w.offers[id];
    var locked := Vault.LockLenderFunds(
                    w.lending.ledger, tx.signers, id, offer.lender, offer.loanAsset, offer.loanAmount).value;
    TwoEvents(w, locked, Execute(w, tx).value, LenderFundsLocked(id, offer.lender, offer.loanAsset, offer.loanAmount),
              OfferFunded(id, offer.loanAmount));
  }

  lemma SettleNews(w: World, id: nat, unlocked: LedgerState, settled: OfferStatus, e: Event)
    requires id in w.offers && w.offers[id].offerId == id
    requires UnlockOfferIfNeeded(w.lending.ledger, w.offers[id]) == Ok(unlocked)
    requires e.OfferCancelled? || e.OfferExpired?
    ensures News(w, StoreOffer(w, unlocked, id, w.offers[id].(status := settled), e))
  {
    var v, offer := StoreOffer(w, unlocked, id, w.offers[id].(status := settled), e), w.offers[id];
    var locked := OfferLocked(w.lending.ledger, id);
    if locked > 0 {
      TwoEvents(w, unlocked, v, LenderFundsUnlocked(id, offer.lender, offer.loanAsset, locked), e);
    } else {
      OneEvent(w, v, e);
    }
  }

  lemma AcceptNews(w: World, tx: Tx)
    requires tx.call.AcceptOffer? && Execute(w, tx).Ok?
    ensures News(w, Execute(w, tx).value)
  {
    var s, id := w.lending, tx.call.offer;
    var created := CreatePendingLoanFromOffer(s, w.offers[id], tx.call.borrower, tx.call.collateral).value;
    TwoEvents(w, created.state.ledger, Execute(w, tx).value,
              LoanCreated(created.loanId, tx.call.borrower, created.state.loans[created.loanId].outstandingDebt),
              Event.OfferMatched(id, tx.call.borrower, created.loanId));
  }

  predicate Quiet(call: Call) {
    || call.CreateOffer? || call.ActivateOffer? || call.CleanupOffer? || call.CleanupLoan? || call.SetPrice?
    || call.Withdraw? || call.TransferTokens?
  }

  lemma QuietNews(w: World, tx: Tx)
    requires Quiet(tx.call) && Execute(w, tx).Ok?
    ensures News(w, Execute(w, tx).value)
  {
    var v := Execute(w, tx).value;
    var log := v.lending.ledger.log;
    OneEvent(w, v, log[|log| - 1]);
  }

  lemma OfferCallNews(w: World, tx: Tx)
    requires Inv(w) && !ChangesLoan(tx.call) && !Quiet(tx.call) && Execute(w, tx).Ok?
    ensures News(w, Execute(w, tx).value)
  {
    match tx.call
    case FundOffer(_) => FundNews(w, tx);
    case AcceptOffer(_, _, _) => AcceptNews(w, tx);
    case CancelOffer(id) =>
      assert OfferOk(w, id);
      SettleNews(w, id, UnlockOfferIfNeeded(w.lending.ledger, w.offers[id]).value, Cancelled,
                 OfferCancelled(id, w.offers[id].loanAmount));
    case ExpireOffer(id) =>
      assert OfferOk(w, id);
      SettleNews(w, id, UnlockOfferIfNeeded(w.lending.ledger, w.offers[id]).value, OfferStatus.Expired,
                 OfferExpired(id, w.offers[id].loanAmount));
    case Tick(_) =>
  }

  lemma StepNews(w: World, tx: Tx)
    requires Inv(w)
    ensures News(w, Step(w, tx))
  {
    if Execute(w, tx).Ok? {
      if ChangesLoan(tx.call) {
        if LoanOf(tx.call) in w.lending.loans {
          LoanIsOk(w, LoanOf(tx.call));
        }
        LoanCallLater(w.lending, tx.signers, tx.call);
        LoanCallNews(w, tx.signers, tx.call, Execute(w, tx).value.lending);
      } else if Quiet(tx.call) {
        QuietNews(w, tx);
      } else {
        OfferCallNews(w, tx);
      }
    }
  }

  // Records and what the log says about them

  predicate SameTerms(a: Loan, b: Loan) {
    && a.offerId == b.offerId && a.lender == b.lender && a.borrower == b.borrower
    && a.loanAsset == b.loanAsset && a.collateralAsset == b.collateralAsset && a.principal == b.principal
    && a.fixedAprBps == b.fixedAprBps && a.durationDays == b.durationDays
  }

  /** `loan` is or was stored under `id`, and its offer cannot be matched again. */
  ghost predicate KnownLoan(w: World, id: nat, loan: Loan) {
    && id <= w.lending.loanCount && loan.offerId <= w.offerCount
    && (id in w.lending.loans ==> SameTerms(w.lending.loans[id], loan))
    && (loan.offerId in w.offers ==> w.offers[loan.offerId].status.Matched?)
    && (forall k | k in w.lending.loans && w.lending.loans[k].offerId == loan.offerId :: k == id)
  }

  ghost predicate KnownOffer(w: World, id: nat, offer: LoanOffer) {
    && id <= w.offerCount
    && (id in w.offers ==> w.offers[id].lender == offer.lender && w.offers[id].loanAsset == offer.loanAsset)
  }

  ghost predicate LoanNamed(log: seq<Event>, id: nat, loan: Loan) {
    forall i | 0 <= i < |log| :: NamesLoan(log[i], id, loan)
  }

  ghost predicate OfferNamed(log: seq<Event>, id: nat, offer: LoanOffer) {
    forall i | 0 <= i < |log| :: NamesOffer(log[i], id, offer)
  }

  /** The identifiers in an event were given out before, and an offer that paid out is no longer open. */
  predicate Dated(w: World, e: Event) {
    match e
    case LenderFundsLocked(o, _, _, _) => o <= w.offerCount
    case LenderFundsUnlocked(o, _, _, _) => o <= w.offerCount
    case LoanAssetTransferred(o, l, _, _, _) =>
      l <= w.lending.loanCount && o <= w.offerCount && (o in w.offers ==> w.offers[o].status.Matched?)
    case RepaymentTransferred(l, _, _, _, _) => l <= w.lending.loanCount
    case CollateralLocked(l, _, _, _) => l <= w.lending.loanCount
    case CollateralReleased(l, _, _, _) => l <= w.lending.loanCount
    case CollateralToLiquidator(l, _, _, _) => l <= w.lending.loanCount
    case _ => true
  }

  ghost predicate AllDated(w: World) {
    forall i | 0 <= i < |w.lending.ledger.log| :: Dated(w, w.lending.ledger.log[i])
  }

  ghost predicate AllPaidFor(log: seq<Event>) {
    forall i | 0 <= i < |log| :: PaidFor(log, i)
  }

  /** What holds of the log in every reachable state. */
  ghost predicate Told(w: World) {
    && AllDated(w) && AllPaidFor(w.lending.ledger.log)
    && (forall l | l in w.lending.loans :: LoanNamed(w.lending.ledger.log, l, w.lending.loans[l]))
    && (forall o | o in w.offers :: OfferNamed(w.lending.ledger.log, o, w.offers[o]))
  }

  /** New loans come from offers that were active, and have new identifiers. */
  ghost predicate NewLoansAreNew(w: World, v: World) {
    forall k | k in v.lending.loans && k !in w.lending.loans ::
      && k > w.lending.loanCount
      && v.lending.loans[k].offerId in w.offers && w.offers[v.lending.loans[k].offerId].status.Active?
  }

  lemma AcceptMakesNewLoan(w: World, tx: Tx)
    requires tx.call.AcceptOffer? && Execute(w, tx).Ok?
    requires tx.call.offer in w.offers ==> w.offers[tx.call.offer].offerId == tx.call.offer
    ensures NewLoansAreNew(w, Execute(w, tx).value)
  {
  }

  lemma StepMakesNewLoans(w: World, tx: Tx)
    requires Inv(w)
    ensures NewLoansAreNew(w, Step(w, tx))
  {
    if Execute(w, tx).Ok? {
      if ChangesLoan(tx.call) {
        if LoanOf(tx.call) in w.lending.loans {
          LoanIsOk(w, LoanOf(tx.call));
        }
        LoanCallLater(w.lending, tx.signers, tx.call);
      } else if tx.call.AcceptOffer? {
        if tx.call.offer in w.offers {
          assert OfferOk(w, tx.call.offer);
        }
        AcceptMakesNewLoan(w, tx);
      } else {
        LoansUntouched(w, tx);
      }
    }
  }

  /** One step of the protocol, as far as records and events are concerned. */
  ghost predicate Advances(w: World, v: World) {
    Inv(w) && Inv(v) && Evolves(w, v) && News(w, v) && NewLoansAreNew(w, v)
  }

  lemma StepAdvances(w: World, tx: Tx)
    requires Inv(w)
    ensures Advances(w, Step(w, tx))
  {
    StepKeepsInvariant(w, tx);
    StepEvolves(w, tx);
    StepNews(w, tx);
    StepMakesNewLoans(w, tx);
  }

  lemma StoredLoanIsKnown(w: World, id: nat)
    requires Inv(w) && id in w.lending.loans
    ensures KnownLoan(w, id, w.lending.loans[id])
  {
    LoanIsOk(w, id);
    assert LoanFromOffer(w, id);
  }

  lemma LoanStaysKnown(w: World, v: World, id: nat, loan: Loan)
    requires Advances(w, v) && KnownLoan(w, id, loan)
    ensures KnownLoan(v, id, loan)
  {
    if id in v.lending.loans {
      assert LoanLater(w.lending.loans[id], v.lending.loans[id]);
    }
    if loan.offerId in v.offers {
      assert OfferLater(w.offers[loan.offerId], v.offers[loan.offerId]);
    }
    forall k | k in v.lending.loans && v.lending.loans[k].offerId == loan.offerId ensures k == id {
      if k in w.lending.loans {
        LoanIsOk(w, k);
        assert LoanLater(w.lending.loans[k], v.lending.loans[k]);
      }
    }
  }

  lemma OfferStaysKnown(w: World, v: World, id: nat, offer: LoanOffer)
    requires Evolves(w, v) && KnownOffer(w, id, offer)
    ensures KnownOffer(v, id, offer)
  {
    if id in v.offers {
      assert OfferLater(w.offers[id], v.offers[id]);
    }
  }

  /** A new event names the parties of a known loan, even if that is no longer stored. */
  lemma NewsNamesLoan(w: World, v: World, id: nat, loan: Loan)
    requires News(w, v) && KnownLoan(v, id, loan) && LoanNamed(w.lending.ledger.log, id, loan)
    ensures LoanNamed(v.lending.ledger.log, id, loan)
  {
    var before, log := w.lending.ledger.log, v.lending.ledger.log;
    forall i | 0 <= i < |log| ensures NamesLoan(log[i], id, loan) {
      if i < |before| {
        assert log[i] == before[i];
      } else {
        assert GoodEvent(v, w.lending.loanCount, log, i);
      }
    }
  }

  lemma NewsNamesOffer(w: World, v: World, id: nat, offer: LoanOffer)
    requires News(w, v) && KnownOffer(v, id, offer) && OfferNamed(w.lending.ledger.log, id, offer)
    ensures OfferNamed(v.lending.ledger.log, id, offer)
  {
    var before, log := w.lending.ledger.log, v.lending.ledger.log;
    forall i | 0 <= i < |log| ensures NamesOffer(log[i], id, offer) {
      if i < |before| {
        assert log[i] == before[i];
      } else {
        assert GoodEvent(v, w.lending.loanCount, log, i);
      }
    }
  }

  lemma StaysDated(w: World, v: World, e: Event)
    requires Evolves(w, v) && Dated(w, e)
    ensures Dated(v, e)
  {
    if e.LoanAssetTransferred? && e.offerId in v.offers {
      assert OfferLater(w.offers[e.offerId], v.offers[e.offerId]);
    }
  }

  lemma ProperIsDated(v: World, count: nat, e: Event)
    requires Inv(v) && Proper(v, count, e)
    ensures Dated(v, e)
  {
    if (e.RepaymentTransferred? || e.CollateralLocked? || e.CollateralReleased? || e.CollateralToLiquidator?
        || e.LoanAssetTransferred?) {
      LoanIsOk(v, e.loanId);
    }
    if e.LenderFundsLocked? || e.LenderFundsUnlocked? || e.LoanAssetTransferred? {
      assert OfferOk(v, e.offerId);
    }
  }

  lemma NewsKeepsDates(w: World, v: World)
    requires Advances(w, v) && AllDated(w) && AllPaidFor(w.lending.ledger.log)
    ensures AllDated(v) && AllPaidFor(v.lending.ledger.log)
  {
    var before, log := w.lending.ledger.log, v.lending.ledger.log;
    forall i | 0 <= i < |log| ensures Dated(v, log[i]) && PaidFor(log, i) {
      if i < |before| {
        assert log[i] == before[i] && PaidFor(before, i);
        StaysDated(w, v, log[i]);
      } else {
        assert GoodEvent(v, w.lending.loanCount, log, i);
        ProperIsDated(v, w.lending.loanCount, log[i]);
      }
    }
  }

  /** Nothing was said before about a loan that did not exist. */
  lemma NewLoanIsUnnamed(w: World, id: nat, loan: Loan)
    requires AllDated(w) && id > w.lending.loanCount
    requires loan.offerId in w.offers && !w.offers[loan.offerId].status.Matched?
    ensures LoanNamed(w.lending.ledger.log, id, loan)
  {
    var log := w.lending.ledger.log;
    forall i | 0 <= i < |log| ensures NamesLoan(log[i], id, loan) {
      assert Dated(w, log[i]);
    }
  }

  lemma NewOfferIsUnnamed(w: World, id: nat, offer: LoanOffer)
    requires AllDated(w) && id > w.offerCount
    ensures OfferNamed(w.lending.ledger.log, id, offer)
  {
    var log := w.lending.ledger.log;
    forall i | 0 <= i < |log| ensures NamesOffer(log[i], id, offer) {
      assert Dated(w, log[i]);
    }
  }

  lemma SameTermsSameNames(log: seq<Event>, id: nat, a: Loan, b: Loan)
    requires LoanNamed(log, id, a) && SameTerms(a, b)
    ensures LoanNamed(log, id, b)
  {
    forall i | 0 <= i < |log| ensures NamesLoan(log[i], id, b) {
      assert NamesLoan(log[i], id, a);
    }
  }

  lemma LoanIsNamed(w: World, v: World, id: nat)
    requires Advances(w, v) && Told(w) && id in v.lending.loans
    ensures LoanNamed(v.lending.ledger.log, id, v.lending.loans[id])
  {
    var loan := v.lending.loans[id];
    StoredLoanIsKnown(v, id);
    if id in w.lending.loans {
      LoanIsOk(w, id);
      assert LoanLater(w.lending.loans[id], loan);
      SameTermsSameNames(w.lending.ledger.log, id, w.lending.loans[id], loan);
    } else {
      NewLoanIsUnnamed(w, id, loan);
    }
    NewsNamesLoan(w, v, id, loan);
  }

  lemma OfferIsNamed(w: World, v: World, id: nat)
    requires Advances(w, v) && Told(w) && id in v.offers
    ensures OfferNamed(v.lending.ledger.log, id, v.offers[id])
  {
    var offer, log := v.offers[id], w.lending.ledger.log;
    assert OfferOk(v, id);
    if id <= w.offerCount {
      assert OfferLater(w.offers[id], offer);
      assert OfferNamed(log, id, w.offers[id]);
      forall i | 0 <= i < |log| ensures NamesOffer(log[i], id, offer) {
        assert NamesOffer(log[i], id, w.offers[id]);
      }
    } else {
      NewOfferIsUnnamed(w, id, offer);
    }
    NewsNamesOffer(w, v, id, offer);
  }

  lemma StepKeepsTold(w: World, tx: Tx)
    requires Inv(w) && Told(w)
    ensures Told(Step(w, tx))
  {
    var v := Step(w, tx);
    StepAdvances(w, tx);
    NewsKeepsDates(w, v);
    forall l | l in v.lending.loans ensures LoanNamed(v.lending.ledger.log, l, v.lending.loans[l]) {
      LoanIsNamed(w, v, l);
    }
    forall o | o in v.offers ensures OfferNamed(v.lending.ledger.log, o, v.offers[o]) {
      OfferIsNamed(w, v, o);
    }
  }

  lemma {:induction false} RunKeepsTold(w: World, txs: seq<Tx>)
    requires Inv(w) && Told(w)
    ensures Told(Run(w, txs))
    decreases |txs|
  {
    if txs != [] {
      StepKeepsInvariant(w, txs[0]);
      StepKeepsTold(w, txs[0]);
      RunKeepsTold(Step(w, txs[0]), txs[1..]);
    }
  }

  lemma ReachableTold(w: World)
    requires Reachable(w)
    ensures Inv(w) && Told(w)
  {
    var start, txs :| Genesis(start) && w == Run(start, txs);
    GenesisInvariant(start);
    RunKeepsInvariant(start, txs);
    RunKeepsTold(start, txs);
  }

  // Statements about every run

  /** A step creates no second loan under an identifier that is taken. */
  lemma OwedIsFixed(w: World, v: World, id: nat)
    requires News(w, v) && id <= w.lending.loanCount
    ensures Total(v.lending.ledger.log, Owed, id) == Total(w.lending.ledger.log, Owed, id)
  {
    var before, log := w.lending.ledger.log, v.lending.ledger.log;
    forall i | |before| <= i < |log| ensures Amount(log[i], Owed, id) == 0 {
      assert GoodEvent(v, w.lending.loanCount, log, i);
    }
    NothingAdded(log, |before|, Owed, id);
    assert log[..|before|] == before;
  }

  lemma {:induction false} NothingAdded(log: seq<Event>, n: nat, flow: Flow, id: nat)
    requires n <= |log| && forall i | n <= i < |log| :: Amount(log[i], flow, id) == 0
    ensures Total(log, flow, id) == Total(log[..n], flow, id)
    decreases |log|
  {
    if n < |log| {
      var less := log[..|log| - 1];
      assert less[..n] == log[..n];
      NothingAdded(less, n, flow, id);
    } else {
      assert log[..n] == log;
    }
  }

  lemma {:induction false} OwedIsFixedOverRuns(w: World, txs: seq<Tx>, id: nat)
    requires Inv(w) && id <= w.lending.loanCount
    ensures Total(Run(w, txs).lending.ledger.log, Owed, id) == Total(w.lending.ledger.log, Owed, id)
    decreases |txs|
  {
    if txs != [] {
      StepAdvances(w, txs[0]);
      OwedIsFixed(w, Step(w, txs[0]), id);
      OwedIsFixedOverRuns(Step(w, txs[0]), txs[1..], id);
    }
  }

  lemma {:induction false} KnownLoanOverRuns(w: World, txs: seq<Tx>, id: nat, loan: Loan)
    requires Inv(w) && KnownLoan(w, id, loan) && LoanNamed(w.lending.ledger.log, id, loan)
    ensures var v := Run(w, txs);
            Inv(v) && KnownLoan(v, id, loan) && LoanNamed(v.lending.ledger.log, id, loan)
    decreases |txs|
  {
    if txs != [] {
      var next := Step(w, txs[0]);
      StepAdvances(w, txs[0]);
      LoanStaysKnown(w, next, id, loan);
      NewsNamesLoan(w, next, id, loan);
      KnownLoanOverRuns(next, txs[1..], id, loan);
    }
  }

  lemma {:induction false} KnownOfferOverRuns(w: World, txs: seq<Tx>, id: nat, offer: LoanOffer)
    requires Inv(w) && KnownOffer(w, id, offer) && OfferNamed(w.lending.ledger.log, id, offer)
    ensures OfferNamed(Run(w, txs).lending.ledger.log, id, offer)
    decreases |txs|
  {
    if txs != [] {
      var next := Step(w, txs[0]);
      StepAdvances(w, txs[0]);
      OfferStaysKnown(w, next, id, offer);
      NewsNamesOffer(w, next, id, offer);
      KnownOfferOverRuns(next, txs[1..], id, offer);
    }
  }

  /** Everything logged for a loan moved between its own parties and in its own assets. */
  predicate LoanFlows(log: seq<Event>, id: nat, loan: Loan) {
    && TotalThrough(log, Paid, id, loan.loanAsset, To(loan.lender)) == Total(log, Paid, id)
    && TotalThrough(log, Disbursed, loan.offerId, loan.loanAsset, To(loan.borrower)) == Total(log, Disbursed, loan.offerId)
    && TotalThrough(log, CollateralIn, id, loan.collateralAsset, From(loan.borrower)) == Total(log, CollateralIn, id)
    && TotalThrough(log, CollateralOut, id, loan.collateralAsset, To(loan.borrower)) == Total(log, CollateralOut, id)
    && TotalThrough(log, CollateralSeized, id, loan.collateralAsset, Anyone) == Total(log, CollateralSeized, id)
  }

  predicate OfferFlows(log: seq<Event>, id: nat, offer: LoanOffer) {
    && TotalThrough(log, FundsIn, id, offer.loanAsset, From(offer.lender)) == Total(log, FundsIn, id)
    && TotalThrough(log, FundsOut, id, offer.loanAsset, To(offer.lender)) == Total(log, FundsOut, id)
    && TotalThrough(log, Disbursed, id, offer.loanAsset, Anyone) == Total(log, Disbursed, id)
  }

  /**
   * Whatever was and will be paid for a loan goes between its own parties and in its own assets,
   * even after the loan is cleaned up: repayments to its lender, principal to its borrower,
   * collateral from and back to its borrower.
   */
  lemma {:induction false} LoanPartiesForGood(w: World, txs: seq<Tx>, id: nat)
    requires Reachable(w) && id in w.lending.loans
    ensures LoanFlows(Run(w, txs).lending.ledger.log, id, w.lending.loans[id])
  {
    ReachableTold(w);
    var log, loan := Run(w, txs).lending.ledger.log, w.lending.loans[id];
    StoredLoanIsKnown(w, id);
    KnownLoanOverRuns(w, txs, id, loan);
    NamedLoanFlows(log, id, loan);
  }

  /** Every flow of a loan, in one event that names its parties. */
  lemma NamedLoanEvent(e: Event, id: nat, loan: Loan)
    requires NamesLoan(e, id, loan)
    ensures Amount(e, Paid, id) != 0 ==> Through(e, loan.loanAsset, To(loan.lender))
    ensures Amount(e, Disbursed, loan.offerId) != 0 ==> Through(e, loan.loanAsset, To(loan.borrower))
    ensures Amount(e, CollateralIn, id) != 0 ==> Through(e, loan.collateralAsset, From(loan.borrower))
    ensures Amount(e, CollateralOut, id) != 0 ==> Through(e, loan.collateralAsset, To(loan.borrower))
    ensures Amount(e, CollateralSeized, id) != 0 ==> Through(e, loan.collateralAsset, Anyone)
  {
  }

  lemma NamedLoanFlows(log: seq<Event>, id: nat, loan: Loan)
    requires LoanNamed(log, id, loan)
    ensures LoanFlows(log, id, loan)
  {
    NamedPayments(log, id, loan);
    NamedCollateral(log, id, loan);
  }

  lemma NamedPayments(log: seq<Event>, id: nat, loan: Loan)
    requires LoanNamed(log, id, loan)
    ensures TotalThrough(log, Paid, id, loan.loanAsset, To(loan.lender)) == Total(log, Paid, id)
    ensures TotalThrough(log, Disbursed, loan.offerId, loan.loanAsset, To(loan.borrower))
         == Total(log, Disbursed, loan.offerId)
  {
    forall i | 0 <= i < |log|
      ensures Amount(log[i], Paid, id) != 0 ==> Through(log[i], loan.loanAsset, To(loan.lender))
      ensures Amount(log[i], Disbursed, loan.offerId) != 0 ==> Through(log[i], loan.loanAsset, To(loan.borrower))
    {
      NamedLoanEvent(log[i], id, loan);
    }
    WholeFlow(log, Paid, id, loan.loanAsset, To(loan.lender));
    WholeFlow(log, Disbursed, loan.offerId, loan.loanAsset, To(loan.borrower));
  }

  lemma NamedCollateral(log: seq<Event>, id: nat, loan: Loan)
    requires LoanNamed(log, id, loan)
    ensures TotalThrough(log, CollateralIn, id, loan.collateralAsset, From(loan.borrower)) == Total(log, CollateralIn, id)
    ensures TotalThrough(log, CollateralOut, id, loan.collateralAsset, To(loan.borrower)) == Total(log, CollateralOut, id)
    ensures TotalThrough(log, CollateralSeized, id, loan.collateralAsset, Anyone) == Total(log, CollateralSeized, id)
  {
    forall i | 0 <= i < |log|
      ensures Amount(log[i], CollateralIn, id) != 0 ==> Through(log[i], loan.collateralAsset, From(loan.borrower))
      ensures Amount(log[i], CollateralOut, id) != 0 ==> Through(log[i], loan.collateralAsset, To(loan.borrower))
      ensures Amount(log[i], CollateralSeized, id) != 0 ==> Through(log[i], loan.collateralAsset, Anyone)
    {
      NamedLoanEvent(log[i], id, loan);
    }
    WholeFlow(log, CollateralIn, id, loan.collateralAsset, From(loan.borrower));
    WholeFlow(log, CollateralOut, id, loan.collateralAsset, To(loan.borrower));
    WholeFlow(log, CollateralSeized, id, loan.collateralAsset, Anyone);
  }

  /** The same for an offer: what was locked came from its lender, what was returned went to its lender. */
  lemma {:induction false} OfferPartiesForGood(w: World, txs: seq<Tx>, id: nat)
    requires Reachable(w) && id in w.offers
    ensures OfferFlows(Run(w, txs).lending.ledger.log, id, w.offers[id])
  {
    ReachableTold(w);
    assert OfferOk(w, id);
    KnownOfferOverRuns(w, txs, id, w.offers[id]);
    NamedOfferFlows(Run(w, txs).lending.ledger.log, id, w.offers[id]);
  }

  lemma NamedOfferFlows(log: seq<Event>, id: nat, offer: LoanOffer)
    requires OfferNamed(log, id, offer)
    ensures OfferFlows(log, id, offer)
  {
    forall i | 0 <= i < |log|
      ensures Amount(log[i], FundsIn, id) != 0 ==> Through(log[i], offer.loanAsset, From(offer.lender))
      ensures Amount(log[i], FundsOut, id) != 0 ==> Through(log[i], offer.loanAsset, To(offer.lender))
      ensures Amount(log[i], Disbursed, id) != 0 ==> Through(log[i], offer.loanAsset, Anyone)
    {
      assert NamesOffer(log[i], id, offer);
    }
    WholeFlow(log, FundsIn, id, offer.loanAsset, From(offer.lender));
    WholeFlow(log, FundsOut, id, offer.loanAsset, To(offer.lender));
    WholeFlow(log, Disbursed, id, offer.loanAsset, Anyone);
  }

  /** Collateral is seized only by someone who has just paid the lender of that very loan. */
  lemma SeizuresArePaidFor(w: World, i: nat)
    requires Reachable(w) && i < |w.lending.ledger.log| && w.lending.ledger.log[i].CollateralToLiquidator?
    ensures i > 0
    ensures var paid, seized := w.lending.ledger.log[i - 1], w.lending.ledger.log[i];
            && paid.RepaymentTransferred? && paid.loanId == seized.loanId && paid.payer == seized.liquidator
            && (seized.loanId in w.lending.loans ==>
                  var loan := w.lending.loans[seized.loanId];
                  paid.lender == loan.lender && paid.asset == loan.loanAsset && seized.asset == loan.collateralAsset)
  {
    ReachableTold(w);
    var log, id := w.lending.ledger.log, w.lending.ledger.log[i].loanId;
    assert PaidFor(log, i);
    if id in w.lending.loans {
      assert LoanNamed(log, id, w.lending.loans[id]);
      assert NamesLoan(log[i - 1], id, w.lending.loans[id]) && NamesLoan(log[i], id, w.lending.loans[id]);
    }
  }
}
