/** How offers and loans may change over time, for every run. */
module Lifecycle {
  import opened Shared
  import opened Ledger
  import opened LoanManager
  import opened Marketplace
  import opened Protocol
  import opened Invariant

  /** The stages of a loan: waiting, running, overdue, repaid. */
  function Phase(status: LoanStatus): nat {
    match status
    case PendingCollateral => 0
    case Active | Warning | LiquidationPlanning => 1
    case Expired | Defaulted => 2
    case Repaid => 3
    case Liquidated | Closed => 4
  }

  /** The stages of an offer; the last one has three forms. */
  function OfferPhase(status: OfferStatus): nat {
    match status
    case Draft => 0
    case Funding => 1
    case Active => 2
    case Matched | Cancelled | Expired => 3
  }

  ghost predicate LoanLater(a: Loan, b: Loan) {
    && b == a.(outstandingDebt := b.outstandingDebt, collateralAmount := b.collateralAmount,
               startTime := b.startTime, dueTime := b.dueTime, status := b.status)
    && b.outstandingDebt <= a.outstandingDebt
    && Phase(a.status) <= Phase(b.status)
    && (!a.status.PendingCollateral? ==> b.startTime == a.startTime && b.dueTime == a.dueTime)
    && (a.status.Repaid? ==> b == a)
  }

  ghost predicate OfferLater(a: LoanOffer, b: LoanOffer) {
    && b == a.(status := b.status)
    && OfferPhase(a.status) <= OfferPhase(b.status)
    && (OfferPhase(a.status) == 3 ==> b == a)
  }

  ghost predicate OffersEvolve(w: World, v: World) {
    forall o | o in v.offers && o <= w.offerCount :: o in w.offers && OfferLater(w.offers[o], v.offers[o])
  }

  ghost predicate LoansEvolve(w: World, v: World) {
    forall l | l in v.lending.loans && l <= w.lending.loanCount ::
      l in w.lending.loans && LoanLater(w.lending.loans[l], v.lending.loans[l])
  }

  /**
   * What one state can say about a later one. Identifiers that were given out are never given
   * out again: a record with an old identifier is a later version of the same record.
   */
  ghost predicate Evolves(w: World, v: World) {
    && w.offerCount <= v.offerCount
    && w.lending.loanCount <= v.lending.loanCount
    && w.lending.now <= v.lending.now
    && w.lending.ledger.log <= v.lending.ledger.log
    && OffersEvolve(w, v)
    && LoansEvolve(w, v)
  }

  lemma EvolvesTransitively(w: World, v: World, u: World)
    requires Evolves(w, v) && Evolves(v, u)
    ensures Evolves(w, u)
  {
    forall o | o in u.offers && o <= w.offerCount ensures o in w.offers && OfferLater(w.offers[o], u.offers[o]) {
      assert o in v.offers && OfferLater(v.offers[o], u.offers[o]);
      assert OfferLater(w.offers[o], v.offers[o]);
    }
    forall l | l in u.lending.loans && l <= w.lending.loanCount
      ensures l in w.lending.loans && LoanLater(w.lending.loans[l], u.lending.loans[l])
    {
      assert l in v.lending.loans && LoanLater(v.lending.loans[l], u.lending.loans[l]);
      assert LoanLater(w.lending.loans[l], v.lending.loans[l]);
    }
  }

  /** A refreshed status is never an earlier stage. */
  lemma RefreshedLater(s: LendingState, loan: Loan)
    requires Mutable(loan.status) && loan.outstandingDebt > 0 && ClockOk(loan, s.now) && UpdateStatus(s, loan).Ok?
    ensures var updated := UpdateStatus(s, loan).value;
            && updated == loan.(status := updated.status)
            && 1 <= Phase(loan.status) <= Phase(updated.status) <= 2
            && (loan.status.Defaulted? ==> updated.status.Defaulted?)
  {
  }

  /** One loan moved on, and nothing else but the Vault's ledger changed. */
  ghost predicate Advanced(s: LendingState, t: LendingState, id: nat) {
    && id in s.loans && id in t.loans
    && LoanLater(s.loans[id], t.loans[id])
    && t.loans == s.loans[id := t.loans[id]]
    && t == s.(ledger := t.ledger, loans := t.loans)
    && s.ledger.log <= t.ledger.log
  }

  lemma ActivateLater(s: LendingState, signers: Signers, id: nat)
    requires id in s.loans && LoanOk(s, id) && LoanManager.ActivateLoan(s, signers, id).Ok?
    ensures Advanced(s, LoanManager.ActivateLoan(s, signers, id).value, id)
  {
    var locked, paid, open := ActivateShape(s, signers, id);
  }

  lemma RefreshLater(s: LendingState, id: nat)
    requires id in s.loans && LoanOk(s, id) && LoanManager.RefreshLoanState(s, id).Ok?
    ensures Advanced(s, LoanManager.RefreshLoanState(s, id).value, id)
    ensures s.loans[id].status.Defaulted? ==> LoanManager.RefreshLoanState(s, id).value.loans[id].status.Defaulted?
  {
    if Mutable(s.loans[id].status) {
      RefreshedLater(s, s.loans[id]);
    }
  }

  lemma AddCollateralLater(s: LendingState, signers: Signers, id: nat, amount: i128)
    requires id in s.loans && LoanOk(s, id) && LoanManager.AddCollateral(s, signers, id, amount).Ok?
    ensures Advanced(s, LoanManager.AddCollateral(s, signers, id, amount).value, id)
    ensures s.loans[id].status.Defaulted? ==>
              LoanManager.AddCollateral(s, signers, id, amount).value.loans[id].status.Defaulted?
  {
    var locked, grown := AddCollateralShape(s, signers, id, amount);
    RefreshedLater(s, grown);
  }

  lemma PartialRepayLater(s: LendingState, signers: Signers, id: nat, amount: i128)
    requires id in s.loans && LoanOk(s, id) && LoanManager.PartialRepay(s, signers, id, amount).Ok?
    ensures Advanced(s, LoanManager.PartialRepay(s, signers, id, amount).value, id)
    ensures s.loans[id].status.Defaulted? ==>
              !LoanManager.PartialRepay(s, signers, id, amount).value.loans[id].status.Expired?
  {
    var repay, paid, less := PartialRepayShape(s, signers, id, amount);
    if less.outstandingDebt != 0 {
      RefreshedLater(s, less);
    }
  }

  lemma FullRepayLater(s: LendingState, signers: Signers, id: nat)
    requires id in s.loans && LoanOk(s, id) && LoanManager.FullRepay(s, signers, id).Ok?
    ensures Advanced(s, LoanManager.FullRepay(s, signers, id).value, id)
    ensures LoanManager.FullRepay(s, signers, id).value.loans[id].status.Repaid?
  {
    var paid, less := FullRepayShape(s, signers, id);
  }

  lemma MarkLater(s: LendingState, id: nat)
    requires id in s.loans && LoanOk(s, id)
    ensures LoanManager.MarkExpired(s, id).Ok? ==> Advanced(s, LoanManager.MarkExpired(s, id).value, id)
    ensures LoanManager.MarkDefaulted(s, id).Ok? ==> Advanced(s, LoanManager.MarkDefaulted(s, id).value, id)
    ensures s.loans[id].status.Defaulted? ==> LoanManager.MarkExpired(s, id).Ok?
  {
  }

  lemma LiquidateLater(s: LendingState, signers: Signers, id: nat, liquidator: Address, amount: i128)
    requires id in s.loans && LoanOk(s, id) && LoanManager.Liquidate(s, signers, id, liquidator, amount).Ok?
    ensures Advanced(s, LoanManager.Liquidate(s, signers, id, liquidator, amount).value, id)
    ensures s.loans[id].status.Defaulted? ==>
              LoanManager.Liquidate(s, signers, id, liquidator, amount).value.loans[id].status.Defaulted?
  {
    var q, taken, less := LiquidateShape(s, signers, id, liquidator, amount);
    RefreshedLater(s, less);
  }

  /** Every Loan Manager call moves its loan on, and only it. */
  lemma LoanCallLater(s: LendingState, signers: Signers, call: Call)
    requires ChangesLoan(call) && ExecuteLending(s, signers, call).Ok?
    requires LoanOf(call) in s.loans ==> LoanOk(s, LoanOf(call))
    ensures Advanced(s, ExecuteLending(s, signers, call).value, LoanOf(call))
  {
    match call {
      case ActivateLoan(id) => ActivateLater(s, signers, id);
      case RefreshLoanState(id) => RefreshLater(s, id);
      case AddCollateral(id, amount) => AddCollateralLater(s, signers, id, amount);
      case PartialRepay(id, amount) => PartialRepayLater(s, signers, id, amount);
      case FullRepay(id) => FullRepayLater(s, signers, id);
      case MarkExpired(id) => MarkLater(s, id);
      case MarkDefaulted(id) => MarkLater(s, id);
      case Liquidate(id, liquidator, amount) => LiquidateLater(s, signers, id, liquidator, amount);
    }
  }

  /** Of all these calls only mark_expired makes a defaulted loan expired. */
  lemma DefaultedLater(s: LendingState, signers: Signers, call: Call)
    requires ChangesLoan(call) && !call.MarkExpired? && ExecuteLending(s, signers, call).Ok?
    requires LoanOf(call) in s.loans && LoanOk(s, LoanOf(call)) && s.loans[LoanOf(call)].status.Defaulted?
    ensures var t := ExecuteLending(s, signers, call).value;
            LoanOf(call) in t.loans && !t.loans[LoanOf(call)].status.Expired?
  {
    match call {
      case ActivateLoan(id) => ActivateLater(s, signers, id);
      case RefreshLoanState(id) => RefreshLater(s, id);
      case AddCollateral(id, amount) => AddCollateralLater(s, signers, id, amount);
      case PartialRepay(id, amount) => PartialRepayLater(s, signers, id, amount);
      case FullRepay(id) => FullRepayLater(s, signers, id);
      case MarkDefaulted(id) => MarkLater(s, id);
      case Liquidate(id, liquidator, amount) => LiquidateLater(s, signers, id, liquidator, amount);
    }
  }

  lemma LendingChangeEvolves(w: World, t: LendingState, id: nat)
    requires Inv(w) && Advanced(w.lending, t, id)
    ensures Evolves(w, w.(lending := t))
  {
  }

  /** One offer created, moved on or removed, and no loan changed. */
  lemma OfferChangeEvolves(w: World, v: World, id: nat)
    requires v.offers - {id} == w.offers - {id} && v.offerCount >= w.offerCount
    requires id in v.offers && id <= w.offerCount ==> id in w.offers && OfferLater(w.offers[id], v.offers[id])
    requires v.lending == w.lending.(ledger := v.lending.ledger)
    requires w.lending.ledger.log <= v.lending.ledger.log
    ensures Evolves(w, v)
  {
    forall o | o in v.offers && o <= w.offerCount ensures o in w.offers && OfferLater(w.offers[o], v.offers[o]) {
      if o != id {
        assert o in v.offers - {id} && (v.offers - {id})[o] == (w.offers - {id})[o];
      }
    }
    forall l | l in v.lending.loans ensures LoanLater(w.lending.loans[l], v.lending.loans[l]) {
    }
  }

  lemma CancelEvolves(w: World, tx: Tx)
    requires (tx.call.CancelOffer? || tx.call.ExpireOffer?) && Execute(w, tx).Ok?
    requires Inv(w)
    ensures Evolves(w, Execute(w, tx).value)
  {
    OfferChangeEvolves(w, Execute(w, tx).value, tx.call.offer);
  }

  lemma OfferCallEvolves(w: World, tx: Tx)
    requires Execute(w, tx).Ok?
    requires tx.call.CreateOffer? || tx.call.FundOffer? || tx.call.ActivateOffer? || tx.call.CleanupOffer?
    ensures Evolves(w, Execute(w, tx).value)
  {
    OfferChangeEvolves(w, Execute(w, tx).value, if tx.call.CreateOffer? then w.offerCount + 1 else tx.call.offer);
  }

  lemma AcceptEvolves(w: World, signers: Signers, id: nat, borrower: Address, collateral: i128)
    requires Inv(w) && Marketplace.AcceptOffer(w, signers, id, borrower, collateral).Ok?
    ensures Evolves(w, Marketplace.AcceptOffer(w, signers, id, borrower, collateral).value)
  {
  }

  lemma CleanupLoanEvolves(w: World, tx: Tx)
    requires Inv(w) && tx.call.CleanupLoan? && Execute(w, tx).Ok?
    ensures Evolves(w, Execute(w, tx).value)
  {
  }

  lemma OutsideCallEvolves(w: World, tx: Tx)
    requires Inv(w) && Execute(w, tx).Ok?
    requires tx.call.SetPrice? || tx.call.Withdraw? || tx.call.TransferTokens? || tx.call.Tick?
    ensures Evolves(w, Execute(w, tx).value)
  {
    NothingEvolves(w, Execute(w, tx).value);
  }

  lemma NothingEvolves(w: World, v: World)
    requires v == w.(lending := v.lending) && v.lending.loans == w.lending.loans
    requires v.lending.loanCount == w.lending.loanCount && v.lending.now >= w.lending.now
    requires w.lending.ledger.log <= v.lending.ledger.log
    ensures Evolves(w, v)
  {
    assert forall l | l in w.lending.loans :: LoanLater(w.lending.loans[l], w.lending.loans[l]);
    assert forall o | o in w.offers :: OfferLater(w.offers[o], w.offers[o]);
  }

  /** The loan that a Loan Manager call is about. */
  function LoanOf(call: Call): nat {
    match call
    case ActivateLoan(id) => id
    case RefreshLoanState(id) => id
    case AddCollateral(id, _) => id
    case PartialRepay(id, _) => id
    case FullRepay(id) => id
    case MarkExpired(id) => id
    case MarkDefaulted(id) => id
    case Liquidate(id, _, _) => id
    case CleanupLoan(id) => id
    case _ => 0
  }

  predicate ChangesLoan(call: Call) {
    || call.ActivateLoan? || call.RefreshLoanState? || call.AddCollateral? || call.PartialRepay?
    || call.FullRepay? || call.MarkExpired? || call.MarkDefaulted? || call.Liquidate?
  }

  lemma StepEvolves(w: World, tx: Tx)
    requires Inv(w)
    ensures Evolves(w, Step(w, tx))
  {
    if !Execute(w, tx).Ok? {
      NothingEvolves(w, w);
    } else if ChangesLoan(tx.call) {
      if LoanOf(tx.call) in w.lending.loans {
        LoanIsOk(w, LoanOf(tx.call));
      }
      LoanCallLater(w.lending, tx.signers, tx.call);
      LendingChangeEvolves(w, Execute(w, tx).value.lending, LoanOf(tx.call));
    } else {
      match tx.call
      case AcceptOffer(id, borrower, collateral) => AcceptEvolves(w, tx.signers, id, borrower, collateral);
      case CancelOffer(_) => CancelEvolves(w, tx);
      case ExpireOffer(_) => CancelEvolves(w, tx);
      case CleanupLoan(_) => CleanupLoanEvolves(w, tx);
      case CreateOffer(_) => OfferCallEvolves(w, tx);
      case FundOffer(_) => OfferCallEvolves(w, tx);
      case ActivateOffer(_) => OfferCallEvolves(w, tx);
      case CleanupOffer(_) => OfferCallEvolves(w, tx);
      case _ => OutsideCallEvolves(w, tx);
    }
  }

  lemma {:induction false} RunEvolves(w: World, txs: seq<Tx>)
    requires Inv(w)
    ensures Inv(Run(w, txs)) && Evolves(w, Run(w, txs))
    decreases |txs|
  {
    if txs == [] {
      NothingEvolves(w, w);
    } else {
      StepKeepsInvariant(w, txs[0]);
      StepEvolves(w, txs[0]);
      RunEvolves(Step(w, txs[0]), txs[1..]);
      EvolvesTransitively(w, Step(w, txs[0]), Run(w, txs));
    }
  }

  // Statements about every run

  /** Time-based statuses are never early, terms run from activation, and Repaid is the only closed status. */
  lemma StatusesAreTimely(w: World, id: nat)
    requires Reachable(w) && id in w.lending.loans
    ensures var loan := w.lending.loans[id];
            var now := w.lending.now;
            && (loan.status.Expired? ==> now > loan.dueTime)
            && (loan.status.Defaulted? ==> now > loan.dueTime + loan.gracePeriodDays * SECONDS_PER_DAY)
            && (!loan.status.PendingCollateral? ==>
                  loan.dueTime == loan.startTime + loan.durationDays * SECONDS_PER_DAY && loan.startTime <= now)
            && !loan.status.Liquidated? && !loan.status.Closed?
  {
    ReachableInvariant(w);
    LoanIsOk(w, id);
  }

  /**
   * A loan's stage never moves back, and its debt never grows. Overdue loans stay overdue until
   * they are repaid, a repaid loan never changes again, and no loan returns to waiting.
   */
  lemma {:induction false} LoansOnlyAdvance(w: World, txs: seq<Tx>, id: nat)
    requires Reachable(w) && id in w.lending.loans && id in Run(w, txs).lending.loans
    ensures var before, after := w.lending.loans[id], Run(w, txs).lending.loans[id];
            && after.outstandingDebt <= before.outstandingDebt
            && (!before.status.PendingCollateral? ==> !after.status.PendingCollateral?)
            && (before.status.Expired? || before.status.Defaulted? ==>
                  after.status.Expired? || after.status.Defaulted? || after.status.Repaid?)
            && (before.status.Repaid? ==> after == before)
            && after.principal == before.principal && after.lender == before.lender
            && after.borrower == before.borrower && after.offerId == before.offerId
  {
    ReachableInvariant(w);
    RunEvolves(w, txs);
    LoanIsOk(w, id);
    LoanIsOk(Run(w, txs), id);
  }

  /**
   * The one way back: a step turns a Defaulted loan into an Expired one if and only if it is
   * mark_expired on that loan, and that call always succeeds.
   */
  lemma DefaultedBecomesExpired(w: World, tx: Tx, id: nat)
    requires Reachable(w) && id in w.lending.loans && w.lending.loans[id].status.Defaulted?
    ensures id in Step(w, tx).lending.loans
    ensures Step(w, tx).lending.loans[id].status.Expired? <==> tx.call == MarkExpired(id)
  {
    ReachableInvariant(w);
    LoanIsOk(w, id);
    if tx.call == MarkExpired(id) {
      DefaultedIsMarkable(w.lending, id);
    } else if Execute(w, tx).Ok? {
      DefaultedStaysInStep(w, tx, id);
    }
  }

  lemma DefaultedStaysInStep(w: World, tx: Tx, id: nat)
    requires Inv(w) && id in w.lending.loans && w.lending.loans[id].status.Defaulted?
    requires tx.call != MarkExpired(id) && Execute(w, tx).Ok?
    ensures id in Execute(w, tx).value.lending.loans
    ensures !Execute(w, tx).value.lending.loans[id].status.Expired?
  {
    LoanIsOk(w, id);
    if ChangesLoan(tx.call) {
      if LoanOf(tx.call) in w.lending.loans {
        LoanIsOk(w, LoanOf(tx.call));
      }
      DefaultedStays(w.lending, tx.signers, tx.call, id);
    } else {
      OtherCallsKeepLoan(w, tx, id);
    }
  }

  lemma DefaultedStays(s: LendingState, signers: Signers, call: Call, id: nat)
    requires ChangesLoan(call) && call != MarkExpired(id) && ExecuteLending(s, signers, call).Ok?
    requires LoanOf(call) in s.loans ==> LoanOk(s, LoanOf(call))
    requires id in s.loans && s.loans[id].status.Defaulted?
    ensures id in ExecuteLending(s, signers, call).value.loans
    ensures !ExecuteLending(s, signers, call).value.loans[id].status.Expired?
  {
    LoanCallLater(s, signers, call);
    if LoanOf(call) == id {
      DefaultedLater(s, signers, call);
    }
  }

  lemma DefaultedIsMarkable(s: LendingState, id: nat)
    requires id in s.loans && LoanOk(s, id) && s.loans[id].status.Defaulted?
    ensures LoanManager.MarkExpired(s, id).Ok?
    ensures var t := LoanManager.MarkExpired(s, id).value;
            id in t.loans && t.loans[id].status.Expired?
  {
  }

  lemma LoansUntouched(w: World, tx: Tx)
    requires !ChangesLoan(tx.call) && Execute(w, tx).Ok?
    ensures var v := Execute(w, tx).value;
            match tx.call
            case AcceptOffer(_, _, _) =>
              w.lending.loanCount + 1 in v.lending.loans
              && v.lending.loans == w.lending.loans[w.lending.loanCount + 1 := v.lending.loans[w.lending.loanCount + 1]]
            case CleanupLoan(id) =>
              id in w.lending.loans && v.lending.loans == w.lending.loans - {id}
              && !Mutable(w.lending.loans[id].status) && !w.lending.loans[id].status.PendingCollateral?
            case _ => v.lending.loans == w.lending.loans
  {
  }

  lemma OtherCallsKeepLoan(w: World, tx: Tx, id: nat)
    requires id in w.lending.loans && id <= w.lending.loanCount && Mutable(w.lending.loans[id].status)
    requires !ChangesLoan(tx.call) && Execute(w, tx).Ok?
    ensures id in Execute(w, tx).value.lending.loans
    ensures Execute(w, tx).value.lending.loans[id] == w.lending.loans[id]
  {
    LoansUntouched(w, tx);
  }

  /** Identifiers are never reused: what has been cleaned up never comes back. */
  lemma {:induction false} IdentifiersNeverReused(w: World, txs: seq<Tx>, id: nat)
    requires Reachable(w)
    ensures id <= w.offerCount && id !in w.offers ==> id !in Run(w, txs).offers
    ensures id <= w.lending.loanCount && id !in w.lending.loans ==> id !in Run(w, txs).lending.loans
  {
    ReachableInvariant(w);
    RunEvolves(w, txs);
  }

  /** A settled offer (matched, cancelled or expired) stays as it is, so it is settled in one way only. */
  lemma {:induction false} SettledOffersStay(w: World, txs: seq<Tx>, id: nat)
    requires Reachable(w) && id in w.offers && OfferPhase(w.offers[id].status) == 3
    ensures id in Run(w, txs).offers ==> Run(w, txs).offers[id] == w.offers[id]
  {
    ReachableInvariant(w);
    RunEvolves(w, txs);
    assert OfferOk(w, id);
  }

  /** No offer is ever accepted twice: at most one loan comes from it, whatever happens in between. */
  lemma {:induction false} AcceptedOnlyOnce(w: World, tx: Tx, txs: seq<Tx>, again: Tx)
    requires Reachable(w) && tx.call.AcceptOffer? && Execute(w, tx).Ok?
    requires again.call.AcceptOffer? && again.call.offer == tx.call.offer
    ensures Execute(Run(Step(w, tx), txs), again).Err?
  {
    ReachableInvariant(w);
    StepKeepsInvariant(w, tx);
    AcceptingMatches(w, tx);
    MatchedForGood(Step(w, tx), txs, tx.call.offer);
    OnlyActiveIsAccepted(Run(Step(w, tx), txs), again);
  }

  lemma AcceptingMatches(w: World, tx: Tx)
    requires tx.call.AcceptOffer? && Execute(w, tx).Ok?
    ensures tx.call.offer in Step(w, tx).offers && Step(w, tx).offers[tx.call.offer].status.Matched?
  {
  }

  lemma {:induction false} MatchedForGood(w: World, txs: seq<Tx>, id: nat)
    requires Inv(w) && id in w.offers && w.offers[id].status.Matched?
    ensures id in Run(w, txs).offers ==> Run(w, txs).offers[id].status.Matched?
  {
    RunEvolves(w, txs);
    assert OfferOk(w, id);
    if id in Run(w, txs).offers {
      assert OfferLater(w.offers[id], Run(w, txs).offers[id]);
    }
  }

  lemma OnlyActiveIsAccepted(w: World, tx: Tx)
    requires tx.call.AcceptOffer? && (tx.call.offer in w.offers ==> !w.offers[tx.call.offer].status.Active?)
    ensures Execute(w, tx).Err?
  {
  }

  /** No loan is ever activated twice, so its principal leaves escrow at most once. */
  lemma {:induction false} ActivatedOnlyOnce(w: World, tx: Tx, txs: seq<Tx>, again: Tx)
    requires Reachable(w) && tx.call.ActivateLoan? && Execute(w, tx).Ok?
    requires again.call == tx.call
    ensures Execute(Run(Step(w, tx), txs), again).Err?
  {
    ReachableInvariant(w);
    var v, id := Step(w, tx), tx.call.loan;
    StepKeepsInvariant(w, tx);
    ActivationLeavesWaiting(w.lending, tx.signers, id);
    LoanIsOk(v, id);
    RunEvolves(v, txs);
    var u := Run(v, txs);
    if id in u.lending.loans {
      assert LoanLater(v.lending.loans[id], u.lending.loans[id]);
    }
    OnlyWaitingLoansActivate(u.lending, again.signers, id);
  }

  lemma ActivationLeavesWaiting(s: LendingState, signers: Signers, id: nat)
    requires LoanManager.ActivateLoan(s, signers, id).Ok?
    ensures var t := LoanManager.ActivateLoan(s, signers, id).value;
            id in t.loans && t.loans[id].status.Active?
  {
    var locked, paid, open := ActivateShape(s, signers, id);
  }

  lemma OnlyWaitingLoansActivate(s: LendingState, signers: Signers, id: nat)
    requires id in s.loans ==> !s.loans[id].status.PendingCollateral?
    ensures LoanManager.ActivateLoan(s, signers, id).Err?
  {
  }

  /** A loan always opens as Active, with its collateral in escrow and its principal paid out. */
  lemma ActivationOpensActive(w: World, tx: Tx)
    requires Reachable(w) && tx.call.ActivateLoan? && Execute(w, tx).Ok?
    ensures var v, id := Execute(w, tx).value, tx.call.loan;
            && id in v.lending.loans
            && v.lending.loans[id].status.Active?
            && LoanCollateral(v.lending.ledger, id) == v.lending.loans[id].collateralAmount > 0
            && OfferLocked(v.lending.ledger, v.lending.loans[id].offerId) == 0
  {
    ReachableInvariant(w);
    var v, id := Execute(w, tx).value, tx.call.loan;
    StepKeepsInvariant(w, tx);
    LoanIsOk(w, id);
    EscrowOf(w, id);
    var locked, paid, open := ActivateShape(w.lending, tx.signers, id);
    EscrowOf(v, id);
  }
}
