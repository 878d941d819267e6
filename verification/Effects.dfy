/**
 * What each transaction leaves behind, told from the state before it: the records it changes, and
 * the events it publishes. Balances and escrow then follow from the events (`MoneyFollowsEvents`).
 */
module Effects {
  import opened Shared
  import opened Token
  import opened Ledger
  import opened Oracle
  import opened RiskMath
  import opened PricedLoans
  import opened LoanManager
  import opened Marketplace
  import opened Protocol
  import opened Invariant
  import opened Lifecycle
  import opened Conservation
  import opened Custody
  import opened EntryConditions
  import Liquidation
  import Vault

  // Money

  lemma {:induction false} TotalAppend(log: seq<Event>, more: seq<Event>, flow: Flow, id: nat)
    ensures Total(log + more, flow, id) == Total(log, flow, id) + Total(more, flow, id)
    decreases |more|
  {
    if more == [] {
      assert log + more == log;
    } else {
      assert (log + more)[..|log + more| - 1] == log + more[..|more| - 1];
      TotalAppend(log, more[..|more| - 1], flow, id);
    }
  }

  lemma {:induction false} GainedAppend(log: seq<Event>, more: seq<Event>, asset: Asset, holder: Address)
    ensures Gained(log + more, asset, holder) == Gained(log, asset, holder) + Gained(more, asset, holder)
    decreases |more|
  {
    if more == [] {
      assert log + more == log;
    } else {
      assert (log + more)[..|log + more| - 1] == log + more[..|more| - 1];
      GainedAppend(log, more[..|more| - 1], asset, holder);
    }
  }

  ghost predicate Publishes(w: World, v: World, events: seq<Event>) {
    v.lending.ledger.log == w.lending.ledger.log + events
  }

  /** Balances and escrow totals change by exactly what these events say. */
  ghost predicate MoneyMoves(s: LedgerState, t: LedgerState, events: seq<Event>) {
    && (forall a, h :: BalanceOf(t.balances, a, h) == BalanceOf(s.balances, a, h) + Gained(events, a, h))
    && (forall o :: OfferLocked(t, o)
          == OfferLocked(s, o) + Total(events, FundsIn, o) - Total(events, FundsOut, o) - Total(events, Disbursed, o))
    && (forall l :: LoanCollateral(t, l)
          == LoanCollateral(s, l) + Total(events, CollateralIn, l)
             - Total(events, CollateralSeized, l) - Total(events, CollateralOut, l))
  }

  /** In every step, balances and escrow change by what the step publishes, and by nothing else. */
  lemma MoneyFollowsEvents(w: World, tx: Tx, events: seq<Event>)
    requires Reachable(w) && Publishes(w, Step(w, tx), events)
    ensures MoneyMoves(w.lending.ledger, Step(w, tx).lending.ledger, events)
  {
    ReachableAccounts(w);
    StepKeepsAccounts(w, tx);
    ExplainedMoves(w.lending.ledger, Step(w, tx).lending.ledger, events);
  }

  lemma ExplainedMoves(s: LedgerState, t: LedgerState, events: seq<Event>)
    requires Explained(s, t) && t.log == s.log + events
    ensures MoneyMoves(s, t, events)
  {
    forall a, h ensures BalanceOf(t.balances, a, h) == BalanceOf(s.balances, a, h) + Gained(events, a, h) {
      GainedAppend(s.log, events, a, h);
      assert BalanceImbalance(t, a, h) == BalanceImbalance(s, a, h);
    }
    forall o ensures OfferLocked(t, o)
        == OfferLocked(s, o) + Total(events, FundsIn, o) - Total(events, FundsOut, o) - Total(events, Disbursed, o) {
      TotalAppend(s.log, events, FundsIn, o);
      TotalAppend(s.log, events, FundsOut, o);
      TotalAppend(s.log, events, Disbursed, o);
      assert OfferImbalance(t, o) == OfferImbalance(s, o);
    }
    forall l ensures LoanCollateral(t, l)
        == LoanCollateral(s, l) + Total(events, CollateralIn, l)
           - Total(events, CollateralSeized, l) - Total(events, CollateralOut, l) {
      TotalAppend(s.log, events, CollateralIn, l);
      TotalAppend(s.log, events, CollateralSeized, l);
      TotalAppend(s.log, events, CollateralOut, l);
      assert CollateralImbalance(t, l) == CollateralImbalance(s, l);
    }
  }

  // Frames

  /** One offer has a new status; all else but the ledger is the same. */
  ghost predicate OfferBecomes(w: World, v: World, id: nat, status: OfferStatus) {
    && id in w.offers
    && v == w.(offers := w.offers[id := w.offers[id].(status := status)],
               lending := w.lending.(ledger := v.lending.ledger))
  }

  /** One loan is now this one; all else but the ledger is the same. */
  ghost predicate LoanBecomes(w: World, v: World, id: nat, after: Loan) {
    && id in w.lending.loans
    && v == w.(lending := w.lending.(loans := w.lending.loans[id := after], ledger := v.lending.ledger))
  }

  /** All else but the ledger is the same. */
  ghost predicate SameRecords(w: World, v: World) {
    v == w.(lending := w.lending.(ledger := v.lending.ledger))
  }

  /** The Vault's entries and all balances are the same. */
  ghost predicate NoMoney(w: World, v: World) {
    v.lending.ledger == w.lending.ledger.(log := v.lending.ledger.log)
  }

  // Prices

  /** The pair has exactly this price, as of now, and nothing else changed. */
  ghost predicate PriceSet(w: World, v: World, base: Asset, quote: Asset, price: int, decimals: nat) {
    && v == w.(lending := w.lending.(prices := v.lending.prices, ledger := v.lending.ledger))
    && NoMoney(w, v) && Publishes(w, v, [PriceUpdated(base, quote, price)])
    && (base, quote) in v.lending.prices
    && v.lending.prices[(base, quote)].price == price
    && v.lending.prices[(base, quote)].decimals == decimals
    && v.lending.prices[(base, quote)].updatedAt == w.lending.now
    && v.lending.prices - {(base, quote)} == w.lending.prices - {(base, quote)}
  }

  /** The admin, and nobody else, sets a positive price with at most 18 decimals, and exactly that one. */
  lemma SetPriceSucceeds(w: World, signers: Signers, base: Asset, quote: Asset, price: i128, decimals: u32)
    ensures var r := Execute(w, Tx(signers, Call.SetPrice(base, quote, price, decimals)));
            && (r.Ok? <==> ADMIN in signers && price > 0 && decimals <= 18)
            && (r.Ok? ==> PriceSet(w, r.value, base, quote, price, decimals))
  {
  }

  /** The collateral of every loan of the pair is at once worth what that price says, and of no other loan. */
  lemma PriceDecidesWorth(w: World, tx: Tx, id: nat)
    requires Reachable(w) && tx.call.SetPrice? && Execute(w, tx).Ok? && id in w.lending.loans
    ensures var v, loan := Execute(w, tx).value, w.lending.loans[id];
            if loan.collateralAsset == tx.call.base && loan.loanAsset == tx.call.quote then
              && HasFreshPrice(v.lending, loan)
              && Worth(loan.collateralAmount, PriceOf(v.lending, loan))
                 == loan.collateralAmount * tx.call.price / Pow10(tx.call.decimals)
            else PriceOf(v.lending, loan) == PriceOf(w.lending, loan)
  {
    ReachableInvariant(w);
    LoanIsOk(w, id);
    SetPriceSucceeds(w, tx.signers, tx.call.base, tx.call.quote, tx.call.price, tx.call.decimals);
    var v, loan := Execute(w, tx).value, w.lending.loans[id];
    var pair := (loan.collateralAsset, loan.loanAsset);
    if pair != (tx.call.base, tx.call.quote) {
      OtherPrice(w.lending.prices, v.lending.prices, (tx.call.base, tx.call.quote), pair);
    }
  }

  lemma OtherPrice(before: Prices, after: Prices, key: (Asset, Asset), pair: (Asset, Asset))
    requires after - {key} == before - {key} && pair != key
    ensures pair in after <==> pair in before
    ensures pair in after ==> after[pair] == before[pair]
  {
    assert pair in after - {key} <==> pair in before - {key};
    if pair in after {
      assert (after - {key})[pair] == (before - {key})[pair];
    }
  }

  // Status

  /** The status of the loan is the one that the clock and, before the due time, the stored price give it. */
  predicate StatusFits(s: LendingState, loan: Loan) {
    var defaultTime := loan.dueTime + loan.gracePeriodDays * 86_400;
    if s.now > defaultTime then loan.status.Defaulted?
    else if s.now > loan.dueTime then loan.status.Expired?
    else
      var weighted, debt := Weighted(loan, PriceOf(s, loan)), loan.outstandingDebt;
      if weighted >= Max(loan.minHealthFactorBps, 14_000) * debt then loan.status.Active?
      else if weighted >= 12_000 * debt then loan.status.Warning?
      else loan.status.LiquidationPlanning?
  }

  /** `after` is `loan` with the status that fits. */
  predicate Refreshed(s: LendingState, loan: Loan, after: Loan) {
    after == loan.(status := after.status) && StatusFits(s, after)
  }

  lemma UpdateFits(s: LendingState, loan: Loan)
    requires ValidPrices(s.prices, s.now) && Mutable(loan.status)
    requires loan.collateralAmount >= 0 && loan.outstandingDebt > 0 && UpdateStatus(s, loan).Ok?
    ensures Refreshed(s, loan, UpdateStatus(s, loan).value)
  {
    Liquidation.RefreshedStatusIsExact(s, loan);
    StatusOnStoredData(s, loan);
    PriceIsUsable(s, loan);
    if s.now <= loan.dueTime {
      ValueIsWorth(loan.collateralAmount, PriceOf(s, loan));
    }
  }

  /** An open loan gets the status that fits, any other keeps its own; the status is published, and no money moves. */
  ghost predicate RefreshEffect(w: World, v: World, id: nat)
    requires id in w.lending.loans
  {
    var loan := w.lending.loans[id];
    && id in v.lending.loans
    && var after := v.lending.loans[id];
       && LoanBecomes(w, v, id, after)
       && (if Mutable(loan.status) then Refreshed(w.lending, loan, after) else after == loan)
       && NoMoney(w, v) && Publishes(w, v, [LoanStateUpdated(id, after.status)])
  }

  /** Anyone can refresh a stored loan, unless it is open and stored data do not give it a status. */
  lemma RefreshSucceeds(w: World, signers: Signers, id: nat)
    requires Reachable(w)
    ensures var r := Execute(w, Tx(signers, Call.RefreshLoanState(id)));
            && (r.Ok? <==> && id in w.lending.loans
                           && (Mutable(w.lending.loans[id].status) ==>
                                 StatusIsComputable(w.lending, w.lending.loans[id])))
            && (r.Ok? ==> RefreshEffect(w, r.value, id))
  {
    ReachableInvariant(w);
    if id in w.lending.loans {
      LoanIsOk(w, id);
      if Mutable(w.lending.loans[id].status) {
        StatusOnStoredData(w.lending, w.lending.loans[id]);
        if StatusIsComputable(w.lending, w.lending.loans[id]) {
          UpdateFits(w.lending, w.lending.loans[id]);
        }
      }
    }
  }

  /** Only the status changed. */
  ghost predicate OnlyMarked(w: World, v: World, id: nat, status: LoanStatus, e: Event) {
    && id in w.lending.loans
    && LoanBecomes(w, v, id, w.lending.loans[id].(status := status))
    && NoMoney(w, v) && Publishes(w, v, [e])
  }

  /** A mark is stored whatever the open status before it, and is all that changes. */
  lemma MarkEffect(w: World, signers: Signers, id: nat)
    ensures var r := Execute(w, Tx(signers, Call.MarkExpired(id)));
            r.Ok? ==> OnlyMarked(w, r.value, id, LoanStatus.Expired, LoanExpired(id))
    ensures var r := Execute(w, Tx(signers, Call.MarkDefaulted(id)));
            r.Ok? ==> OnlyMarked(w, r.value, id, Defaulted, LoanDefaulted(id))
  {
  }

  // Loans

  /** The loan opens as Active, and its term runs from now. */
  ghost predicate ActivateEffect(w: World, v: World, id: nat)
    requires id in w.lending.loans
  {
    var loan, now := w.lending.loans[id], w.lending.now;
    && id in v.lending.loans && LoanBecomes(w, v, id, v.lending.loans[id])
    && v.lending.loans[id].dueTime == now + loan.durationDays * 86_400
    && v.lending.loans[id]
       == loan.(startTime := now, dueTime := v.lending.loans[id].dueTime, status := LoanStatus.Active)
    && Publishes(w, v, [CollateralLocked(id, loan.borrower, loan.collateralAsset, loan.collateralAmount),
                        LoanAssetTransferred(loan.offerId, id, loan.borrower, loan.loanAsset, loan.principal),
                        LoanActivated(id, loan.outstandingDebt)])
  }

  lemma ActivateLoanLeaves(w: World, signers: Signers, id: nat)
    requires Execute(w, Tx(signers, Call.ActivateLoan(id))).Ok?
    ensures id in w.lending.loans && ActivateEffect(w, Execute(w, Tx(signers, Call.ActivateLoan(id))).value, id)
  {
    ActivationExecutes(w, signers, id);
    OpeningLeaves(w, signers, id);
  }

  lemma ActivationExecutes(w: World, signers: Signers, id: nat)
    ensures Execute(w, Tx(signers, Call.ActivateLoan(id)))
         == LiftLending(w, LoanManager.ActivateLoan(w.lending, signers, id))
  {
  }

  lemma OpeningLeaves(w: World, signers: Signers, id: nat)
    requires LoanManager.ActivateLoan(w.lending, signers, id).Ok?
    ensures id in w.lending.loans
    ensures ActivateEffect(w, w.(lending := LoanManager.ActivateLoan(w.lending, signers, id).value), id)
  {
    var locked, paid, open := ActivateShape(w.lending, signers, id);
    OpenedLeaves(w, signers, id, locked, paid, open, w.(lending := LoanManager.ActivateLoan(w.lending, signers, id).value));
  }

  lemma OpenedLeaves(
    w: World, signers: Signers, id: nat, locked: LedgerState, paid: LedgerState, open: Loan, v: World)
    requires id in w.lending.loans && Opened(w.lending, signers, id, locked, paid, open)
    requires v == w.(lending := Store(w.lending, paid, id, open, LoanActivated(id, open.outstandingDebt)))
    ensures ActivateEffect(w, v, id)
  {
  }

  /** The collateral grew by the amount, which the borrower paid in, and the status fits the new figures. */
  ghost predicate TopUpEffect(w: World, v: World, id: nat, amount: int)
    requires id in w.lending.loans
  {
    var loan := w.lending.loans[id];
    && Publishes(w, v, [CollateralLocked(id, loan.borrower, loan.collateralAsset, amount), CollateralAdded(id, amount)])
    && id in v.lending.loans && LoanBecomes(w, v, id, v.lending.loans[id])
    && var after := v.lending.loans[id];
       && after.collateralAmount == loan.collateralAmount + amount
       && after == loan.(collateralAmount := after.collateralAmount, status := after.status)
       && StatusFits(w.lending, after)
  }

  lemma AddCollateralLeaves(w: World, signers: Signers, id: nat, amount: i128)
    requires Reachable(w) && Execute(w, Tx(signers, Call.AddCollateral(id, amount))).Ok?
    ensures id in w.lending.loans
    ensures TopUpEffect(w, Execute(w, Tx(signers, Call.AddCollateral(id, amount))).value, id, amount)
  {
    ReachableInvariant(w);
    var locked, grown := AddCollateralShape(w.lending, signers, id, amount);
    LoanIsOk(w, id);
    UpdateFits(w.lending, grown);
  }

  /** The repayment of a part: the debt fell by it, and the status fits the new figures. */
  ghost predicate PayDownLeavesDebt(w: World, v: World, id: nat, amount: int)
    requires id in w.lending.loans
  {
    var loan := w.lending.loans[id];
    && Publishes(w, v, [RepaymentTransferred(id, loan.borrower, loan.lender, loan.loanAsset, amount),
                        PartialRepaid(id, amount)])
    && id in v.lending.loans && LoanBecomes(w, v, id, v.lending.loans[id])
    && var after := v.lending.loans[id];
       && after.outstandingDebt == loan.outstandingDebt - amount
       && after == loan.(outstandingDebt := after.outstandingDebt, status := after.status)
       && StatusFits(w.lending, after)
  }

  /** The repayment of the whole: the loan is settled, and its collateral, if it has any left, went back. */
  ghost predicate Settles(w: World, v: World, id: nat, done: Event)
    requires id in w.lending.loans
  {
    var loan := w.lending.loans[id];
    var back := if loan.collateralAmount == 0 then []
                else [CollateralReleased(id, loan.borrower, loan.collateralAsset, loan.collateralAmount)];
    && LoanBecomes(w, v, id, loan.(outstandingDebt := 0, collateralAmount := 0, status := Repaid))
    && Publishes(
         w, v, [RepaymentTransferred(id, loan.borrower, loan.lender, loan.loanAsset, loan.outstandingDebt)] + back + [done])
  }

  lemma SettlementLeaves(
    w: World, signers: Signers, id: nat, paid: LedgerState, less: Loan, released: Released, v: World, e: Event)
    requires id in w.lending.loans && LoanOk(w.lending, id)
    requires Repaying(w.lending, signers, id, w.lending.loans[id].outstandingDebt, paid, less)
    requires ReleaseAllCollateral(paid, less) == Ok(released)
    requires v == w.(lending := Store(w.lending, released.ledger, id, released.loan.(status := Repaid), e))
    ensures Settles(w, v, id, e)
  {
  }

  lemma PartialRepayLeaves(w: World, signers: Signers, id: nat, amount: i128)
    requires Reachable(w) && Execute(w, Tx(signers, Call.PartialRepay(id, amount))).Ok?
    ensures id in w.lending.loans
    ensures var v, debt := Execute(w, Tx(signers, Call.PartialRepay(id, amount))).value, w.lending.loans[id].outstandingDebt;
            if amount < debt then PayDownLeavesDebt(w, v, id, amount) else Settles(w, v, id, PartialRepaid(id, debt))
  {
    ReachableInvariant(w);
    var v := Execute(w, Tx(signers, Call.PartialRepay(id, amount))).value;
    var repay, paid, less := PartialRepayShape(w.lending, signers, id, amount);
    LoanIsOk(w, id);
    if less.outstandingDebt == 0 {
      SettlementLeaves(w, signers, id, paid, less, ReleaseAllCollateral(paid, less).value, v, PartialRepaid(id, repay));
    } else {
      UpdateFits(w.lending, less);
    }
  }

  lemma FullRepayLeaves(w: World, signers: Signers, id: nat)
    requires Reachable(w) && Execute(w, Tx(signers, Call.FullRepay(id))).Ok?
    ensures id in w.lending.loans
    ensures Settles(w, Execute(w, Tx(signers, Call.FullRepay(id))).value, id,
                    LoanRepaid(id, w.lending.loans[id].outstandingDebt))
  {
    ReachableInvariant(w);
    FullRepayTouchesMutable(w.lending, signers, id);
    LoanIsOk(w, id);
    var paid, less := FullRepayShape(w.lending, signers, id);
    SettlementLeaves(w, signers, id, paid, less, ReleaseAllCollateral(paid, less).value,
                     Execute(w, Tx(signers, Call.FullRepay(id))).value, LoanRepaid(id, w.lending.loans[id].outstandingDebt));
  }

  /** Debt and collateral fell by what was repaid and seized, and the status fits the new figures. */
  ghost predicate SeizureLeaves(w: World, v: World, id: nat, liquidator: Address, amount: i128)
    requires id in w.lending.loans
  {
    var loan := w.lending.loans[id];
    var repay := RepaymentFor(loan, amount);
    && 0 < repay
    && var seized := SeizedFor(repay, loan.liquidationBonusBps, PriceOf(w.lending, loan));
       && Publishes(w, v, [RepaymentTransferred(id, liquidator, loan.lender, loan.loanAsset, repay),
                           CollateralToLiquidator(id, liquidator, loan.collateralAsset, seized),
                           LoanLiquidated(id, liquidator, repay)])
       && id in v.lending.loans && LoanBecomes(w, v, id, v.lending.loans[id])
       && var after := v.lending.loans[id];
          && after.outstandingDebt == loan.outstandingDebt - repay
          && after.collateralAmount == loan.collateralAmount - seized
          && after == loan.(outstandingDebt := after.outstandingDebt, collateralAmount := after.collateralAmount,
                            status := after.status)
          && StatusFits(w.lending, after)
  }

  lemma LiquidateLeaves(w: World, signers: Signers, id: nat, liquidator: Address, amount: i128)
    requires Reachable(w) && Execute(w, Tx(signers, Call.Liquidate(id, liquidator, amount))).Ok?
    ensures id in w.lending.loans
    ensures SeizureLeaves(w, Execute(w, Tx(signers, Call.Liquidate(id, liquidator, amount))).value, id, liquidator, amount)
  {
    ReachableInvariant(w);
    LiquidationExecutes(w, signers, id, liquidator, amount);
    SeizingLeaves(w, signers, id, liquidator, amount);
  }

  lemma LiquidationExecutes(w: World, signers: Signers, id: nat, liquidator: Address, amount: i128)
    ensures Execute(w, Tx(signers, Call.Liquidate(id, liquidator, amount)))
         == LiftLending(w, LoanManager.Liquidate(w.lending, signers, id, liquidator, amount))
  {
  }

  lemma SeizingLeaves(w: World, signers: Signers, id: nat, liquidator: Address, amount: i128)
    requires Inv(w) && LoanManager.Liquidate(w.lending, signers, id, liquidator, amount).Ok?
    ensures id in w.lending.loans
    ensures SeizureLeaves(w, w.(lending := LoanManager.Liquidate(w.lending, signers, id, liquidator, amount).value),
                          id, liquidator, amount)
  {
    LiquidateTouchesMutable(w.lending, signers, id, liquidator, amount);
    LoanIsOk(w, id);
    var q, taken, less := LiquidateShape(w.lending, signers, id, liquidator, amount);
    QuoteOnStoredData(w.lending, w.lending.loans[id], amount);
    UpdateFits(w.lending, less);
    SeizureFromShape(w, signers, id, liquidator, amount, q, taken, less,
                     w.(lending := LoanManager.Liquidate(w.lending, signers, id, liquidator, amount).value));
  }

  lemma SeizureFromShape(
    w: World, signers: Signers, id: nat, liquidator: Address, amount: i128, q: Quote, taken: LedgerState, less: Loan,
    v: World)
    requires id in w.lending.loans && Seized(w.lending, signers, id, liquidator, q, taken, less)
    requires 0 < q.repay == RepaymentFor(w.lending.loans[id], amount)
    requires q.seized == SeizedFor(q.repay, w.lending.loans[id].liquidationBonusBps, PriceOf(w.lending, w.lending.loans[id]))
    requires UpdateStatus(w.lending, less).Ok? && Refreshed(w.lending, less, UpdateStatus(w.lending, less).value)
    requires v == w.(lending := Store(w.lending, taken, id, UpdateStatus(w.lending, less).value,
                                      LoanLiquidated(id, liquidator, q.repay)))
    ensures SeizureLeaves(w, v, id, liquidator, amount)
  {
  }

  /** A cleaned-up loan is gone, and all else is as before. */
  lemma CleanupLoanLeaves(w: World, signers: Signers, id: nat)
    requires Execute(w, Tx(signers, Call.CleanupLoan(id))).Ok?
    ensures var v := Execute(w, Tx(signers, Call.CleanupLoan(id))).value;
            && v == w.(lending := w.lending.(loans := v.lending.loans, ledger := v.lending.ledger))
            && id in w.lending.loans && id !in v.lending.loans && v.lending.loans == w.lending.loans - {id}
            && NoMoney(w, v) && Publishes(w, v, [LoanCleaned(id)])
  {
  }

  // Offers

  /** The offer is stored under the next identifier, which is the new count, and nothing else changed. */
  ghost predicate OfferCreatedFor(w: World, v: World, t: Terms) {
    var id := w.offerCount + 1;
    && v.offerCount == id
    && id !in w.offers && id in v.offers
    && v == w.(offers := w.offers[id := v.offers[id]], offerCount := v.offerCount,
               lending := w.lending.(ledger := v.lending.ledger))
    && HasTerms(v.offers[id], t) && v.offers[id].status.Draft? && v.offers[id].offerId == id
    && NoMoney(w, v) && Publishes(w, v, [OfferCreated(id, t.lender, t.loanAmount)])
  }

  lemma CreateOfferLeaves(w: World, signers: Signers, t: Terms)
    requires Reachable(w) && Execute(w, Tx(signers, Call.CreateOffer(t))).Ok?
    ensures OfferCreatedFor(w, Execute(w, Tx(signers, Call.CreateOffer(t))).value, t)
  {
    CreateSucceeds(w, signers, t);
  }

  lemma FundOfferLeaves(w: World, signers: Signers, id: nat)
    requires Execute(w, Tx(signers, Call.FundOffer(id))).Ok?
    ensures var v := Execute(w, Tx(signers, Call.FundOffer(id))).value;
            && OfferBecomes(w, v, id, Funding)
            && var offer := w.offers[id];
               Publishes(w, v, [LenderFundsLocked(id, offer.lender, offer.loanAsset, offer.loanAmount),
                                OfferFunded(id, offer.loanAmount)])
  {
  }

  lemma ActivateOfferLeaves(w: World, signers: Signers, id: nat)
    requires Execute(w, Tx(signers, Call.ActivateOffer(id))).Ok?
    ensures var v := Execute(w, Tx(signers, Call.ActivateOffer(id))).value;
            && OfferBecomes(w, v, id, OfferStatus.Active)
            && NoMoney(w, v) && Publishes(w, v, [OfferActivated(id, w.offers[id].loanAmount)])
  {
  }

  /** The offer is settled, and its lender got the whole amount back if it had been funded. */
  ghost predicate SettleEffect(w: World, v: World, id: nat, settled: OfferStatus, done: Event) {
    && OfferBecomes(w, v, id, settled)
    && var offer := w.offers[id];
       var back := if offer.status.Draft? then []
                   else [LenderFundsUnlocked(id, offer.lender, offer.loanAsset, offer.loanAmount)];
       Publishes(w, v, back + [done])
  }

  lemma SettleLeaves(w: World, id: nat, unlocked: LedgerState, settled: OfferStatus, e: Event)
    requires Inv(w) && id in w.offers && NotSettled(w.offers[id].status).Pass?
    requires UnlockOfferIfNeeded(w.lending.ledger, w.offers[id]) == Ok(unlocked)
    ensures SettleEffect(w, StoreOffer(w, unlocked, id, w.offers[id].(status := settled), e), id, settled, e)
  {
    assert OfferOk(w, id) && OfferLocked(w.lending.ledger, id) == ExpectedLock(w, id);
  }

  lemma CancelAndExpireLeave(w: World, signers: Signers, id: nat)
    requires Reachable(w)
    ensures var r := Execute(w, Tx(signers, Call.CancelOffer(id)));
            r.Ok? ==> id in w.offers && SettleEffect(w, r.value, id, Cancelled, OfferCancelled(id, w.offers[id].loanAmount))
    ensures var r := Execute(w, Tx(signers, Call.ExpireOffer(id)));
            r.Ok? ==> id in w.offers
                      && SettleEffect(w, r.value, id, OfferStatus.Expired, OfferExpired(id, w.offers[id].loanAmount))
  {
    ReachableInvariant(w);
    if id in w.offers && NotSettled(w.offers[id].status).Pass? && UnlockOfferIfNeeded(w.lending.ledger, w.offers[id]).Ok? {
      var unlocked := UnlockOfferIfNeeded(w.lending.ledger, w.offers[id]).value;
      SettleLeaves(w, id, unlocked, Cancelled, OfferCancelled(id, w.offers[id].loanAmount));
      SettleLeaves(w, id, unlocked, OfferStatus.Expired, OfferExpired(id, w.offers[id].loanAmount));
    }
  }

  /** The offer is matched with a waiting loan on its terms, under the next identifier, which is the new count. */
  ghost predicate AcceptedBy(w: World, v: World, id: nat, borrower: Address, collateral: int) {
    var k := w.lending.loanCount + 1;
    && id in w.offers && k !in w.lending.loans && k in v.lending.loans && v.lending.loanCount == k
    && v == w.(offers := w.offers[id := w.offers[id].(status := Matched)],
               lending := w.lending.(loans := w.lending.loans[k := v.lending.loans[k]],
                                     loanCount := v.lending.loanCount, ledger := v.lending.ledger))
    && var loan := v.lending.loans[k];
       && Inherits(loan, w.offers[id]) && loan.loanId == k && loan.borrower == borrower
       && loan.collateralAmount == collateral && loan.status.PendingCollateral? && loan.startTime == loan.dueTime == 0
       && NoMoney(w, v)
       && Publishes(w, v, [LoanCreated(k, borrower, loan.outstandingDebt), Event.OfferMatched(id, borrower, k)])
  }

  lemma AcceptOfferLeaves(w: World, signers: Signers, id: nat, borrower: Address, collateral: i128)
    requires Reachable(w) && Execute(w, Tx(signers, Call.AcceptOffer(id, borrower, collateral))).Ok?
    ensures AcceptedBy(w, Execute(w, Tx(signers, Call.AcceptOffer(id, borrower, collateral))).value,
                       id, borrower, collateral)
  {
    ReachableInvariant(w);
    AcceptEffect(w, signers, id, borrower, collateral);
    AcceptFrame(w, signers, id, borrower, collateral);
    var k, loan := AcceptShape(w, signers, id, borrower, collateral);
  }

  lemma AcceptFrame(w: World, signers: Signers, id: nat, borrower: Address, collateral: i128)
    requires Marketplace.AcceptOffer(w, signers, id, borrower, collateral).Ok?
    ensures var v, k := Marketplace.AcceptOffer(w, signers, id, borrower, collateral).value, w.lending.loanCount + 1;
            && v == w.(offers := v.offers,
                       lending := w.lending.(loans := v.lending.loans, loanCount := v.lending.loanCount,
                                             ledger := v.lending.ledger))
            && k in v.lending.loans && v.lending.loans[k].loanId == k
            && v.lending.loans[k].startTime == v.lending.loans[k].dueTime == 0
  {
  }

  /** A cleaned-up offer is gone, and all else is as before. */
  lemma CleanupOfferLeaves(w: World, signers: Signers, id: nat)
    requires Execute(w, Tx(signers, Call.CleanupOffer(id))).Ok?
    ensures var v := Execute(w, Tx(signers, Call.CleanupOffer(id))).value;
            && v == w.(offers := v.offers, lending := w.lending.(ledger := v.lending.ledger))
            && id in w.offers && id !in v.offers && v.offers == w.offers - {id}
            && NoMoney(w, v) && Publishes(w, v, [OfferCleaned(id)])
  {
  }

  // The world outside

  /** The admin can withdraw whatever the Vault holds; no record and no escrow entry changes. */
  lemma WithdrawSucceeds(w: World, signers: Signers, asset: Asset, recipient: Address, amount: i128)
    requires Reachable(w)
    ensures var r := Execute(w, Tx(signers, Call.Withdraw(asset, recipient, amount)));
            && (r.Ok? <==> ADMIN in signers && 0 < amount <= VaultBalance(w, asset))
            && (r.Ok? ==> SameRecords(w, r.value) && Publishes(w, r.value, [Withdrawn(asset, recipient, amount)]))
  {
    ReachableInvariant(w);
    TransferSucceeds(w.lending.ledger.balances, asset, VaultAddress, recipient, amount);
  }

  /** A holder can transfer whatever it holds; no record and no escrow entry changes. */
  lemma TransferTokensSucceeds(
    w: World, signers: Signers, asset: Asset, sender: Address, recipient: Address, amount: i128)
    requires Reachable(w)
    ensures var r := Execute(w, Tx(signers, Call.TransferTokens(asset, sender, recipient, amount)));
            && (r.Ok? <==> sender in signers && 0 <= amount <= BalanceOf(w.lending.ledger.balances, asset, sender))
            && (r.Ok? ==> SameRecords(w, r.value)
                          && Publishes(w, r.value, [TokenTransferred(asset, sender, recipient, amount)]))
  {
    ReachableInvariant(w);
    TransferSucceeds(w.lending.ledger.balances, asset, sender, recipient, amount);
  }

  /** Time only moves forward, by the seconds that pass, and leaves everything else alone. */
  lemma TickSucceeds(w: World, signers: Signers, seconds: u64)
    ensures var r := Execute(w, Tx(signers, Tick(seconds)));
            && (r.Ok? <==> w.lending.now + seconds <= U64_MAX)
            && (r.Ok? ==> r.value.lending.now == w.lending.now + seconds
                          && r.value == w.(lending := w.lending.(now := r.value.lending.now)))
  {
  }

  // Identifiers over runs

  /** How many offers, and how many loans, a run creates. */
  function Creations(w: World, txs: seq<Tx>): nat
    decreases |txs|
  {
    if txs == [] then 0
    else
      (if txs[0].call.CreateOffer? && Execute(w, txs[0]).Ok? then 1 else 0) + Creations(Step(w, txs[0]), txs[1..])
  }

  function Acceptances(w: World, txs: seq<Tx>): nat
    decreases |txs|
  {
    if txs == [] then 0
    else
      (if txs[0].call.AcceptOffer? && Execute(w, txs[0]).Ok? then 1 else 0) + Acceptances(Step(w, txs[0]), txs[1..])
  }

  lemma StepCounts(w: World, tx: Tx)
    requires Inv(w) && Execute(w, tx).Ok?
    ensures Step(w, tx).offerCount == w.offerCount + (if tx.call.CreateOffer? then 1 else 0)
    ensures Step(w, tx).lending.loanCount == w.lending.loanCount + (if tx.call.AcceptOffer? then 1 else 0)
  {
    if ChangesLoan(tx.call) {
      if LoanOf(tx.call) in w.lending.loans {
        LoanIsOk(w, LoanOf(tx.call));
      }
      LoanCallLater(w.lending, tx.signers, tx.call);
    } else if tx.call.AcceptOffer? {
      AcceptFrame(w, tx.signers, tx.call.offer, tx.call.borrower, tx.call.collateral);
      var k, loan := AcceptShape(w, tx.signers, tx.call.offer, tx.call.borrower, tx.call.collateral);
    } else if tx.call.CreateOffer? || tx.call.FundOffer? || tx.call.ActivateOffer? || tx.call.CancelOffer?
              || tx.call.ExpireOffer? || tx.call.CleanupOffer? {
      OfferCallCounts(w, tx);
    } else {
      OtherCallCounts(w, tx);
    }
  }

  lemma OfferCallCounts(w: World, tx: Tx)
    requires tx.call.CreateOffer? || tx.call.FundOffer? || tx.call.ActivateOffer? || tx.call.CancelOffer?
             || tx.call.ExpireOffer? || tx.call.CleanupOffer?
    requires Execute(w, tx).Ok?
    ensures Execute(w, tx).value.offerCount == w.offerCount + (if tx.call.CreateOffer? then 1 else 0)
    ensures Execute(w, tx).value.lending.loanCount == w.lending.loanCount
  {
  }

  lemma OtherCallCounts(w: World, tx: Tx)
    requires tx.call.CleanupLoan? || tx.call.SetPrice? || tx.call.Withdraw? || tx.call.TransferTokens? || tx.call.Tick?
    requires Execute(w, tx).Ok?
    ensures Execute(w, tx).value.offerCount == w.offerCount
    ensures Execute(w, tx).value.lending.loanCount == w.lending.loanCount
  {
  }

  /** Over every run, the counters are the number of offers created and of offers accepted. */
  lemma {:induction false} CountersCount(w: World, txs: seq<Tx>)
    requires Inv(w)
    ensures Run(w, txs).offerCount == w.offerCount + Creations(w, txs)
    ensures Run(w, txs).lending.loanCount == w.lending.loanCount + Acceptances(w, txs)
    decreases |txs|
  {
    if txs != [] {
      if Execute(w, txs[0]).Ok? {
        StepCounts(w, txs[0]);
      }
      StepKeepsInvariant(w, txs[0]);
      CountersCount(Step(w, txs[0]), txs[1..]);
    }
  }
}
