/** Which of the published events the indexer counts as transactions of their own. */
module TypedEvents {
  import opened Shared
  import opened Marketplace
  import opened Protocol
  import opened EventIndex
  import opened Effects

  /** How many of these events have a transaction type. */
  function Typed(events: seq<Event>): nat {
    if events == [] then 0
    else Typed(events[..|events| - 1]) + (if HasType(events[|events| - 1]) then 1 else 0)
  }

  lemma TypedOne(e: Event)
    ensures Typed([e]) == if HasType(e) then 1 else 0
  {
    assert [e][..0] == [];
  }

  lemma {:induction false} TypedAppend(a: seq<Event>, b: seq<Event>)
    ensures Typed(a + b) == Typed(a) + Typed(b)
    decreases |b|
  {
    if b == [] {
      assert a + b == a;
    } else {
      assert (a + b)[..|a + b| - 1] == a + b[..|b| - 1];
      TypedAppend(a, b[..|b| - 1]);
    }
  }

  /** Clean-ups, refreshes, withdrawals, outside transfers and time leave no typed event; an acceptance leaves two. */
  function TypedFor(call: Call): nat {
    match call
    case CleanupOffer(_) => 0
    case CleanupLoan(_) => 0
    case RefreshLoanState(_) => 0
    case Withdraw(_, _, _) => 0
    case TransferTokens(_, _, _, _) => 0
    case Tick(_) => 0
    case AcceptOffer(_, _, _) => 2
    case _ => 1
  }

  /** Up to two movements of tokens, and the event of the call itself. */
  lemma TypedLast(moves: seq<Event>, done: Event)
    requires |moves| <= 2 && forall i | 0 <= i < |moves| :: !HasType(moves[i])
    ensures Typed(moves + [done]) == if HasType(done) then 1 else 0
  {
    TypedAppend(moves, [done]);
    TypedOne(done);
    if |moves| == 2 {
      TypedAppend([moves[0]], [moves[1]]);
      assert moves == [moves[0]] + [moves[1]];
    }
    if |moves| > 0 {
      TypedOne(moves[0]);
      TypedOne(moves[|moves| - 1]);
      assert |moves| == 1 ==> moves == [moves[0]];
    }
  }

  lemma TypedStep(w: World, v: World, moves: seq<Event>, done: Event)
    requires Publishes(w, v, moves + [done])
    requires |moves| <= 2 && forall i | 0 <= i < |moves| :: !HasType(moves[i])
    ensures Typed(NewEvents(w, v)) == if HasType(done) then 1 else 0
  {
    assert NewEvents(w, v) == moves + [done];
    TypedLast(moves, done);
  }

  lemma CreateTyped(w: World, signers: Signers, t: Terms)
    requires Reachable(w) && Execute(w, Tx(signers, Call.CreateOffer(t))).Ok?
    ensures Typed(NewEvents(w, Step(w, Tx(signers, Call.CreateOffer(t))))) == 1
  {
    CreateOfferLeaves(w, signers, t);
    TypedStep(w, Step(w, Tx(signers, Call.CreateOffer(t))), [], OfferCreated(w.offerCount + 1, t.lender, t.loanAmount));
  }

  lemma ActivateOfferTyped(w: World, signers: Signers, id: nat)
    requires Execute(w, Tx(signers, Call.ActivateOffer(id))).Ok?
    ensures Typed(NewEvents(w, Step(w, Tx(signers, Call.ActivateOffer(id))))) == 1
  {
    ActivateOfferLeaves(w, signers, id);
    TypedStep(w, Step(w, Tx(signers, Call.ActivateOffer(id))), [], OfferActivated(id, w.offers[id].loanAmount));
  }

  lemma CleanupOfferTyped(w: World, signers: Signers, id: nat)
    requires Execute(w, Tx(signers, Call.CleanupOffer(id))).Ok?
    ensures Typed(NewEvents(w, Step(w, Tx(signers, Call.CleanupOffer(id))))) == 0
  {
    CleanupOfferLeaves(w, signers, id);
    TypedStep(w, Step(w, Tx(signers, Call.CleanupOffer(id))), [], OfferCleaned(id));
  }

  lemma FundTyped(w: World, signers: Signers, id: nat)
    requires Execute(w, Tx(signers, Call.FundOffer(id))).Ok?
    ensures Typed(NewEvents(w, Step(w, Tx(signers, Call.FundOffer(id))))) == 1
  {
    FundOfferLeaves(w, signers, id);
    var offer := w.offers[id];
    TypedStep(w, Step(w, Tx(signers, Call.FundOffer(id))),
              [LenderFundsLocked(id, offer.lender, offer.loanAsset, offer.loanAmount)], OfferFunded(id, offer.loanAmount));
  }

  lemma CancelTyped(w: World, signers: Signers, id: nat)
    requires Reachable(w) && Execute(w, Tx(signers, Call.CancelOffer(id))).Ok?
    ensures Typed(NewEvents(w, Step(w, Tx(signers, Call.CancelOffer(id))))) == 1
  {
    CancelAndExpireLeave(w, signers, id);
    SettledTyped(w, Step(w, Tx(signers, Call.CancelOffer(id))), id, Cancelled, OfferCancelled(id, w.offers[id].loanAmount));
  }

  lemma ExpireTyped(w: World, signers: Signers, id: nat)
    requires Reachable(w) && Execute(w, Tx(signers, Call.ExpireOffer(id))).Ok?
    ensures Typed(NewEvents(w, Step(w, Tx(signers, Call.ExpireOffer(id))))) == 1
  {
    CancelAndExpireLeave(w, signers, id);
    SettledTyped(w, Step(w, Tx(signers, Call.ExpireOffer(id))), id, OfferStatus.Expired,
                 OfferExpired(id, w.offers[id].loanAmount));
  }

  lemma SettledTyped(w: World, v: World, id: nat, settled: OfferStatus, done: Event)
    requires SettleEffect(w, v, id, settled, done)
    ensures Typed(NewEvents(w, v)) == if HasType(done) then 1 else 0
  {
    var offer := w.offers[id];
    TypedStep(w, v, if offer.status.Draft? then []
                    else [LenderFundsUnlocked(id, offer.lender, offer.loanAsset, offer.loanAmount)], done);
  }

  lemma RefreshTyped(w: World, tx: Tx)
    requires Reachable(w) && Execute(w, tx).Ok? && (tx.call.RefreshLoanState? || tx.call.CleanupLoan?)
    ensures Typed(NewEvents(w, Step(w, tx))) == 0
  {
    var id := tx.call.loan;
    if tx.call.RefreshLoanState? {
      RefreshSucceeds(w, tx.signers, id);
      TypedStep(w, Step(w, tx), [], LoanStateUpdated(id, Step(w, tx).lending.loans[id].status));
    } else {
      CleanupLoanLeaves(w, tx.signers, id);
      TypedStep(w, Step(w, tx), [], LoanCleaned(id));
    }
  }

  lemma MarkTyped(w: World, tx: Tx)
    requires Execute(w, tx).Ok? && (tx.call.MarkExpired? || tx.call.MarkDefaulted?)
    ensures Typed(NewEvents(w, Step(w, tx))) == 1
  {
    MarkEffect(w, tx.signers, tx.call.loan);
    TypedStep(w, Step(w, tx), [], if tx.call.MarkExpired? then LoanExpired(tx.call.loan) else LoanDefaulted(tx.call.loan));
  }

  lemma CollateralTyped(w: World, tx: Tx)
    requires Reachable(w) && Execute(w, tx).Ok? && (tx.call.ActivateLoan? || tx.call.AddCollateral?)
    ensures Typed(NewEvents(w, Step(w, tx))) == 1
  {
    match tx.call
    case ActivateLoan(id) =>
      ActivateLoanLeaves(w, tx.signers, id);
      var loan := w.lending.loans[id];
      TypedStep(w, Step(w, tx), [CollateralLocked(id, loan.borrower, loan.collateralAsset, loan.collateralAmount),
                                 LoanAssetTransferred(loan.offerId, id, loan.borrower, loan.loanAsset, loan.principal)],
                LoanActivated(id, loan.outstandingDebt));
    case AddCollateral(id, amount) =>
      AddCollateralLeaves(w, tx.signers, id, amount);
      var loan := w.lending.loans[id];
      TypedStep(w, Step(w, tx), [CollateralLocked(id, loan.borrower, loan.collateralAsset, amount)],
                CollateralAdded(id, amount));
  }

  lemma RepaymentTyped(w: World, tx: Tx)
    requires Reachable(w) && Execute(w, tx).Ok? && (tx.call.PartialRepay? || tx.call.FullRepay?)
    ensures Typed(NewEvents(w, Step(w, tx))) == 1
  {
    match tx.call
    case PartialRepay(id, amount) =>
      PartialRepayLeaves(w, tx.signers, id, amount);
      var loan := w.lending.loans[id];
      if amount < loan.outstandingDebt {
        TypedStep(w, Step(w, tx), [RepaymentTransferred(id, loan.borrower, loan.lender, loan.loanAsset, amount)],
                  PartialRepaid(id, amount));
      } else {
        SettlementTyped(w, Step(w, tx), id, PartialRepaid(id, loan.outstandingDebt));
      }
    case FullRepay(id) =>
      FullRepayLeaves(w, tx.signers, id);
      SettlementTyped(w, Step(w, tx), id, LoanRepaid(id, w.lending.loans[id].outstandingDebt));
  }

  lemma LiquidationTyped(w: World, tx: Tx)
    requires Reachable(w) && Execute(w, tx).Ok? && tx.call.Liquidate?
    ensures Typed(NewEvents(w, Step(w, tx))) == 1
  {
    LiquidateLeaves(w, tx.signers, tx.call.loan, tx.call.liquidator, tx.call.amount);
    SeizureTyped(w, Step(w, tx), tx.call.loan, tx.call.liquidator, tx.call.amount);
  }

  lemma SettlementTyped(w: World, v: World, id: nat, done: Event)
    requires id in w.lending.loans && Settles(w, v, id, done)
    ensures Typed(NewEvents(w, v)) == if HasType(done) then 1 else 0
  {
    var loan := w.lending.loans[id];
    var back := if loan.collateralAmount == 0 then []
                else [CollateralReleased(id, loan.borrower, loan.collateralAsset, loan.collateralAmount)];
    TypedStep(w, v, [RepaymentTransferred(id, loan.borrower, loan.lender, loan.loanAsset, loan.outstandingDebt)] + back,
              done);
  }

  lemma SeizureTyped(w: World, v: World, id: nat, liquidator: Address, amount: i128)
    requires id in w.lending.loans && SeizureLeaves(w, v, id, liquidator, amount)
    ensures Typed(NewEvents(w, v)) == 1
  {
    var log := v.lending.ledger.log;
    TypedStep(w, v, [log[|log| - 3], log[|log| - 2]], log[|log| - 1]);
  }

  lemma AcceptTyped(w: World, tx: Tx)
    requires Reachable(w) && Execute(w, tx).Ok? && tx.call.AcceptOffer?
    ensures Typed(NewEvents(w, Step(w, tx))) == 2
  {
    var v := Step(w, tx);
    AcceptOfferLeaves(w, tx.signers, tx.call.offer, tx.call.borrower, tx.call.collateral);
    var log := v.lending.ledger.log;
    var created, done := log[|log| - 2], log[|log| - 1];
    assert NewEvents(w, v) == [created] + [done];
    TypedAppend([created], [done]);
    TypedOne(created);
    TypedOne(done);
  }

  lemma WithdrawTyped(w: World, tx: Tx)
    requires Reachable(w) && Execute(w, tx).Ok? && tx.call.Withdraw?
    ensures Typed(NewEvents(w, Step(w, tx))) == 0
  {
    var asset, recipient, amount := tx.call.asset, tx.call.recipient, tx.call.amount;
    WithdrawSucceeds(w, tx.signers, asset, recipient, amount);
    TypedStep(w, Step(w, tx), [], Withdrawn(asset, recipient, amount));
  }

  lemma TransferTyped(w: World, tx: Tx)
    requires Reachable(w) && Execute(w, tx).Ok? && tx.call.TransferTokens?
    ensures Typed(NewEvents(w, Step(w, tx))) == 0
  {
    var asset, sender, recipient, amount := tx.call.asset, tx.call.sender, tx.call.recipient, tx.call.amount;
    TransferTokensSucceeds(w, tx.signers, asset, sender, recipient, amount);
    TypedStep(w, Step(w, tx), [], TokenTransferred(asset, sender, recipient, amount));
  }

  lemma TickTyped(w: World, tx: Tx)
    requires Execute(w, tx).Ok? && tx.call.Tick?
    ensures Typed(NewEvents(w, Step(w, tx))) == 0
  {
    TickSucceeds(w, tx.signers, tx.call.seconds);
    assert NewEvents(w, Step(w, tx)) == [];
  }

  lemma PriceTyped(w: World, tx: Tx)
    requires Execute(w, tx).Ok? && tx.call.SetPrice?
    ensures Typed(NewEvents(w, Step(w, tx))) == 1
  {
    var base, quote, price := tx.call.base, tx.call.quote, tx.call.price;
    SetPriceSucceeds(w, tx.signers, base, quote, price, tx.call.decimals);
    TypedStep(w, Step(w, tx), [], PriceUpdated(base, quote, price));
  }

  /**
   * What the indexer counts as a transaction: every successful call of the protocol publishes
   * exactly one event with a type, acceptances two, and clean-ups, refreshes, withdrawals, outside
   * transfers and time none.
   */
  lemma EveryCallIsTyped(w: World, tx: Tx)
    requires Reachable(w) && Execute(w, tx).Ok?
    ensures Typed(NewEvents(w, Step(w, tx))) == TypedFor(tx.call)
  {
    match tx.call {
      case AcceptOffer(_, _, _) => AcceptTyped(w, tx);
      case CreateOffer(terms) => CreateTyped(w, tx.signers, terms);
      case FundOffer(id) => FundTyped(w, tx.signers, id);
      case ActivateOffer(id) => ActivateOfferTyped(w, tx.signers, id);
      case CancelOffer(id) => CancelTyped(w, tx.signers, id);
      case ExpireOffer(id) => ExpireTyped(w, tx.signers, id);
      case CleanupOffer(id) => CleanupOfferTyped(w, tx.signers, id);
      case ActivateLoan(_) => CollateralTyped(w, tx);
      case AddCollateral(_, _) => CollateralTyped(w, tx);
      case PartialRepay(_, _) => RepaymentTyped(w, tx);
      case FullRepay(_) => RepaymentTyped(w, tx);
      case Liquidate(_, _, _) => LiquidationTyped(w, tx);
      case SetPrice(_, _, _, _) => PriceTyped(w, tx);
      case Withdraw(_, _, _) => WithdrawTyped(w, tx);
      case TransferTokens(_, _, _, _) => TransferTyped(w, tx);
      case Tick(_) => TickTyped(w, tx);
      case MarkExpired(_) => MarkTyped(w, tx);
      case MarkDefaulted(_) => MarkTyped(w, tx);
      case _ => RefreshTyped(w, tx);
    }
  }
}
