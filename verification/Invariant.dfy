/** What holds in every state the protocol can reach. */
module Invariant {
  import opened Shared
  import opened Token
  import opened Ledger
  import opened Oracle
  import opened RiskMath
  import opened LoanManager
  import opened Marketplace
  import opened Protocol
  import RiskProperties
  import Vault

  /** Terms that passed the Marketplace's checks and defaults. */
  ghost predicate ValidRisk(maxLtv: u32, threshold: u32, bonus: u32, minHf: u32) {
    && 0 < maxLtv <= threshold <= BPS_DENOMINATOR
    && 0 < bonus <= MAX_LIQUIDATION_BONUS_BPS
    && minHf >= SAFE_HEALTH_FACTOR_BPS
  }

  ghost predicate OfferOk(w: World, id: nat)
    requires id in w.offers
  {
    var offer := w.offers[id];
    && offer.offerId == id
    && 1 <= id <= w.offerCount
    && offer.lender != VaultAddress
    && offer.loanAsset != offer.collateralAsset
    && offer.loanAmount > 0
    && 0 < offer.fixedAprBps <= MAX_FIXED_APR_BPS
    && offer.durationDays > 0
    && ValidRisk(offer.maxLtvBps, offer.liquidationThresholdBps, offer.liquidationBonusBps, offer.minHealthFactorBps)
  }

  /** Debt and collateral as each status allows them. Liquidated and Closed are never reached. */
  ghost predicate BooksOk(loan: Loan) {
    match loan.status
    case PendingCollateral =>
      && loan.collateralAmount > 0
      && loan.startTime == loan.dueTime == 0
      && Ok(loan.outstandingDebt) == PrincipalWithInterest(loan.principal, loan.fixedAprBps, loan.durationDays)
    case Repaid => loan.outstandingDebt == 0 && loan.collateralAmount == 0
    case Liquidated | Closed => false
    case _ => loan.outstandingDebt > 0 && loan.collateralAmount >= 0
  }

  /** Time-based statuses are never early, and the term runs from the activation. */
  ghost predicate ClockOk(loan: Loan, now: u64) {
    && (loan.status.Expired? ==> now > loan.dueTime)
    && (loan.status.Defaulted? ==> DefaultTime(loan).Ok? && now > DefaultTime(loan).value)
    && (!loan.status.PendingCollateral? ==>
          && loan.startTime <= now
          && loan.dueTime == loan.startTime + loan.durationDays * SECONDS_PER_DAY)
  }

  ghost predicate LoanOk(s: LendingState, id: nat)
    requires id in s.loans
  {
    var loan := s.loans[id];
    && loan.loanId == id
    && 1 <= id <= s.loanCount
    && loan.lender != VaultAddress
    && loan.borrower != VaultAddress
    && loan.lender != loan.borrower
    && loan.loanAsset != loan.collateralAsset
    && loan.principal > 0
    && loan.outstandingDebt >= 0
    && 0 < loan.fixedAprBps <= MAX_FIXED_APR_BPS
    && ValidRisk(loan.maxLtvBps, loan.liquidationThresholdBps, loan.liquidationBonusBps, loan.minHealthFactorBps)
    && BooksOk(loan)
    && ClockOk(loan, s.now)
  }

  /** The collateral that should be in escrow for a loan. */
  function Escrowed(loan: Loan): int {
    if Mutable(loan.status) then loan.collateralAmount else 0
  }

  function ExpectedCollateral(s: LendingState, id: nat): int {
    if id in s.loans then Escrowed(s.loans[id]) else 0
  }

  function ExpectedLocked(s: LendingState, id: nat, asset: Asset): int {
    if id in s.loans && s.loans[id].collateralAsset == asset then Escrowed(s.loans[id]) else 0
  }

  /** Both collateral ledgers of the Vault agree with the Loan Manager's records. */
  ghost predicate CollateralAgrees(s: LendingState) {
    && (forall l :: LoanCollateral(s.ledger, l) == ExpectedCollateral(s, l))
    && (forall l, a :: Locked(s.ledger, l, a) == ExpectedLocked(s, l, a))
  }

  /** A loan that was created from the offer and is still waiting for its collateral. */
  ghost predicate HasPending(w: World, offer: nat) {
    exists l :: IsPending(w, l, offer)
  }

  predicate IsPending(w: World, loan: nat, offer: nat) {
    && loan in w.lending.loans
    && w.lending.loans[loan].offerId == offer
    && w.lending.loans[loan].status.PendingCollateral?
  }

  /** The lender's funds that should be in escrow for an offer. */
  ghost function ExpectedLock(w: World, id: nat): int {
    if id !in w.offers then 0
    else
      match w.offers[id].status
      case Funding | Active => w.offers[id].loanAmount
      case Matched => if HasPending(w, id) then w.offers[id].loanAmount else 0
      case _ => 0
  }

  ghost predicate OffersAgree(w: World) {
    forall o :: OfferLocked(w.lending.ledger, o) == ExpectedLock(w, o)
  }

  /** Every loan stems from a matched offer, and a waiting loan still mirrors its offer. */
  ghost predicate LoanFromOffer(w: World, id: nat)
    requires id in w.lending.loans
  {
    var loan := w.lending.loans[id];
    && 1 <= loan.offerId <= w.offerCount
    && (loan.offerId in w.offers ==> w.offers[loan.offerId].status.Matched?)
    && (loan.status.PendingCollateral? ==>
          && loan.offerId in w.offers
          && w.offers[loan.offerId].lender == loan.lender
          && w.offers[loan.offerId].loanAsset == loan.loanAsset
          && w.offers[loan.offerId].loanAmount == loan.principal)
  }

  ghost predicate OneLoanPerOffer(w: World) {
    forall k, l | k in w.lending.loans && l in w.lending.loans ::
      w.lending.loans[k].offerId == w.lending.loans[l].offerId ==> k == l
  }

  ghost predicate SupplyOk(s: LedgerState) {
    forall a :: Supply(s.balances, a) <= I128_MAX
  }

  ghost predicate Inv(w: World) {
    && (forall id :: id in w.offers ==> OfferOk(w, id))
    && (forall id :: id in w.lending.loans ==> LoanOk(w.lending, id))
    && CollateralAgrees(w.lending)
    && OffersAgree(w)
    && (forall id :: id in w.lending.loans ==> LoanFromOffer(w, id))
    && OneLoanPerOffer(w)
    && ValidPrices(w.lending.prices, w.lending.now)
    && SupplyOk(w.lending.ledger)
  }

  lemma MovedKeepsSupply(
    s: LedgerState, t: LedgerState, asset: Asset, sender: Address, recipient: Address, amount: int)
    requires Vault.Moved(s, t, asset, sender, recipient, amount)
    ensures forall a :: Supply(t.balances, a) == Supply(s.balances, a)
  {
    forall a ensures Supply(t.balances, a) == Supply(s.balances, a) {
      TransferKeepsSupply(s.balances, asset, sender, recipient, amount, a);
    }
  }

  lemma PendingSame(w: World, v: World)
    requires forall l, o :: IsPending(v, l, o) == IsPending(w, l, o)
    ensures forall o :: HasPending(v, o) == HasPending(w, o)
  {
  }

  lemma LoanIsOk(w: World, id: nat)
    requires Inv(w) && id in w.lending.loans
    ensures LoanOk(w.lending, id) && LoanFromOffer(w, id)
  {
  }

  lemma SameLoansKeepCollateral(s: LendingState, t: LendingState)
    requires CollateralAgrees(s) && CollateralSame(s.ledger, t.ledger) && t.loans == s.loans
    ensures CollateralAgrees(t)
  {
    forall l, a ensures Locked(t.ledger, l, a) == ExpectedLocked(t, l, a)
                && LoanCollateral(t.ledger, l) == ExpectedCollateral(t, l) {
      assert Locked(s.ledger, l, a) == ExpectedLocked(s, l, a);
      assert LoanCollateral(s.ledger, l) == ExpectedCollateral(s, l);
    }
  }

  /** A step that touches one offer, and no loan, keeps the invariant if it does so there. */
  lemma OfferChangeKeeps(w: World, v: World, id: nat)
    requires Inv(w)
    requires v.lending == w.lending.(ledger := v.lending.ledger)
    requires v.offers - {id} == w.offers - {id} && v.offerCount >= w.offerCount
    requires id in v.offers ==> OfferOk(v, id)
    requires id in v.offers ==> !v.offers[id].status.Matched? && (id in w.offers ==> !w.offers[id].status.Matched?)
    requires id !in w.offers ==> id > w.offerCount
    requires CollateralSame(w.lending.ledger, v.lending.ledger)
    requires forall o :: o != id ==> OfferLocked(v.lending.ledger, o) == OfferLocked(w.lending.ledger, o)
    requires OfferLocked(v.lending.ledger, id) == ExpectedLock(v, id)
    requires SupplyOk(v.lending.ledger)
    requires id !in v.offers ==> !HasPending(w, id)
    ensures Inv(v)
  {
    assert forall l, o :: IsPending(v, l, o) == IsPending(w, l, o);
    PendingSame(w, v);
    forall o ensures o != id ==> (o in v.offers) == (o in w.offers) && (o in v.offers ==> v.offers[o] == w.offers[o]) {
      assert o in v.offers - {id} <==> o in w.offers - {id};
      if o != id && o in v.offers {
        assert (v.offers - {id})[o] == (w.offers - {id})[o];
      }
    }
    forall o ensures OfferLocked(v.lending.ledger, o) == ExpectedLock(v, o) {
      assert OfferLocked(w.lending.ledger, o) == ExpectedLock(w, o);
    }
    SameLoansKeepCollateral(w.lending, v.lending);
    forall l | l in v.lending.loans ensures LoanOk(v.lending, l) && LoanFromOffer(v, l) {
      assert LoanOk(w.lending, l) && LoanFromOffer(w, l);
      if w.lending.loans[l].status.PendingCollateral? {
        assert IsPending(w, l, w.lending.loans[l].offerId);
      }
    }
  }

  lemma CreateOfferKeeps(w: World, signers: Signers, t: Terms)
    requires Inv(w) && Marketplace.CreateOffer(w, signers, t).Ok?
    ensures Inv(Marketplace.CreateOffer(w, signers, t).value)
  {
    var v := Marketplace.CreateOffer(w, signers, t).value;
    var id := w.offerCount + 1;
    assert id !in w.offers by {
      assert id in w.offers ==> OfferOk(w, id);
    }
    OfferChangeKeeps(w, v, id);
  }

  lemma FundOfferKeeps(w: World, signers: Signers, id: nat)
    requires Inv(w) && Marketplace.FundOffer(w, signers, id).Ok?
    ensures Inv(Marketplace.FundOffer(w, signers, id).value)
  {
    var v := Marketplace.FundOffer(w, signers, id).value;
    var offer := w.offers[id];
    MovedKeepsSupply(w.lending.ledger, v.lending.ledger, offer.loanAsset, offer.lender, VaultAddress, offer.loanAmount);
    assert OfferOk(w, id) && OfferLocked(w.lending.ledger, id) == 0;
    OfferChangeKeeps(w, v, id);
  }

  lemma ActivateOfferKeeps(w: World, signers: Signers, id: nat)
    requires Inv(w) && Marketplace.ActivateOffer(w, signers, id).Ok?
    ensures Inv(Marketplace.ActivateOffer(w, signers, id).value)
  {
    var v := Marketplace.ActivateOffer(w, signers, id).value;
    assert OfferOk(w, id) && OfferLocked(w.lending.ledger, id) == ExpectedLock(w, id);
    OfferChangeKeeps(w, v, id);
  }

  /** Cancelling and expiring differ only in the final status and the event. */
  lemma SettleKeeps(w: World, id: nat, unlocked: LedgerState, settled: OfferStatus, e: Event)
    requires Inv(w) && id in w.offers && NotSettled(w.offers[id].status).Pass?
    requires UnlockOfferIfNeeded(w.lending.ledger, w.offers[id]) == Ok(unlocked)
    requires settled.Cancelled? || settled.Expired?
    ensures Inv(StoreOffer(w, unlocked, id, w.offers[id].(status := settled), e))
  {
    var v := StoreOffer(w, unlocked, id, w.offers[id].(status := settled), e);
    var locked := OfferLocked(w.lending.ledger, id);
    assert OfferOk(w, id) && locked == ExpectedLock(w, id);
    if locked > 0 {
      MovedKeepsSupply(w.lending.ledger, unlocked, w.offers[id].loanAsset, VaultAddress, w.offers[id].lender, locked);
    }
    OfferChangeKeeps(w, v, id);
  }

  lemma CleanupOfferKeeps(w: World, signers: Signers, id: nat)
    requires Inv(w) && Marketplace.CleanupOffer(w, signers, id).Ok?
    ensures Inv(Marketplace.CleanupOffer(w, signers, id).value)
  {
    var v := Marketplace.CleanupOffer(w, signers, id).value;
    assert OfferOk(w, id) && OfferLocked(w.lending.ledger, id) == ExpectedLock(w, id);
    OfferChangeKeeps(w, v, id);
  }

  lemma AcceptOfferKeeps(w: World, signers: Signers, id: nat, borrower: Address, collateral: i128)
    requires Inv(w) && Marketplace.AcceptOffer(w, signers, id, borrower, collateral).Ok?
    ensures Inv(Marketplace.AcceptOffer(w, signers, id, borrower, collateral).value)
  {
    var v := Marketplace.AcceptOffer(w, signers, id, borrower, collateral).value;
    var newId := w.lending.loanCount + 1;
    var offer := w.offers[id];
    assert OfferOk(w, id) && OfferLocked(w.lending.ledger, id) == ExpectedLock(w, id);
    RiskProperties.InterestNonNegative(offer.loanAmount, offer.fixedAprBps, offer.durationDays);
    assert newId !in w.lending.loans by {
      assert newId in w.lending.loans ==> LoanOk(w.lending, newId);
    }
    assert v.lending.loans == w.lending.loans[newId := v.lending.loans[newId]];
    assert LoanOk(v.lending, newId) && LoanFromOffer(v, newId);
    forall l | l in w.lending.loans ensures w.lending.loans[l].offerId != id {
      assert LoanFromOffer(w, l);
    }
    NewLoanKeeps(w, v, id, newId);
  }

  lemma NewLoanKeeps(w: World, v: World, id: nat, newId: nat)
    requires Inv(w) && id in w.offers && w.offers[id].status.Active?
    requires newId !in w.lending.loans && newId in v.lending.loans
    requires v.lending == w.lending.(ledger := v.lending.ledger, loans := v.lending.loans, loanCount := v.lending.loanCount)
    requires v.lending.loans == w.lending.loans[newId := v.lending.loans[newId]]
    requires v.lending.loans[newId].status.PendingCollateral? && v.lending.loans[newId].offerId == id
    requires v.lending.loanCount >= w.lending.loanCount && v.offerCount == w.offerCount
    requires v.offers == w.offers[id := w.offers[id].(status := Matched)]
    requires LoanOk(v.lending, newId) && LoanFromOffer(v, newId)
    requires forall l | l in w.lending.loans :: w.lending.loans[l].offerId != id
    requires CollateralSame(w.lending.ledger, v.lending.ledger) && OffersSame(w.lending.ledger, v.lending.ledger)
    requires v.lending.ledger.balances == w.lending.ledger.balances
    ensures Inv(v)
  {
    NewLoanKeepsOffers(w, v, id, newId);
    NewLoanKeepsCollateral(w.lending, v.lending, newId);
    forall l | l in v.lending.loans ensures LoanOk(v.lending, l) && LoanFromOffer(v, l) {
      if l != newId {
        LoanIsOk(w, l);
      }
    }
    forall o | o in v.offers ensures OfferOk(v, o) {
      assert OfferOk(w, o);
    }
  }

  lemma NewLoanKeepsCollateral(s: LendingState, t: LendingState, newId: nat)
    requires CollateralAgrees(s) && CollateralSame(s.ledger, t.ledger)
    requires newId !in s.loans && newId in t.loans && t.loans == s.loans[newId := t.loans[newId]]
    requires t.loans[newId].status.PendingCollateral?
    ensures CollateralAgrees(t)
  {
    forall l, a ensures Locked(t.ledger, l, a) == ExpectedLocked(t, l, a)
                && LoanCollateral(t.ledger, l) == ExpectedCollateral(t, l) {
      assert Locked(s.ledger, l, a) == ExpectedLocked(s, l, a);
      assert LoanCollateral(s.ledger, l) == ExpectedCollateral(s, l);
    }
  }

  lemma NewLoanKeepsOffers(w: World, v: World, id: nat, newId: nat)
    requires OffersAgree(w) && id in w.offers && w.offers[id].status.Active?
    requires newId !in w.lending.loans && newId in v.lending.loans
    requires v.lending.loans == w.lending.loans[newId := v.lending.loans[newId]]
    requires v.lending.loans[newId].status.PendingCollateral? && v.lending.loans[newId].offerId == id
    requires v.offers == w.offers[id := w.offers[id].(status := Matched)]
    requires OffersSame(w.lending.ledger, v.lending.ledger)
    ensures OffersAgree(v)
  {
    assert IsPending(v, newId, id);
    forall o ensures OfferLocked(v.lending.ledger, o) == ExpectedLock(v, o) {
      assert OfferLocked(w.lending.ledger, o) == ExpectedLock(w, o);
      assert o != id ==> forall l :: IsPending(v, l, o) == IsPending(w, l, o);
    }
  }

  /** One loan changed; a waiting loan may have been opened, which frees its offer's escrow. */
  ghost predicate LoanChanged(w: World, v: World, id: nat) {
    && id in w.lending.loans && id in v.lending.loans
    && v == w.(lending := w.lending.(ledger := v.lending.ledger, loans := v.lending.loans))
    && v.lending.loans == w.lending.loans[id := v.lending.loans[id]]
    && v.lending.loans[id].offerId == w.lending.loans[id].offerId
    && (v.lending.loans[id].status.PendingCollateral? ==> v.lending.loans[id] == w.lending.loans[id])
  }

  ghost predicate OffersAfterLoanChange(w: World, v: World, id: nat)
    requires LoanChanged(w, v, id)
  {
    var before, after := w.lending.loans[id], v.lending.loans[id];
    var activated := before.status.PendingCollateral? && !after.status.PendingCollateral?;
    forall o :: OfferLocked(v.lending.ledger, o)
                == if activated && o == before.offerId then 0 else OfferLocked(w.lending.ledger, o)
  }

  ghost predicate CollateralAfterLoanChange(w: World, v: World, id: nat)
    requires LoanChanged(w, v, id)
  {
    var after := v.lending.loans[id];
    && (forall l :: LoanCollateral(v.lending.ledger, l)
                    == if l == id then Escrowed(after) else LoanCollateral(w.lending.ledger, l))
    && (forall l, a :: Locked(v.lending.ledger, l, a)
                       == if l != id then Locked(w.lending.ledger, l, a)
                          else if a == after.collateralAsset then Escrowed(after) else 0)
  }

  lemma LoanChangeKeepsOffers(w: World, v: World, id: nat)
    requires OffersAgree(w) && OneLoanPerOffer(w) && LoanChanged(w, v, id) && OffersAfterLoanChange(w, v, id)
    requires LoanFromOffer(w, id)
    ensures OffersAgree(v)
  {
    forall o ensures OfferLocked(v.lending.ledger, o) == ExpectedLock(v, o) {
      assert OfferLocked(w.lending.ledger, o) == ExpectedLock(w, o);
      assert forall l :: l != id ==> IsPending(v, l, o) == IsPending(w, l, o);
      if IsPending(w, id, o) && !IsPending(v, id, o) {
        assert !HasPending(v, o);
      } else {
        assert IsPending(v, id, o) == IsPending(w, id, o);
        assert HasPending(v, o) == HasPending(w, o);
      }
    }
  }

  lemma LoanChangeKeepsCollateral(w: World, v: World, id: nat)
    requires CollateralAgrees(w.lending) && LoanChanged(w, v, id) && CollateralAfterLoanChange(w, v, id)
    ensures CollateralAgrees(v.lending)
  {
    forall l, a ensures Locked(v.lending.ledger, l, a) == ExpectedLocked(v.lending, l, a)
                && LoanCollateral(v.lending.ledger, l) == ExpectedCollateral(v.lending, l) {
      assert Locked(w.lending.ledger, l, a) == ExpectedLocked(w.lending, l, a);
      assert LoanCollateral(w.lending.ledger, l) == ExpectedCollateral(w.lending, l);
    }
  }

  /** A step that touches one loan keeps the invariant if it does so there. */
  lemma LoanChangeKeeps(w: World, v: World, id: nat)
    requires Inv(w) && LoanChanged(w, v, id)
    requires LoanOk(v.lending, id) && LoanFromOffer(v, id)
    requires OffersAfterLoanChange(w, v, id) && CollateralAfterLoanChange(w, v, id)
    requires SupplyOk(v.lending.ledger)
    ensures Inv(v)
  {
    LoanIsOk(w, id);
    LoanChangeKeepsOffers(w, v, id);
    LoanChangeKeepsCollateral(w, v, id);
    forall l | l in v.lending.loans ensures LoanOk(v.lending, l) && LoanFromOffer(v, l) {
      if l != id {
        LoanIsOk(w, l);
        assert v.lending.loans[l] == w.lending.loans[l];
      }
    }
    forall o | o in v.offers ensures OfferOk(v, o) {
      assert OfferOk(w, o);
    }
  }

  lemma ActivateLoanKeeps(w: World, signers: Signers, id: nat)
    requires Inv(w) && LoanManager.ActivateLoan(w.lending, signers, id).Ok?
    ensures Inv(w.(lending := LoanManager.ActivateLoan(w.lending, signers, id).value))
  {
    var locked, paid, open := ActivateShape(w.lending, signers, id);
    LoanIsOk(w, id);
    OpenedKeeps(w, signers, id, locked, paid, open, LoanActivated(id, open.outstandingDebt));
  }

  lemma OpenedKeeps(
    w: World, signers: Signers, id: nat, locked: LedgerState, paid: LedgerState, open: Loan, e: Event)
    requires Inv(w) && id in w.lending.loans && LoanOk(w.lending, id)
    requires Opened(w.lending, signers, id, locked, paid, open)
    ensures Inv(w.(lending := Store(w.lending, paid, id, open, e)))
  {
    var s, t := w.lending, Store(w.lending, paid, id, open, e);
    var loan := s.loans[id];
    EscrowOf(w, id);
    MovedKeepsSupply(s.ledger, locked, loan.collateralAsset, loan.borrower, VaultAddress, loan.collateralAmount);
    MovedKeepsSupply(locked, paid, loan.loanAsset, VaultAddress, loan.borrower, loan.principal);
    OpenedBooks(s, signers, id, locked, paid, open);
    LoanChangeKeeps(w, w.(lending := t), id);
  }

  lemma OpenedBooks(s: LendingState, signers: Signers, id: nat, locked: LedgerState, paid: LedgerState, open: Loan)
    requires id in s.loans && LoanOk(s, id) && Opened(s, signers, id, locked, paid, open)
    ensures forall t: LendingState | id in t.loans && t.loans[id] == open && t.now == s.now && t.loanCount == s.loanCount ::
              LoanOk(t, id)
  {
  }

  /** What the Vault holds for a loan, and for its offer while the loan is waiting. */
  lemma EscrowOf(w: World, id: nat)
    requires Inv(w) && id in w.lending.loans
    ensures LoanCollateral(w.lending.ledger, id) == Escrowed(w.lending.loans[id])
    ensures forall a :: Locked(w.lending.ledger, id, a)
                        == if a == w.lending.loans[id].collateralAsset then Escrowed(w.lending.loans[id]) else 0
    ensures w.lending.loans[id].status.PendingCollateral? ==>
              OfferLocked(w.lending.ledger, w.lending.loans[id].offerId) == w.lending.loans[id].principal
  {
    var s := w.lending;
    assert LoanCollateral(s.ledger, id) == ExpectedCollateral(s, id);
    assert forall a :: Locked(s.ledger, id, a) == ExpectedLocked(s, id, a);
    var loan := s.loans[id];
    if loan.status.PendingCollateral? {
      assert LoanFromOffer(w, id) && IsPending(w, id, loan.offerId);
      assert OfferLocked(s.ledger, loan.offerId) == ExpectedLock(w, loan.offerId);
    }
  }

  /** The two transfers of an activation, and the loan it opens. */
  ghost predicate Opened(
    s: LendingState, signers: Signers, id: nat, locked: LedgerState, paid: LedgerState, open: Loan)
    requires id in s.loans
  {
    var loan := s.loans[id];
    && loan.status.PendingCollateral?
    && loan.borrower in signers
    && Vault.LockBorrowerCollateral(
         s.ledger, signers, id, loan.borrower, loan.collateralAsset, loan.collateralAmount) == Ok(locked)
    && Vault.TransferLoanAssetToBorrower(
         locked, loan.offerId, id, loan.borrower, loan.loanAsset, loan.principal) == Ok(paid)
    && open.dueTime == s.now + loan.durationDays * SECONDS_PER_DAY
    && open == loan.(startTime := s.now, dueTime := open.dueTime, status := LoanStatus.Active)
  }

  /** Activation always opens a loan as Active: the gate is the same comparison as the status. */
  lemma ActivateShape(s: LendingState, signers: Signers, id: nat)
    returns (locked: LedgerState, paid: LedgerState, open: Loan)
    requires LoanManager.ActivateLoan(s, signers, id).Ok?
    ensures id in s.loans && Opened(s, signers, id, locked, paid, open)
    ensures LoanManager.ActivateLoan(s, signers, id)
         == Ok(Store(s, paid, id, open, LoanActivated(id, open.outstandingDebt)))
    ensures CalculateHealthFactor(s, s.loans[id]).Ok?
    ensures CalculateHealthFactor(s, s.loans[id]).value >= EffectiveMinHf(s.loans[id])
    ensures CalculateLtv(s, s.loans[id]).Ok? && CalculateLtv(s, s.loans[id]).value <= s.loans[id].maxLtvBps
  {
    var loan := s.loans[id];
    locked := Vault.LockBorrowerCollateral(
      s.ledger, signers, id, loan.borrower, loan.collateralAsset, loan.collateralAmount).value;
    paid := Vault.TransferLoanAssetToBorrower(
      locked, loan.offerId, id, loan.borrower, loan.loanAsset, loan.principal).value;
    open := loan.(startTime := s.now, dueTime := s.now + loan.durationDays * SECONDS_PER_DAY,
                  status := LoanStatus.Active);
  }

  lemma UpdateStatusOk(s: LendingState, loan: Loan)
    requires UpdateStatus(s, loan).Ok? && Mutable(loan.status) && loan.outstandingDebt > 0
    requires loan.startTime <= s.now && loan.dueTime == loan.startTime + loan.durationDays * SECONDS_PER_DAY
    ensures var updated := UpdateStatus(s, loan).value;
            && updated == loan.(status := updated.status)
            && Mutable(updated.status)
            && ClockOk(updated, s.now)
  {
  }

  lemma RefreshKeeps(w: World, id: nat)
    requires Inv(w) && LoanManager.RefreshLoanState(w.lending, id).Ok?
    ensures Inv(w.(lending := LoanManager.RefreshLoanState(w.lending, id).value))
  {
    var s, t := w.lending, LoanManager.RefreshLoanState(w.lending, id).value;
    LoanIsOk(w, id);
    EscrowOf(w, id);
    if Mutable(s.loans[id].status) {
      UpdateStatusOk(s, s.loans[id]);
    }
    LoanChangeKeeps(w, w.(lending := t), id);
  }

  lemma AddCollateralShape(s: LendingState, signers: Signers, id: nat, amount: i128)
    returns (locked: LedgerState, grown: Loan)
    requires LoanManager.AddCollateral(s, signers, id, amount).Ok?
    ensures id in s.loans && Mutable(s.loans[id].status) && s.loans[id].borrower in signers && amount > 0
    ensures Vault.LockBorrowerCollateral(
              s.ledger, signers, id, s.loans[id].borrower, s.loans[id].collateralAsset, amount) == Ok(locked)
    ensures grown.collateralAmount == s.loans[id].collateralAmount + amount
    ensures grown == s.loans[id].(collateralAmount := grown.collateralAmount)
    ensures UpdateStatus(s, grown).Ok?
    ensures LoanManager.AddCollateral(s, signers, id, amount)
         == Ok(Store(s, locked, id, UpdateStatus(s, grown).value, CollateralAdded(id, amount)))
  {
    var loan := s.loans[id];
    locked := Vault.LockBorrowerCollateral(
      s.ledger, signers, id, loan.borrower, loan.collateralAsset, amount).value;
    grown := loan.(collateralAmount := loan.collateralAmount + amount);
  }

  lemma AddCollateralKeeps(w: World, signers: Signers, id: nat, amount: i128)
    requires Inv(w) && LoanManager.AddCollateral(w.lending, signers, id, amount).Ok?
    ensures Inv(w.(lending := LoanManager.AddCollateral(w.lending, signers, id, amount).value))
  {
    var s := w.lending;
    var locked, grown := AddCollateralShape(s, signers, id, amount);
    LoanIsOk(w, id);
    UpdateStatusOk(s, grown);
    MovedKeepsSupply(s.ledger, locked, grown.collateralAsset, grown.borrower, VaultAddress, amount);
    TouchedLoanKeeps(w, id, locked, grown, UpdateStatus(s, grown).value.status, CollateralAdded(id, amount));
  }

  /** A mutable loan whose books and escrow change by the same amount stays in order. */
  lemma TouchedLoanKeeps(w: World, id: nat, ledger: LedgerState, touched: Loan, status: LoanStatus, e: Event)
    requires Inv(w) && id in w.lending.loans && Mutable(w.lending.loans[id].status) && Mutable(status)
    requires var loan := w.lending.loans[id];
             && touched == loan.(outstandingDebt := touched.outstandingDebt, collateralAmount := touched.collateralAmount)
             && touched.outstandingDebt > 0 && touched.collateralAmount >= 0
             && Vault.CollateralChanged(w.lending.ledger, ledger, id, loan.collateralAsset,
                                        touched.collateralAmount - loan.collateralAmount)
    requires ClockOk(touched.(status := status), w.lending.now)
    requires OffersSame(w.lending.ledger, ledger) && SupplyOk(ledger)
    ensures Inv(w.(lending := Store(w.lending, ledger, id, touched.(status := status), e)))
  {
    var s := w.lending;
    var t := Store(s, ledger, id, touched.(status := status), e);
    LoanIsOk(w, id);
    EscrowOf(w, id);
    assert LoanOk(t, id);
    LoanChangeKeeps(w, w.(lending := t), id);
  }

  /** What settling a loan in full does, whichever entry point does it. */
  lemma ReleaseKeeps(w: World, id: nat, paid: LedgerState, released: Released, e: Event)
    requires Inv(w) && id in w.lending.loans && Mutable(w.lending.loans[id].status)
    requires OffersSame(w.lending.ledger, paid) && CollateralSame(w.lending.ledger, paid) && SupplyOk(paid)
    requires ReleaseAllCollateral(paid, w.lending.loans[id].(outstandingDebt := 0)) == Ok(released)
    ensures Inv(w.(lending := Store(w.lending, released.ledger, id, released.loan.(status := Repaid), e)))
  {
    var s := w.lending;
    var loan := s.loans[id];
    var t := Store(s, released.ledger, id, released.loan.(status := Repaid), e);
    LoanIsOk(w, id);
    EscrowOf(w, id);
    if loan.collateralAmount != 0 {
      MovedKeepsSupply(paid, released.ledger, loan.collateralAsset, VaultAddress, loan.borrower, loan.collateralAmount);
    }
    LoanChangeKeeps(w, w.(lending := t), id);
  }

  /** The payment of a repayment by the borrower, and the loan before its status is refreshed. */
  ghost predicate Repaying(s: LendingState, signers: Signers, id: nat, repay: int, paid: LedgerState, less: Loan)
    requires id in s.loans
  {
    var loan := s.loans[id];
    && Mutable(loan.status)
    && loan.borrower in signers
    && Vault.CollectRepaymentFrom(
         s.ledger, signers, id, loan.borrower, loan.lender, loan.loanAsset, repay) == Ok(paid)
    && less.outstandingDebt == loan.outstandingDebt - repay
    && less == loan.(outstandingDebt := less.outstandingDebt)
  }

  lemma PartialRepayShape(s: LendingState, signers: Signers, id: nat, amount: i128)
    returns (repay: i128, paid: LedgerState, less: Loan)
    requires LoanManager.PartialRepay(s, signers, id, amount).Ok?
    ensures id in s.loans && Repaying(s, signers, id, repay, paid, less)
    ensures repay == Min(amount, s.loans[id].outstandingDebt)
    ensures less.outstandingDebt == 0 ==>
              && ReleaseAllCollateral(paid, less).Ok?
              && LoanManager.PartialRepay(s, signers, id, amount)
                 == Ok(Store(s, ReleaseAllCollateral(paid, less).value.ledger, id,
                             ReleaseAllCollateral(paid, less).value.loan.(status := Repaid),
                             PartialRepaid(id, repay)))
    ensures less.outstandingDebt != 0 ==>
              && UpdateStatus(s, less).Ok?
              && LoanManager.PartialRepay(s, signers, id, amount)
                 == Ok(Store(s, paid, id, UpdateStatus(s, less).value, PartialRepaid(id, repay)))
  {
    var loan := s.loans[id];
    repay := Min(amount, loan.outstandingDebt);
    paid := Vault.CollectRepaymentFrom(
      s.ledger, signers, id, loan.borrower, loan.lender, loan.loanAsset, repay).value;
    less := loan.(outstandingDebt := loan.outstandingDebt - repay);
  }

  lemma PartialRepayKeeps(w: World, signers: Signers, id: nat, amount: i128)
    requires Inv(w) && LoanManager.PartialRepay(w.lending, signers, id, amount).Ok?
    ensures Inv(w.(lending := LoanManager.PartialRepay(w.lending, signers, id, amount).value))
  {
    var s := w.lending;
    var repay, paid, less := PartialRepayShape(s, signers, id, amount);
    LoanIsOk(w, id);
    MovedKeepsSupply(s.ledger, paid, less.loanAsset, less.borrower, less.lender, repay);
    if less.outstandingDebt == 0 {
      ReleaseKeeps(w, id, paid, ReleaseAllCollateral(paid, less).value, PartialRepaid(id, repay));
    } else {
      UpdateStatusOk(s, less);
      TouchedLoanKeeps(w, id, paid, less, UpdateStatus(s, less).value.status, PartialRepaid(id, repay));
    }
  }

  /** A full repayment has the shape of a partial one that leaves no debt. */
  lemma FullRepayShape(s: LendingState, signers: Signers, id: nat) returns (paid: LedgerState, less: Loan)
    requires LoanManager.FullRepay(s, signers, id).Ok?
    requires id in s.loans ==> s.loans[id].outstandingDebt > 0
    ensures id in s.loans && Repaying(s, signers, id, s.loans[id].outstandingDebt, paid, less)
    ensures ReleaseAllCollateral(paid, less).Ok?
    ensures LoanManager.FullRepay(s, signers, id)
         == Ok(Store(s, ReleaseAllCollateral(paid, less).value.ledger, id,
                     ReleaseAllCollateral(paid, less).value.loan.(status := Repaid),
                     LoanRepaid(id, s.loans[id].outstandingDebt)))
  {
    var loan := s.loans[id];
    paid := Vault.CollectRepaymentFrom(
      s.ledger, signers, id, loan.borrower, loan.lender, loan.loanAsset, loan.outstandingDebt).value;
    less := loan.(outstandingDebt := 0);
  }

  lemma FullRepayTouchesMutable(s: LendingState, signers: Signers, id: nat)
    requires LoanManager.FullRepay(s, signers, id).Ok?
    ensures id in s.loans && Mutable(s.loans[id].status)
  {
  }

  lemma FullRepayKeeps(w: World, signers: Signers, id: nat)
    requires Inv(w) && LoanManager.FullRepay(w.lending, signers, id).Ok?
    ensures Inv(w.(lending := LoanManager.FullRepay(w.lending, signers, id).value))
  {
    LoanIsOk(w, id);
    var paid, less := FullRepayShape(w.lending, signers, id);
    var repay := w.lending.loans[id].outstandingDebt;
    MovedKeepsSupply(w.lending.ledger, paid, less.loanAsset, less.borrower, less.lender, repay);
    ReleaseKeeps(w, id, paid, ReleaseAllCollateral(paid, less).value, LoanRepaid(id, repay));
  }

  lemma MarkKeeps(w: World, id: nat, t: LendingState)
    requires Inv(w)
    requires LoanManager.MarkExpired(w.lending, id) == Ok(t) || LoanManager.MarkDefaulted(w.lending, id) == Ok(t)
    ensures Inv(w.(lending := t))
  {
    LoanIsOk(w, id);
    EscrowOf(w, id);
    LoanChangeKeeps(w, w.(lending := t), id);
  }

  /** A quote repays at least one unit and at most half of the debt, rounded down. */
  lemma QuoteBounds(s: LendingState, loan: Loan, amount: i128)
    requires loan.outstandingDebt > 0 && LiquidationQuote(s, loan, amount).Ok?
    ensures var q := LiquidationQuote(s, loan, amount).value;
            && 0 < q.repay == Min(amount, loan.outstandingDebt / 2)
            && CalculateSeizeCollateral(s, loan, q.repay) == Ok(q.seized)
    ensures CalculateHealthFactor(s, loan).Ok?
    ensures CalculateHealthFactor(s, loan).value < LIQUIDATION_HEALTH_FACTOR_BPS || loan.status.Defaulted?
  {
    RiskProperties.CloseFactorIsHalf(loan.outstandingDebt);
  }

  /** The two transfers of a liquidation, and the loan it leaves before its status is refreshed. */
  ghost predicate Seized(
    s: LendingState, signers: Signers, id: nat, liquidator: Address, q: Quote, taken: LedgerState, less: Loan)
    requires id in s.loans
  {
    var loan := s.loans[id];
    var paid := Vault.CollectRepaymentFrom(
                  s.ledger, signers, id, liquidator, loan.lender, loan.loanAsset, q.repay);
    && paid.Ok?
    && Vault.TransferCollateralToLiquidator(paid.value, id, liquidator, loan.collateralAsset, q.seized) == Ok(taken)
    && loan.outstandingDebt - q.repay == less.outstandingDebt
    && loan.collateralAmount - q.seized == less.collateralAmount
    && less == loan.(outstandingDebt := less.outstandingDebt, collateralAmount := less.collateralAmount)
  }

  /**
   * The shape of every successful liquidation: some debt always remains, so the branch that
   * would close the loan as Liquidated is never taken.
   */
  lemma LiquidateShape(s: LendingState, signers: Signers, id: nat, liquidator: Address, amount: i128)
    returns (q: Quote, taken: LedgerState, less: Loan)
    requires id in s.loans && s.loans[id].outstandingDebt > 0
    requires LoanManager.Liquidate(s, signers, id, liquidator, amount).Ok?
    ensures Mutable(s.loans[id].status) && liquidator in signers
    ensures LiquidationQuote(s, s.loans[id], amount) == Ok(q)
    ensures Seized(s, signers, id, liquidator, q, taken, less)
    ensures less.outstandingDebt > 0 && UpdateStatus(s, less).Ok?
    ensures LoanManager.Liquidate(s, signers, id, liquidator, amount)
         == Ok(Store(s, taken, id, UpdateStatus(s, less).value, LoanLiquidated(id, liquidator, q.repay)))
  {
    q := LiquidationQuote(s, s.loans[id], amount).value;
    QuoteBounds(s, s.loans[id], amount);
    taken, less := QuoteShape(s, signers, id, liquidator, q);
  }

  lemma QuoteShape(s: LendingState, signers: Signers, id: nat, liquidator: Address, q: Quote)
    returns (taken: LedgerState, less: Loan)
    requires id in s.loans && 0 < q.repay < s.loans[id].outstandingDebt && 0 <= q.seized <= s.loans[id].collateralAmount
    requires ApplyQuote(s, signers, id, liquidator, s.loans[id], q).Ok?
    ensures Seized(s, signers, id, liquidator, q, taken, less)
    ensures less.outstandingDebt > 0 && UpdateStatus(s, less).Ok?
    ensures ApplyQuote(s, signers, id, liquidator, s.loans[id], q)
         == Ok(Store(s, taken, id, UpdateStatus(s, less).value, LoanLiquidated(id, liquidator, q.repay)))
  {
    var loan := s.loans[id];
    var paid := Vault.CollectRepaymentFrom(
                  s.ledger, signers, id, liquidator, loan.lender, loan.loanAsset, q.repay).value;
    taken := Vault.TransferCollateralToLiquidator(paid, id, liquidator, loan.collateralAsset, q.seized).value;
    less := loan.(outstandingDebt := loan.outstandingDebt - q.repay,
                  collateralAmount := loan.collateralAmount - q.seized);
  }

  lemma LiquidateTouchesMutable(s: LendingState, signers: Signers, id: nat, liquidator: Address, amount: i128)
    requires LoanManager.Liquidate(s, signers, id, liquidator, amount).Ok?
    ensures id in s.loans && Mutable(s.loans[id].status)
  {
  }

  lemma SeizureKeeps(
    w: World, signers: Signers, id: nat, liquidator: Address, q: Quote, taken: LedgerState, less: Loan, e: Event)
    requires Inv(w) && id in w.lending.loans && Mutable(w.lending.loans[id].status)
    requires Seized(w.lending, signers, id, liquidator, q, taken, less)
    requires less.outstandingDebt > 0 && less.collateralAmount >= 0 && UpdateStatus(w.lending, less).Ok?
    ensures Inv(w.(lending := Store(w.lending, taken, id, UpdateStatus(w.lending, less).value, e)))
  {
    var s := w.lending;
    var loan := s.loans[id];
    var paid := Vault.CollectRepaymentFrom(
                  s.ledger, signers, id, liquidator, loan.lender, loan.loanAsset, q.repay).value;
    assert LoanOk(s, id);
    UpdateStatusOk(s, less);
    MovedKeepsSupply(s.ledger, paid, loan.loanAsset, liquidator, loan.lender, q.repay);
    MovedKeepsSupply(paid, taken, loan.collateralAsset, VaultAddress, liquidator, q.seized);
    TouchedLoanKeeps(w, id, taken, less, UpdateStatus(s, less).value.status, e);
  }

  lemma LiquidateKeeps(w: World, signers: Signers, id: nat, liquidator: Address, amount: i128)
    requires Inv(w) && LoanManager.Liquidate(w.lending, signers, id, liquidator, amount).Ok?
    ensures Inv(w.(lending := LoanManager.Liquidate(w.lending, signers, id, liquidator, amount).value))
  {
    LoanIsOk(w, id);
    var q, taken, less := LiquidateShape(w.lending, signers, id, liquidator, amount);
    SeizureKeeps(w, signers, id, liquidator, q, taken, less, LoanLiquidated(id, liquidator, q.repay));
  }

  lemma CleanupLoanKeeps(w: World, signers: Signers, id: nat)
    requires Inv(w) && LoanManager.CleanupLoan(w.lending, signers, id).Ok?
    ensures Inv(w.(lending := LoanManager.CleanupLoan(w.lending, signers, id).value))
  {
    var v := w.(lending := LoanManager.CleanupLoan(w.lending, signers, id).value);
    assert LoanOk(w.lending, id);
    assert forall l, o :: IsPending(v, l, o) == IsPending(w, l, o);
    PendingSame(w, v);
    forall o ensures OfferLocked(v.lending.ledger, o) == ExpectedLock(v, o) {
      assert OfferLocked(w.lending.ledger, o) == ExpectedLock(w, o);
    }
    forall l, a ensures Locked(v.lending.ledger, l, a) == ExpectedLocked(v.lending, l, a)
                && LoanCollateral(v.lending.ledger, l) == ExpectedCollateral(v.lending, l) {
      assert Locked(w.lending.ledger, l, a) == ExpectedLocked(w.lending, l, a);
      assert LoanCollateral(w.lending.ledger, l) == ExpectedCollateral(w.lending, l);
    }
    forall l | l in v.lending.loans ensures LoanOk(v.lending, l) && LoanFromOffer(v, l) {
      assert LoanOk(w.lending, l) && LoanFromOffer(w, l);
    }
    forall o | o in v.offers ensures OfferOk(v, o) {
      assert OfferOk(w, o);
    }
  }

  /** A step that changes balances, prices or the clock, but no record of the contracts. */
  lemma OutsideKeeps(w: World, v: World)
    requires Inv(w)
    requires v == w.(lending := v.lending) && v.lending.loans == w.lending.loans
    requires v.lending.loanCount == w.lending.loanCount
    requires OffersSame(w.lending.ledger, v.lending.ledger) && CollateralSame(w.lending.ledger, v.lending.ledger)
    requires v.lending.now >= w.lending.now
    requires ValidPrices(v.lending.prices, v.lending.now) && SupplyOk(v.lending.ledger)
    ensures Inv(v)
  {
    assert forall l, o :: IsPending(v, l, o) == IsPending(w, l, o);
    PendingSame(w, v);
    forall o ensures OfferLocked(v.lending.ledger, o) == ExpectedLock(v, o) {
      assert OfferLocked(w.lending.ledger, o) == ExpectedLock(w, o);
    }
    SameLoansKeepCollateral(w.lending, v.lending);
    forall l | l in v.lending.loans ensures LoanOk(v.lending, l) && LoanFromOffer(v, l) {
      assert LoanOk(w.lending, l) && LoanFromOffer(w, l);
    }
    forall o | o in v.offers ensures OfferOk(v, o) {
      assert OfferOk(w, o);
    }
  }

  lemma OutsideCallKeeps(w: World, tx: Tx)
    requires Inv(w) && Execute(w, tx).Ok?
    requires tx.call.SetPrice? || tx.call.Withdraw? || tx.call.TransferTokens? || tx.call.Tick?
    ensures Inv(Execute(w, tx).value)
  {
    var v := Execute(w, tx).value;
    match tx.call {
      case Withdraw(asset, recipient, amount) =>
        MovedKeepsSupply(w.lending.ledger, v.lending.ledger, asset, VaultAddress, recipient, amount);
      case TransferTokens(asset, sender, recipient, amount) =>
        MovedKeepsSupply(w.lending.ledger, v.lending.ledger, asset, sender, recipient, amount);
      case _ =>
    }
    OutsideKeeps(w, v);
  }

  /** Every transaction, successful or rolled back, keeps the invariant. */
  lemma StepKeepsInvariant(w: World, tx: Tx)
    requires Inv(w)
    ensures Inv(Step(w, tx))
  {
    if Execute(w, tx).Ok? {
      match tx.call
      case CreateOffer(terms) => CreateOfferKeeps(w, tx.signers, terms);
      case FundOffer(id) => FundOfferKeeps(w, tx.signers, id);
      case ActivateOffer(id) => ActivateOfferKeeps(w, tx.signers, id);
      case CancelOffer(id) =>
        SettleKeeps(w, id, UnlockOfferIfNeeded(w.lending.ledger, w.offers[id]).value, Cancelled,
                    OfferCancelled(id, w.offers[id].loanAmount));
      case ExpireOffer(id) =>
        SettleKeeps(w, id, UnlockOfferIfNeeded(w.lending.ledger, w.offers[id]).value, OfferStatus.Expired,
                    OfferExpired(id, w.offers[id].loanAmount));
      case AcceptOffer(id, borrower, collateral) => AcceptOfferKeeps(w, tx.signers, id, borrower, collateral);
      case CleanupOffer(id) => CleanupOfferKeeps(w, tx.signers, id);
      case ActivateLoan(id) => ActivateLoanKeeps(w, tx.signers, id);
      case RefreshLoanState(id) => RefreshKeeps(w, id);
      case AddCollateral(id, amount) => AddCollateralKeeps(w, tx.signers, id, amount);
      case PartialRepay(id, amount) => PartialRepayKeeps(w, tx.signers, id, amount);
      case FullRepay(id) => FullRepayKeeps(w, tx.signers, id);
      case MarkExpired(id) => MarkKeeps(w, id, LoanManager.MarkExpired(w.lending, id).value);
      case MarkDefaulted(id) => MarkKeeps(w, id, LoanManager.MarkDefaulted(w.lending, id).value);
      case Liquidate(id, liquidator, amount) => LiquidateKeeps(w, tx.signers, id, liquidator, amount);
      case CleanupLoan(id) => CleanupLoanKeeps(w, tx.signers, id);
      case _ => OutsideCallKeeps(w, tx);
    }
  }

  lemma GenesisInvariant(w: World)
    requires Genesis(w)
    ensures Inv(w)
  {
    assert forall l, o :: !IsPending(w, l, o);
  }

  lemma {:induction false} RunKeepsInvariant(w: World, txs: seq<Tx>)
    requires Inv(w)
    ensures Inv(Run(w, txs))
    decreases |txs|
  {
    if txs != [] {
      StepKeepsInvariant(w, txs[0]);
      RunKeepsInvariant(Step(w, txs[0]), txs[1..]);
    }
  }

  /** The invariant holds in every reachable state. */
  lemma ReachableInvariant(w: World)
    requires Reachable(w)
    ensures Inv(w)
  {
    var start, txs :| Genesis(start) && w == Run(start, txs);
    GenesisInvariant(start);
    RunKeepsInvariant(start, txs);
  }
}
