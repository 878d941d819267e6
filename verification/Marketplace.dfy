/** The Marketplace contract: the life of a lender's offer up to its acceptance. */
module Marketplace {
  import opened Shared
  import opened Ledger
  import opened LoanManager
  import Vault

  const MAX_LIQUIDATION_BONUS_BPS := 5_000

  /** Everything the protocol stores. */
  datatype World = World(lending: LendingState, offers: map<nat, LoanOffer>, offerCount: u64)

  /** What a lender submits. */
  datatype Terms = Terms(
    lender: Address,
    loanAsset: Asset,
    loanAmount: i128,
    fixedAprBps: u32,
    durationDays: u32,
    collateralAsset: Asset,
    maxLtvBps: u32,
    liquidationThresholdBps: u32,
    liquidationBonusBps: u32,
    gracePeriodDays: u32,
    minHealthFactorBps: u32)

  function ValidateOfferInput(t: Terms): Outcome {
    if t.loanAsset == t.collateralAsset then Fail(InvalidAssetPair)
    else if t.loanAmount <= 0 then Fail(InvalidLoanAmount)
    else if t.fixedAprBps == 0 || t.fixedAprBps > MAX_FIXED_APR_BPS then Fail(InvalidApr)
    else if t.durationDays == 0 then Fail(InvalidDuration)
    else if t.maxLtvBps == 0 || t.maxLtvBps > BPS_DENOMINATOR then Fail(InvalidMaxLtv)
    else if t.liquidationThresholdBps == 0 || t.liquidationThresholdBps > BPS_DENOMINATOR then
      Fail(InvalidLiquidationThreshold)
    else if t.liquidationBonusBps > MAX_LIQUIDATION_BONUS_BPS then Fail(InvalidLiquidationBonus)
    else if t.maxLtvBps > t.liquidationThresholdBps then Fail(LtvExceedsThreshold)
    else if t.minHealthFactorBps != 0 && t.minHealthFactorBps < SAFE_HEALTH_FACTOR_BPS then
      Fail(InvalidMinHealthFactor)
    else Pass
  }

  function GetOffer(w: World, id: nat): Result<LoanOffer> {
    if id in w.offers then Ok(w.offers[id]) else Err(OfferNotFound)
  }

  function WithLedger(w: World, ledger: LedgerState): World {
    w.(lending := w.lending.(ledger := ledger))
  }

  /** Stores the offer with the Vault's new state and publishes an event. */
  function StoreOffer(w: World, ledger: LedgerState, id: nat, offer: LoanOffer, e: Event): World {
    WithLedger(w, Publish(ledger, e)).(offers := w.offers[id := offer])
  }

  function NewOffer(id: nat, t: Terms): LoanOffer {
    LoanOffer(
      id, t.lender, t.loanAsset, t.loanAmount, t.fixedAprBps, t.durationDays, t.collateralAsset,
      t.maxLtvBps, t.liquidationThresholdBps,
      if t.liquidationBonusBps == 0 then DEFAULT_LIQUIDATION_BONUS_BPS else t.liquidationBonusBps,
      t.gracePeriodDays,
      if t.minHealthFactorBps == 0 then SAFE_HEALTH_FACTOR_BPS else t.minHealthFactorBps,
      Draft)
  }

  function CreateOffer(w: World, signers: Signers, t: Terms): Result<World> {
    if t.lender !in signers then Err(Unauthorized)
    else
      :- ValidateOfferInput(t);
      :- Need(w.offerCount < U64_MAX, Overflow);
      var id := w.offerCount + 1;
      Ok(StoreOffer(w, w.lending.ledger, id, NewOffer(id, t), OfferCreated(id, t.lender, t.loanAmount))
         .(offerCount := id))
  }

  function FundOffer(w: World, signers: Signers, id: nat): Result<World> {
    var offer :- GetOffer(w, id);
    :- Need(offer.lender in signers, Unauthorized);
    :- Need(offer.status.Draft?, OfferNotDraft);
    var locked :- Vault.LockLenderFunds(
                    w.lending.ledger, signers, id, offer.lender, offer.loanAsset, offer.loanAmount);
    Ok(StoreOffer(w, locked, id, offer.(status := Funding), OfferFunded(id, offer.loanAmount)))
  }

  function ActivateOffer(w: World, signers: Signers, id: nat): Result<World> {
    var offer :- GetOffer(w, id);
    :- Need(offer.lender in signers, Unauthorized);
    :- Need(offer.status.Funding?, OfferNotFunded);
    :- Need(OfferLocked(w.lending.ledger, id) >= offer.loanAmount, InsufficientLockedFunds);
    Ok(StoreOffer(w, w.lending.ledger, id, offer.(status := OfferStatus.Active),
                  OfferActivated(id, offer.loanAmount)))
  }

  /** The guard that cancelling and expiring share. */
  function NotSettled(status: OfferStatus): Outcome {
    match status
    case Draft | Funding | Active => Pass
    case Matched => Fail(Error.OfferMatched)
    case Cancelled => Fail(OfferAlreadyCancelled)
    case Expired => Fail(OfferAlreadyExpired)
  }

  function UnlockOfferIfNeeded(s: LedgerState, offer: LoanOffer): Result<LedgerState> {
    var locked := OfferLocked(s, offer.offerId);
    if locked > 0 then Vault.UnlockLenderFunds(s, offer.offerId, offer.lender, offer.loanAsset, locked)
    else Ok(s)
  }

  function CancelOffer(w: World, signers: Signers, id: nat): Result<World> {
    var offer :- GetOffer(w, id);
    :- Need(offer.lender in signers, Unauthorized);
    :- NotSettled(offer.status);
    var unlocked :- UnlockOfferIfNeeded(w.lending.ledger, offer);
    Ok(StoreOffer(w, unlocked, id, offer.(status := Cancelled), OfferCancelled(id, offer.loanAmount)))
  }

  /** Anyone may expire an offer. */
  function ExpireOffer(w: World, id: nat): Result<World> {
    var offer :- GetOffer(w, id);
    :- NotSettled(offer.status);
    var unlocked :- UnlockOfferIfNeeded(w.lending.ledger, offer);
    Ok(StoreOffer(w, unlocked, id, offer.(status := OfferStatus.Expired), OfferExpired(id, offer.loanAmount)))
  }

  function AcceptOffer(w: World, signers: Signers, id: nat, borrower: Address, collateral: i128): Result<World> {
    if borrower !in signers then Err(Unauthorized)
    else
      :- Need(collateral > 0, InvalidCollateralAmount);
      var offer :- GetOffer(w, id);
      :- Need(borrower != offer.lender, BorrowerIsLender);
      :- Need(offer.status.Active?, OfferNotActive);
      var created :- CreatePendingLoanFromOffer(w.lending, offer, borrower, collateral);
      var matched := w.(lending := created.state);
      Ok(StoreOffer(matched, created.state.ledger, id, offer.(status := Matched),
                    Event.OfferMatched(id, borrower, created.loanId)))
  }

  function CleanupOffer(w: World, signers: Signers, id: nat): Result<World> {
    if ADMIN !in signers then Err(Unauthorized)
    else
      var offer :- GetOffer(w, id);
      :- Need(offer.status.Matched? || offer.status.Cancelled? || offer.status.Expired?, OfferNotActive);
      :- Need(OfferLocked(w.lending.ledger, id) <= 0, InsufficientLockedFunds);
      Ok(WithLedger(w, Publish(w.lending.ledger, OfferCleaned(id))).(offers := w.offers - {id}))
  }
}
