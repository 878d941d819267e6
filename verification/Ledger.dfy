/** The Vault's storage together with the balances it moves and the events published so far. */
module Ledger {
  import opened Shared
  import opened Token

  datatype LedgerState = LedgerState(
    balances: Balances,
    offerLocked: map<nat, int>,
    loanCollateral: map<nat, int>,
    locked: map<(nat, Asset), int>,
    log: seq<Event>)

  function OfferLocked(s: LedgerState, offer: nat): int {
    if offer in s.offerLocked then s.offerLocked[offer] else 0
  }

  function LoanCollateral(s: LedgerState, loan: nat): int {
    if loan in s.loanCollateral then s.loanCollateral[loan] else 0
  }

  function Locked(s: LedgerState, loan: nat, asset: Asset): int {
    if (loan, asset) in s.locked then s.locked[(loan, asset)] else 0
  }

  ghost predicate OffersSame(s: LedgerState, t: LedgerState) {
    forall o :: OfferLocked(t, o) == OfferLocked(s, o)
  }

  ghost predicate CollateralSame(s: LedgerState, t: LedgerState) {
    && (forall l :: LoanCollateral(t, l) == LoanCollateral(s, l))
    && (forall l, a :: Locked(t, l, a) == Locked(s, l, a))
  }

  function Publish(s: LedgerState, e: Event): (t: LedgerState)
    ensures OffersSame(s, t) && CollateralSame(s, t) && t.balances == s.balances
  {
    s.(log := s.log + [e])
  }

  /** The quantities that events report, each counted per offer or per loan. `Parties` says between whom. */
  datatype Flow =
    | FundsIn          // lender funds locked for an offer
    | FundsOut         // lender funds returned for an offer
    | Disbursed        // principal paid out of an offer
    | Disbursals       // how often principal was paid out of an offer
    | Matches          // how often an offer was matched
    | Owed             // debt a loan was created with
    | Paid             // payments made towards a loan
    | Liquidations     // liquidations of a loan
    | CollateralIn     // collateral locked for a loan
    | CollateralSeized // collateral of a loan paid out in liquidations
    | CollateralOut    // collateral of a loan released

  function Amount(e: Event, flow: Flow, id: nat): int {
    match flow
    case FundsIn => if e.LenderFundsLocked? && e.offerId == id then e.amount else 0
    case FundsOut => if e.LenderFundsUnlocked? && e.offerId == id then e.amount else 0
    case Disbursed => if e.LoanAssetTransferred? && e.offerId == id then e.amount else 0
    case Disbursals => if e.LoanAssetTransferred? && e.offerId == id then 1 else 0
    case Matches => if e.OfferMatched? && e.offerId == id then 1 else 0
    case Owed => if e.LoanCreated? && e.loanId == id then e.amount else 0
    case Paid => if e.RepaymentTransferred? && e.loanId == id then e.amount else 0
    case Liquidations => if e.LoanLiquidated? && e.loanId == id then 1 else 0
    case CollateralIn => if e.CollateralLocked? && e.loanId == id then e.amount else 0
    case CollateralSeized => if e.CollateralToLiquidator? && e.loanId == id then e.amount else 0
    case CollateralOut => if e.CollateralReleased? && e.loanId == id then e.amount else 0
  }

  /** The total an event log reports for a flow. */
  function Total(log: seq<Event>, flow: Flow, id: nat): int {
    if log == [] then 0
    else Total(log[..|log| - 1], flow, id) + Amount(log[|log| - 1], flow, id)
  }

  lemma TotalOfPublish(log: seq<Event>, e: Event)
    ensures forall flow, id :: Total(log + [e], flow, id) == Total(log, flow, id) + Amount(e, flow, id)
  {
    assert (log + [e])[..|log|] == log;
  }

  /** The token movement an event stands for, as (asset, sender, recipient, amount). */
  datatype Movement = NoMovement | Move(asset: Asset, sender: Address, recipient: Address, amount: int)

  function MovementOf(e: Event): Movement {
    match e
    case LenderFundsLocked(_, lender, asset, amount) => Move(asset, lender, VaultAddress, amount)
    case LenderFundsUnlocked(_, lender, asset, amount) => Move(asset, VaultAddress, lender, amount)
    case CollateralLocked(_, borrower, asset, amount) => Move(asset, borrower, VaultAddress, amount)
    case CollateralReleased(_, borrower, asset, amount) => Move(asset, VaultAddress, borrower, amount)
    case LoanAssetTransferred(_, _, borrower, asset, amount) => Move(asset, VaultAddress, borrower, amount)
    case RepaymentTransferred(_, payer, lender, asset, amount) => Move(asset, payer, lender, amount)
    case CollateralToLiquidator(_, liquidator, asset, amount) => Move(asset, VaultAddress, liquidator, amount)
    case RepaymentPaidOut(_, lender, asset, amount) => Move(asset, VaultAddress, lender, amount)
    case Deposited(asset, sender, amount) => Move(asset, sender, VaultAddress, amount)
    case Withdrawn(asset, recipient, amount) => Move(asset, VaultAddress, recipient, amount)
    case TokenTransferred(asset, sender, recipient, amount) => Move(asset, sender, recipient, amount)
    case _ => NoMovement
  }

  function Gain(e: Event, asset: Asset, holder: Address): int {
    match MovementOf(e)
    case NoMovement => 0
    case Move(a, sender, recipient, amount) =>
      (if a == asset && holder == recipient then amount else 0)
      - (if a == asset && holder == sender then amount else 0)
  }

  /** What a log says a holder has gained of an asset. */
  function Gained(log: seq<Event>, asset: Asset, holder: Address): int {
    if log == [] then 0
    else Gained(log[..|log| - 1], asset, holder) + Gain(log[|log| - 1], asset, holder)
  }

  lemma GainedByPublish(log: seq<Event>, e: Event)
    ensures forall a, h :: Gained(log + [e], a, h) == Gained(log, a, h) + Gain(e, a, h)
  {
    assert (log + [e])[..|log|] == log;
  }
}
