/** Types, constants and events every contract of the protocol shares. */
module Shared {

  const I128_MAX: int := 0x7FFF_FFFF_FFFF_FFFF_FFFF_FFFF_FFFF_FFFF
  const U128_MAX: int := 0xFFFF_FFFF_FFFF_FFFF_FFFF_FFFF_FFFF_FFFF
  const U64_MAX: int := 0xFFFF_FFFF_FFFF_FFFF
  const U32_MAX: int := 0xFFFF_FFFF

  type i128 = x: int | -I128_MAX - 1 <= x <= I128_MAX
  type u32 = x: int | 0 <= x <= U32_MAX
  type u64 = x: int | 0 <= x <= U64_MAX

  const BPS_DENOMINATOR := 10_000
  const MAX_FIXED_APR_BPS := 2_000
  const SAFE_HEALTH_FACTOR_BPS := 14_000
  const LIQUIDATION_HEALTH_FACTOR_BPS := 12_000
  const CLOSE_FACTOR_BPS := 5_000
  const DEFAULT_LIQUIDATION_BONUS_BPS := 500
  const SECONDS_PER_DAY := 86_400

  type Asset = nat

  /** A token holder: the Vault, or an account outside the four contracts. */
  datatype Address = VaultAddress | Account(id: nat)

  /** The account that every contract was initialised with as its admin. */
  const ADMIN := Account(0)

  /** The accounts that authorised a transaction. A contract never signs one. */
  type Signers = s: set<Address> | VaultAddress !in s witness {}

  datatype OfferStatus = Draft | Funding | Active | Matched | Cancelled | Expired

  datatype LoanStatus =
    | PendingCollateral
    | Active
    | Warning
    | LiquidationPlanning
    | Repaid
    | Liquidated
    | Expired
    | Defaulted
    | Closed

  datatype LoanOffer = LoanOffer(
    offerId: nat,
    lender: Address,
    loanAsset: Asset,
    loanAmount: i128,
    fixedAprBps: u32,
    durationDays: u32,
    collateralAsset: Asset,
    maxLtvBps: u32,
    liquidationThresholdBps: u32,
    liquidationBonusBps: u32,
    gracePeriodDays: u32,
    minHealthFactorBps: u32,
    status: OfferStatus)

  datatype Loan = Loan(
    loanId: nat,
    offerId: nat,
    lender: Address,
    borrower: Address,
    loanAsset: Asset,
    principal: i128,
    outstandingDebt: i128,
    fixedAprBps: u32,
    durationDays: u32,
    collateralAsset: Asset,
    collateralAmount: i128,
    startTime: u64,
    dueTime: u64,
    maxLtvBps: u32,
    liquidationThresholdBps: u32,
    liquidationBonusBps: u32,
    minHealthFactorBps: u32,
    gracePeriodDays: u32,
    status: LoanStatus)

  datatype PriceData = PriceData(price: i128, decimals: u32, updatedAt: u64)

  /** What the contracts publish. The host keeps the events of successful transactions only. */
  datatype Event =
    // Marketplace
    | OfferCreated(offerId: nat, lender: Address, amount: int)
    | OfferFunded(offerId: nat, amount: int)
    | OfferActivated(offerId: nat, amount: int)
    | OfferCancelled(offerId: nat, amount: int)
    | OfferExpired(offerId: nat, amount: int)
    | OfferMatched(offerId: nat, borrower: Address, loanId: nat)
    | OfferCleaned(offerId: nat)
    // Loan Manager
    | LoanCreated(loanId: nat, borrower: Address, amount: int)
    | LoanActivated(loanId: nat, amount: int)
    | LoanStateUpdated(loanId: nat, status: LoanStatus)
    | CollateralAdded(loanId: nat, amount: int)
    | PartialRepaid(loanId: nat, amount: int)
    | LoanRepaid(loanId: nat, amount: int)
    | LoanExpired(loanId: nat)
    | LoanDefaulted(loanId: nat)
    | LoanLiquidated(loanId: nat, liquidator: Address, amount: int)
    | LoanCleaned(loanId: nat)
    // Vault
    | LenderFundsLocked(offerId: nat, lender: Address, asset: Asset, amount: int)
    | LenderFundsUnlocked(offerId: nat, lender: Address, asset: Asset, amount: int)
    | CollateralLocked(loanId: nat, borrower: Address, asset: Asset, amount: int)
    | CollateralReleased(loanId: nat, borrower: Address, asset: Asset, amount: int)
    | LoanAssetTransferred(offerId: nat, loanId: nat, borrower: Address, asset: Asset, amount: int)
    | RepaymentTransferred(loanId: nat, payer: Address, lender: Address, asset: Asset, amount: int)
    | CollateralToLiquidator(loanId: nat, liquidator: Address, asset: Asset, amount: int)
    | RepaymentPaidOut(loanId: nat, lender: Address, asset: Asset, amount: int)
    | Deposited(asset: Asset, sender: Address, amount: int)
    | Withdrawn(asset: Asset, recipient: Address, amount: int)
    // Oracle
    | PriceUpdated(base: Asset, quote: Asset, price: int)
    // Token contracts, for transfers made outside the four contracts
    | TokenTransferred(asset: Asset, sender: Address, recipient: Address, amount: int)

  /** Why a transaction is rejected: an error code the Marketplace returns, or a panic. */
  datatype Error =
    | InvalidLoanAmount
    | InvalidApr
    | InvalidDuration
    | InvalidMaxLtv
    | InvalidLiquidationThreshold
    | InvalidLiquidationBonus
    | InvalidMinHealthFactor
    | InvalidCollateralAmount
    | LtvExceedsThreshold
    | OfferNotFound
    | OfferNotDraft
    | OfferNotFunded
    | OfferNotActive
    | OfferAlreadyCancelled
    | OfferAlreadyExpired
    | OfferMatched
    | InsufficientLockedFunds
    | BorrowerIsLender
    | InvalidAssetPair
    | Unauthorized
    | Overflow
    | NegativeAmount
    | AmountNotPositive
    | InsufficientBalance
    | InsufficientLenderFunds
    | InsufficientCollateral
    | PriceNotPositive
    | InvalidPriceDecimals
    | PriceNotFound
    | PriceStale
    | LoanNotFound
    | LoanNotPending
    | LoanClosed
    | LoanNotExpired
    | LoanInGracePeriod
    | LoanNotLiquidatable
    | CollateralBelowMaxLtv
    | HealthFactorBelowMinimum
    | InsufficientCollateralToSeize
    | LoanNotTerminal
    | LoanHasBalances
    | AssetNotAllowed
    | AssetDisabled
    | CooldownActive

  datatype Result<+T> = Ok(value: T) | Err(error: Error) {
    predicate IsFailure() {
      Err?
    }

    function PropagateFailure<U>(): Result<U>
      requires Err?
    {
      Err(error)
    }

    function Extract(): T
      requires Ok?
    {
      value
    }
  }

  datatype Outcome = Pass | Fail(error: Error) {
    predicate IsFailure() {
      Fail?
    }

    function PropagateFailure<U>(): Result<U>
      requires Fail?
    {
      Err(error)
    }
  }

  function Need(condition: bool, error: Error): Outcome {
    if condition then Pass else Fail(error)
  }

  function Min(a: int, b: int): int {
    if a < b then a else b
  }

  function Max(a: int, b: int): int {
    if a > b then a else b
  }

  /** Statuses in which a loan may be repaid, topped up, marked or liquidated. */
  predicate Mutable(status: LoanStatus) {
    status.Active? || status.Warning? || status.LiquidationPlanning? || status.Expired? || status.Defaulted?
  }
}
