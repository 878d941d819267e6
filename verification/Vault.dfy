/** The Vault contract: escrow of lender funds and borrower collateral. */
module Vault {
  import opened Shared
  import opened Token
  import opened Ledger

  /** Entries are removed when they reach zero. */
  function SetOrRemove<K>(m: map<K, int>, key: K, value: int): map<K, int> {
    if value == 0 then m - {key} else m[key := value]
  }

  function CheckedAdd(a: int, b: int): Result<int> {
    if a + b <= I128_MAX then Ok(a + b) else Err(Overflow)
  }

  function IncreaseOfferLocked(s: LedgerState, offer: nat, amount: int): Result<LedgerState> {
    var total :- CheckedAdd(OfferLocked(s, offer), amount);
    Ok(s.(offerLocked := SetOrRemove(s.offerLocked, offer, total)))
  }

  function DecreaseOfferLocked(s: LedgerState, offer: nat, amount: int): Result<LedgerState> {
    if OfferLocked(s, offer) < amount then Err(InsufficientLenderFunds)
    else
      Ok(s.(offerLocked := SetOrRemove(s.offerLocked, offer, OfferLocked(s, offer) - amount)))
  }

  function IncreaseLoanCollateral(s: LedgerState, loan: nat, asset: Asset, amount: int): Result<LedgerState> {
    var total :- CheckedAdd(LoanCollateral(s, loan), amount);
    var assetTotal :- CheckedAdd(Locked(s, loan, asset), amount);
    Ok(s.(loanCollateral := SetOrRemove(s.loanCollateral, loan, total),
          locked := SetOrRemove(s.locked, (loan, asset), assetTotal)))
  }

  function DecreaseLoanCollateral(s: LedgerState, loan: nat, asset: Asset, amount: int): Result<LedgerState> {
    if LoanCollateral(s, loan) < amount then Err(InsufficientCollateral)
    else
      :- Need(Locked(s, loan, asset) >= amount, InsufficientCollateral);
      Ok(s.(loanCollateral := SetOrRemove(s.loanCollateral, loan, LoanCollateral(s, loan) - amount),
            locked := SetOrRemove(s.locked, (loan, asset), Locked(s, loan, asset) - amount)))
  }

  function Move(s: LedgerState, asset: Asset, sender: Address, recipient: Address, amount: int): Result<LedgerState> {
    var balances :- Transfer(s.balances, asset, sender, recipient, amount);
    Ok(s.(balances := balances))
  }

  /** Offer escrows before and after, when `offer` gained `delta`. */
  ghost predicate OffersChanged(s: LedgerState, t: LedgerState, offer: nat, delta: int) {
    forall o :: OfferLocked(t, o) == OfferLocked(s, o) + (if o == offer then delta else 0)
  }

  /** Both collateral ledgers before and after, when `loan` gained `delta` of `asset`. */
  ghost predicate CollateralChanged(s: LedgerState, t: LedgerState, loan: nat, asset: Asset, delta: int) {
    && (forall l :: LoanCollateral(t, l) == LoanCollateral(s, l) + (if l == loan then delta else 0))
    && (forall l, a :: Locked(t, l, a) == Locked(s, l, a) + (if l == loan && a == asset then delta else 0))
  }

  ghost predicate Moved(s: LedgerState, t: LedgerState, asset: Asset, sender: Address, recipient: Address, amount: int) {
    var moved := Transfer(s.balances, asset, sender, recipient, amount);
    moved.Ok? && t.balances == moved.value
  }

  function LockLenderFunds(s: LedgerState, signers: Signers, offer: nat, lender: Address, asset: Asset, amount: int)
    : (r: Result<LedgerState>)
    ensures r.Ok? ==> amount > 0 && lender in signers && Moved(s, r.value, asset, lender, VaultAddress, amount)
    ensures r.Ok? ==> OffersChanged(s, r.value, offer, amount) && CollateralSame(s, r.value)
    ensures r.Ok? ==> r.value.log == s.log + [LenderFundsLocked(offer, lender, asset, amount)]
  {
    if amount <= 0 then Err(AmountNotPositive)
    else
      :- Need(lender in signers, Unauthorized);
      var paid :- Move(s, asset, lender, VaultAddress, amount);
      var locked :- IncreaseOfferLocked(paid, offer, amount);
      Ok(Publish(locked, LenderFundsLocked(offer, lender, asset, amount)))
  }

  function UnlockLenderFunds(s: LedgerState, offer: nat, lender: Address, asset: Asset, amount: int)
    : (r: Result<LedgerState>)
    ensures r.Ok? ==> amount > 0 && amount <= OfferLocked(s, offer)
    ensures r.Ok? ==> Moved(s, r.value, asset, VaultAddress, lender, amount)
    ensures r.Ok? ==> OffersChanged(s, r.value, offer, -amount) && CollateralSame(s, r.value)
    ensures r.Ok? ==> r.value.log == s.log + [LenderFundsUnlocked(offer, lender, asset, amount)]
  {
    if amount <= 0 then Err(AmountNotPositive)
    else
      var unlocked :- DecreaseOfferLocked(s, offer, amount);
      var paid :- Move(unlocked, asset, VaultAddress, lender, amount);
      Ok(Publish(paid, LenderFundsUnlocked(offer, lender, asset, amount)))
  }

  function LockBorrowerCollateral(s: LedgerState, signers: Signers, loan: nat, borrower: Address, asset: Asset, amount: int)
    : (r: Result<LedgerState>)
    ensures r.Ok? ==> amount > 0 && borrower in signers && Moved(s, r.value, asset, borrower, VaultAddress, amount)
    ensures r.Ok? ==> CollateralChanged(s, r.value, loan, asset, amount) && OffersSame(s, r.value)
    ensures r.Ok? ==> r.value.log == s.log + [CollateralLocked(loan, borrower, asset, amount)]
  {
    if amount <= 0 then Err(AmountNotPositive)
    else
      :- Need(borrower in signers, Unauthorized);
      var paid :- Move(s, asset, borrower, VaultAddress, amount);
      var locked :- IncreaseLoanCollateral(paid, loan, asset, amount);
      Ok(Publish(locked, CollateralLocked(loan, borrower, asset, amount)))
  }

  function ReleaseBorrowerCollateral(s: LedgerState, loan: nat, borrower: Address, asset: Asset, amount: int)
    : (r: Result<LedgerState>)
    ensures r.Ok? ==> amount > 0 && amount <= LoanCollateral(s, loan) && amount <= Locked(s, loan, asset)
    ensures r.Ok? ==> Moved(s, r.value, asset, VaultAddress, borrower, amount)
    ensures r.Ok? ==> CollateralChanged(s, r.value, loan, asset, -amount) && OffersSame(s, r.value)
    ensures r.Ok? ==> r.value.log == s.log + [CollateralReleased(loan, borrower, asset, amount)]
  {
    if amount <= 0 then Err(AmountNotPositive)
    else
      var released :- DecreaseLoanCollateral(s, loan, asset, amount);
      var paid :- Move(released, asset, VaultAddress, borrower, amount);
      Ok(Publish(paid, CollateralReleased(loan, borrower, asset, amount)))
  }

  function TransferLoanAssetToBorrower(
    s: LedgerState, offer: nat, loan: nat, borrower: Address, asset: Asset, amount: int)
    : (r: Result<LedgerState>)
    ensures r.Ok? ==> amount > 0 && amount <= OfferLocked(s, offer)
    ensures r.Ok? ==> Moved(s, r.value, asset, VaultAddress, borrower, amount)
    ensures r.Ok? ==> OffersChanged(s, r.value, offer, -amount) && CollateralSame(s, r.value)
    ensures r.Ok? ==> r.value.log == s.log + [LoanAssetTransferred(offer, loan, borrower, asset, amount)]
  {
    if amount <= 0 then Err(AmountNotPositive)
    else
      var unlocked :- DecreaseOfferLocked(s, offer, amount);
      var paid :- Move(unlocked, asset, VaultAddress, borrower, amount);
      Ok(Publish(paid, LoanAssetTransferred(offer, loan, borrower, asset, amount)))
  }

  function CollectRepaymentFrom(
    s: LedgerState, signers: Signers, loan: nat, payer: Address, lender: Address, asset: Asset, amount: int)
    : (r: Result<LedgerState>)
    ensures r.Ok? ==> amount > 0 && payer in signers && Moved(s, r.value, asset, payer, lender, amount)
    ensures r.Ok? ==> OffersSame(s, r.value) && CollateralSame(s, r.value)
    ensures r.Ok? ==> r.value.log == s.log + [RepaymentTransferred(loan, payer, lender, asset, amount)]
  {
    if amount <= 0 then Err(AmountNotPositive)
    else
      :- Need(payer in signers, Unauthorized);
      var paid :- Move(s, asset, payer, lender, amount);
      Ok(Publish(paid, RepaymentTransferred(loan, payer, lender, asset, amount)))
  }

  function TransferCollateralToLiquidator(s: LedgerState, loan: nat, liquidator: Address, asset: Asset, amount: int)
    : (r: Result<LedgerState>)
    ensures r.Ok? ==> amount > 0 && amount <= LoanCollateral(s, loan) && amount <= Locked(s, loan, asset)
    ensures r.Ok? ==> Moved(s, r.value, asset, VaultAddress, liquidator, amount)
    ensures r.Ok? ==> CollateralChanged(s, r.value, loan, asset, -amount) && OffersSame(s, r.value)
    ensures r.Ok? ==> r.value.log == s.log + [CollateralToLiquidator(loan, liquidator, asset, amount)]
  {
    if amount <= 0 then Err(AmountNotPositive)
    else
      var released :- DecreaseLoanCollateral(s, loan, asset, amount);
      var paid :- Move(released, asset, VaultAddress, liquidator, amount);
      Ok(Publish(paid, CollateralToLiquidator(loan, liquidator, asset, amount)))
  }

  /** Pays out of the Vault in the name of a loan. No entry falls, and no other contract calls it. */
  function TransferRepaymentToLender(s: LedgerState, loan: nat, lender: Address, asset: Asset, amount: int)
    : (r: Result<LedgerState>)
    ensures r.Ok? ==> amount > 0 && Moved(s, r.value, asset, VaultAddress, lender, amount)
    ensures r.Ok? ==> OffersSame(s, r.value) && CollateralSame(s, r.value)
    ensures r.Ok? ==> r.value.log == s.log + [RepaymentPaidOut(loan, lender, asset, amount)]
  {
    if amount <= 0 then Err(AmountNotPositive)
    else
      var paid :- Move(s, asset, VaultAddress, lender, amount);
      Ok(Publish(paid, RepaymentPaidOut(loan, lender, asset, amount)))
  }

  /** A payment into the Vault that no entry records. */
  function Deposit(s: LedgerState, signers: Signers, asset: Asset, sender: Address, amount: int)
    : (r: Result<LedgerState>)
    ensures r.Ok? ==> amount > 0 && sender in signers && Moved(s, r.value, asset, sender, VaultAddress, amount)
    ensures r.Ok? ==> OffersSame(s, r.value) && CollateralSame(s, r.value)
    ensures r.Ok? ==> r.value.log == s.log + [Deposited(asset, sender, amount)]
  {
    if amount <= 0 then Err(AmountNotPositive)
    else
      :- Need(sender in signers, Unauthorized);
      var paid :- Move(s, asset, sender, VaultAddress, amount);
      Ok(Publish(paid, Deposited(asset, sender, amount)))
  }

  /** The admin's emergency exit: it pays out of the Vault without touching any escrow entry. */
  function Withdraw(s: LedgerState, signers: Signers, asset: Asset, recipient: Address, amount: int)
    : (r: Result<LedgerState>)
    ensures r.Ok? ==> amount > 0 && ADMIN in signers && Moved(s, r.value, asset, VaultAddress, recipient, amount)
    ensures r.Ok? ==> OffersSame(s, r.value) && CollateralSame(s, r.value)
    ensures r.Ok? ==> r.value.log == s.log + [Withdrawn(asset, recipient, amount)]
  {
    if amount <= 0 then Err(AmountNotPositive)
    else
      :- Need(ADMIN in signers, Unauthorized);
      var paid :- Move(s, asset, VaultAddress, recipient, amount);
      Ok(Publish(paid, Withdrawn(asset, recipient, amount)))
  }
}
