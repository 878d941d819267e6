/**
 * What the Vault's own checks guarantee without the other contracts: each of its ten functions
 * that move tokens may be called by anyone, in any order and with any arguments. Three more are
 * other names for locking and releasing collateral and for unlocking funds.
 */
module VaultAlone {
  import opened Shared
  import opened Sums
  import opened Token
  import opened Ledger
  import Vault

  datatype VaultCall =
    | LockFunds(offer: nat, lender: Address, asset: Asset, amount: i128)
    | UnlockFunds(offer: nat, lender: Address, asset: Asset, amount: i128)
    | PayPrincipal(offer: nat, loan: nat, borrower: Address, asset: Asset, amount: i128)
    | LockCollateral(loan: nat, borrower: Address, asset: Asset, amount: i128)
    | ReleaseCollateral(loan: nat, borrower: Address, asset: Asset, amount: i128)
    | PayLiquidator(loan: nat, liquidator: Address, asset: Asset, amount: i128)
    | CollectRepayment(loan: nat, payer: Address, lender: Address, asset: Asset, amount: i128)
    | PayRepayment(loan: nat, lender: Address, asset: Asset, amount: i128)
    | Deposit(asset: Asset, sender: Address, amount: i128)
    | Withdraw(asset: Asset, recipient: Address, amount: i128)

  datatype VaultTx = VaultTx(signers: Signers, call: VaultCall)

  function ExecuteVault(s: LedgerState, tx: VaultTx): Result<LedgerState> {
    match tx.call
    case LockFunds(offer, lender, asset, amount) => Vault.LockLenderFunds(s, tx.signers, offer, lender, asset, amount)
    case UnlockFunds(offer, lender, asset, amount) => Vault.UnlockLenderFunds(s, offer, lender, asset, amount)
    case PayPrincipal(offer, loan, borrower, asset, amount) =>
      Vault.TransferLoanAssetToBorrower(s, offer, loan, borrower, asset, amount)
    case LockCollateral(loan, borrower, asset, amount) =>
      Vault.LockBorrowerCollateral(s, tx.signers, loan, borrower, asset, amount)
    case ReleaseCollateral(loan, borrower, asset, amount) =>
      Vault.ReleaseBorrowerCollateral(s, loan, borrower, asset, amount)
    case PayLiquidator(loan, liquidator, asset, amount) =>
      Vault.TransferCollateralToLiquidator(s, loan, liquidator, asset, amount)
    case CollectRepayment(loan, payer, lender, asset, amount) =>
      Vault.CollectRepaymentFrom(s, tx.signers, loan, payer, lender, asset, amount)
    case PayRepayment(loan, lender, asset, amount) => Vault.TransferRepaymentToLender(s, loan, lender, asset, amount)
    case Deposit(asset, sender, amount) => Vault.Deposit(s, tx.signers, asset, sender, amount)
    case Withdraw(asset, recipient, amount) => Vault.Withdraw(s, tx.signers, asset, recipient, amount)
  }

  function VaultStep(s: LedgerState, tx: VaultTx): LedgerState {
    var r := ExecuteVault(s, tx);
    if r.Ok? then r.value else s
  }

  function VaultRun(s: LedgerState, txs: seq<VaultTx>): LedgerState
    decreases |txs|
  {
    if txs == [] then s else VaultRun(VaultStep(s, txs[0]), txs[1..])
  }

  // The two parallel collateral ledgers

  ghost function EntryOf(s: LedgerState, loan: nat): ((nat, Asset)) -> int {
    (k: (nat, Asset)) => if k.0 == loan && k in s.locked then s.locked[k] else 0
  }

  ghost function EntryIn(s: LedgerState, asset: Asset): ((nat, Asset)) -> int {
    (k: (nat, Asset)) => if k.1 == asset && k in s.locked then s.locked[k] else 0
  }

  /** The per-asset entries of a loan, added up. */
  ghost function LoanEntries(s: LedgerState, loan: nat): int {
    SumOver<(nat, Asset)>(s.locked.Keys, EntryOf(s, loan))
  }

  /** The collateral of all loans in one asset. */
  ghost function AssetEntries(s: LedgerState, asset: Asset): int {
    SumOver<(nat, Asset)>(s.locked.Keys, EntryIn(s, asset))
  }

  /** At most one per-asset entry changed. */
  ghost predicate OneEntryChanged(s: LedgerState, t: LedgerState, key: (nat, Asset)) {
    && s.locked.Keys - {key} == t.locked.Keys - {key}
    && forall k | k in s.locked && k != key :: k in t.locked && t.locked[k] == s.locked[k]
  }

  lemma EntriesChange(s: LedgerState, t: LedgerState, loan: nat, asset: Asset)
    requires OneEntryChanged(s, t, (loan, asset))
    ensures var delta := Locked(t, loan, asset) - Locked(s, loan, asset);
            && (forall l :: LoanEntries(t, l) == LoanEntries(s, l) + (if l == loan then delta else 0))
            && (forall a :: AssetEntries(t, a) == AssetEntries(s, a) + (if a == asset then delta else 0))
  {
    forall l ensures LoanEntries(t, l) == LoanEntries(s, l)
                     + (if l == loan then Locked(t, loan, asset) - Locked(s, loan, asset) else 0) {
      SumChange<(nat, Asset)>(s.locked.Keys, EntryOf(s, l), t.locked.Keys, EntryOf(t, l), (loan, asset));
    }
    forall a ensures AssetEntries(t, a) == AssetEntries(s, a)
                     + (if a == asset then Locked(t, loan, asset) - Locked(s, loan, asset) else 0) {
      SumChange<(nat, Asset)>(s.locked.Keys, EntryIn(s, a), t.locked.Keys, EntryIn(t, a), (loan, asset));
    }
  }

  /** The loan that a call names, if it changes collateral, and the asset; the key that may change. */
  function KeyOf(call: VaultCall): (nat, Asset) {
    match call
    case LockCollateral(loan, _, asset, _) => (loan, asset)
    case ReleaseCollateral(loan, _, asset, _) => (loan, asset)
    case PayLiquidator(loan, _, asset, _) => (loan, asset)
    case _ => (0, call.asset)
  }

  lemma LockTouchesOneEntry(s: LedgerState, signers: Signers, loan: nat, borrower: Address, asset: Asset, amount: i128)
    requires Vault.LockBorrowerCollateral(s, signers, loan, borrower, asset, amount).Ok?
    ensures OneEntryChanged(
              s, Vault.LockBorrowerCollateral(s, signers, loan, borrower, asset, amount).value, (loan, asset))
  {
  }

  lemma ReleaseTouchesOneEntry(s: LedgerState, t: LedgerState, loan: nat, who: Address, asset: Asset, amount: i128)
    requires Vault.ReleaseBorrowerCollateral(s, loan, who, asset, amount) == Ok(t)
             || Vault.TransferCollateralToLiquidator(s, loan, who, asset, amount) == Ok(t)
    ensures OneEntryChanged(s, t, (loan, asset))
  {
  }

  predicate SameCollateral(s: LedgerState, t: LedgerState) {
    t.locked == s.locked && t.loanCollateral == s.loanCollateral
  }

  lemma FundsCallKeepsEntries(
    s: LedgerState, signers: Signers, offer: nat, loan: nat, who: Address, asset: Asset, amount: int)
    ensures var r := Vault.LockLenderFunds(s, signers, offer, who, asset, amount);
            r.Ok? ==> SameCollateral(s, r.value) && (Positive(s) ==> Positive(r.value))
    ensures var r := Vault.UnlockLenderFunds(s, offer, who, asset, amount);
            r.Ok? ==> SameCollateral(s, r.value) && (Positive(s) ==> Positive(r.value))
    ensures var r := Vault.TransferLoanAssetToBorrower(s, offer, loan, who, asset, amount);
            r.Ok? ==> SameCollateral(s, r.value) && (Positive(s) ==> Positive(r.value))
  {
  }

  lemma PaymentKeepsEntries(
    s: LedgerState, signers: Signers, loan: nat, payer: Address, who: Address, asset: Asset, amount: int)
    ensures var r := Vault.CollectRepaymentFrom(s, signers, loan, payer, who, asset, amount);
            r.Ok? ==> SameCollateral(s, r.value) && r.value.offerLocked == s.offerLocked
    ensures var r := Vault.TransferRepaymentToLender(s, loan, who, asset, amount);
            r.Ok? ==> SameCollateral(s, r.value) && r.value.offerLocked == s.offerLocked
    ensures var r := Vault.Deposit(s, signers, asset, who, amount);
            r.Ok? ==> SameCollateral(s, r.value) && r.value.offerLocked == s.offerLocked
    ensures var r := Vault.Withdraw(s, signers, asset, who, amount);
            r.Ok? ==> SameCollateral(s, r.value) && r.value.offerLocked == s.offerLocked
  {
  }

  predicate ChangesCollateral(call: VaultCall) {
    call.LockCollateral? || call.ReleaseCollateral? || call.PayLiquidator?
  }

  lemma OtherCallsKeepEntries(s: LedgerState, tx: VaultTx)
    requires !ChangesCollateral(tx.call) && ExecuteVault(s, tx).Ok?
    ensures SameCollateral(s, ExecuteVault(s, tx).value) && (Positive(s) ==> Positive(ExecuteVault(s, tx).value))
  {
    match tx.call
    case LockFunds(offer, who, asset, amount) => FundsCallKeepsEntries(s, tx.signers, offer, 0, who, asset, amount);
    case UnlockFunds(offer, who, asset, amount) => FundsCallKeepsEntries(s, tx.signers, offer, 0, who, asset, amount);
    case PayPrincipal(offer, loan, who, asset, amount) =>
      FundsCallKeepsEntries(s, tx.signers, offer, loan, who, asset, amount);
    case CollectRepayment(loan, payer, who, asset, amount) =>
      PaymentKeepsEntries(s, tx.signers, loan, payer, who, asset, amount);
    case PayRepayment(loan, who, asset, amount) => PaymentKeepsEntries(s, tx.signers, loan, who, who, asset, amount);
    case Deposit(asset, who, amount) => PaymentKeepsEntries(s, tx.signers, 0, who, who, asset, amount);
    case Withdraw(asset, who, amount) => PaymentKeepsEntries(s, tx.signers, 0, who, who, asset, amount);
  }

  lemma StepTouchesOneEntry(s: LedgerState, tx: VaultTx)
    ensures OneEntryChanged(s, VaultStep(s, tx), KeyOf(tx.call))
  {
    if ExecuteVault(s, tx).Ok? {
      match tx.call
      case LockCollateral(loan, borrower, asset, amount) =>
        LockTouchesOneEntry(s, tx.signers, loan, borrower, asset, amount);
      case ReleaseCollateral(loan, borrower, asset, amount) =>
        ReleaseTouchesOneEntry(s, VaultStep(s, tx), loan, borrower, asset, amount);
      case PayLiquidator(loan, liquidator, asset, amount) =>
        ReleaseTouchesOneEntry(s, VaultStep(s, tx), loan, liquidator, asset, amount);
      case _ => OtherCallsKeepEntries(s, tx);
    }
  }

  ghost predicate Parallel(s: LedgerState) {
    forall l :: LoanCollateral(s, l) == LoanEntries(s, l)
  }

  /** The total of a loan changes exactly as its entry does. */
  lemma TotalsFollow(s: LedgerState, tx: VaultTx)
    ensures var t, key := VaultStep(s, tx), KeyOf(tx.call);
            forall l :: LoanCollateral(t, l) - LoanCollateral(s, l)
                        == if l == key.0 then Locked(t, key.0, key.1) - Locked(s, key.0, key.1) else 0
  {
    if ExecuteVault(s, tx).Ok? && !ChangesCollateral(tx.call) {
      OtherCallsKeepEntries(s, tx);
    }
  }

  /** Whoever calls what, the total of every loan stays the sum of its per-asset entries. */
  lemma {:induction false} LedgersStayParallel(s: LedgerState, txs: seq<VaultTx>)
    requires Parallel(s)
    ensures Parallel(VaultRun(s, txs))
    decreases |txs|
  {
    if txs != [] {
      var t, key := VaultStep(s, txs[0]), KeyOf(txs[0].call);
      StepTouchesOneEntry(s, txs[0]);
      EntriesChange(s, t, key.0, key.1);
      TotalsFollow(s, txs[0]);
      LedgersStayParallel(t, txs[1..]);
    }
  }

  // Custody of collateral

  /** What the Vault holds of an asset beyond the collateral entries in it. */
  ghost function Uncommitted(s: LedgerState, asset: Asset): int {
    BalanceOf(s.balances, asset, VaultAddress) - AssetEntries(s, asset)
  }

  function RecipientOf(call: VaultCall): Address {
    match call
    case LockFunds(_, _, _, _) => VaultAddress
    case UnlockFunds(_, lender, _, _) => lender
    case PayPrincipal(_, _, borrower, _, _) => borrower
    case LockCollateral(_, _, _, _) => VaultAddress
    case ReleaseCollateral(_, borrower, _, _) => borrower
    case PayLiquidator(_, liquidator, _, _) => liquidator
    case CollectRepayment(_, _, lender, _, _) => lender
    case PayRepayment(_, lender, _, _) => lender
    case Deposit(_, _, _) => VaultAddress
    case Withdraw(_, recipient, _) => recipient
  }

  /** The calls that pay an asset out of the Vault without lowering a collateral entry. */
  predicate PaysOtherFunds(call: VaultCall, asset: Asset) {
    && (call.UnlockFunds? || call.PayPrincipal? || call.PayRepayment? || call.Withdraw?)
    && call.asset == asset
    && RecipientOf(call) != VaultAddress
  }

  /** The calls that bring an asset into the Vault, or free some of it, without a collateral entry for it. */
  predicate AddsOtherFunds(call: VaultCall, asset: Asset) {
    && call.asset == asset
    && (|| call.LockFunds? || call.Deposit?
        || ((call.CollectRepayment? || call.ReleaseCollateral? || call.PayLiquidator?)
            && RecipientOf(call) == VaultAddress))
  }

  /** What a successful call adds to the uncommitted funds. */
  function UncommittedChange(call: VaultCall, asset: Asset): int {
    var amount: int := call.amount;
    if PaysOtherFunds(call, asset) then -amount else if AddsOtherFunds(call, asset) then amount else 0
  }

  /** The balance of the Vault and the collateral entries move together, up to that change. */
  ghost predicate BalanceFollows(s: LedgerState, t: LedgerState, call: VaultCall, asset: Asset) {
    var key := KeyOf(call);
    BalanceOf(t.balances, asset, VaultAddress) - BalanceOf(s.balances, asset, VaultAddress)
    == (if asset == key.1 then Locked(t, key.0, key.1) - Locked(s, key.0, key.1) else 0)
       + UncommittedChange(call, asset)
  }

  lemma CollateralCallFollows(s: LedgerState, tx: VaultTx, asset: Asset)
    requires ChangesCollateral(tx.call) && ExecuteVault(s, tx).Ok?
    ensures BalanceFollows(s, ExecuteVault(s, tx).value, tx.call, asset)
  {
  }

  lemma OtherCallFollows(s: LedgerState, tx: VaultTx, asset: Asset)
    requires !ChangesCollateral(tx.call) && ExecuteVault(s, tx).Ok?
    ensures BalanceFollows(s, ExecuteVault(s, tx).value, tx.call, asset)
  {
    OtherCallsKeepEntries(s, tx);
  }

  /** Every call changes the uncommitted funds of every asset by exactly that amount. */
  lemma StepChangesUncommitted(s: LedgerState, tx: VaultTx, asset: Asset)
    ensures Uncommitted(VaultStep(s, tx), asset)
         == Uncommitted(s, asset) + (if ExecuteVault(s, tx).Ok? then UncommittedChange(tx.call, asset) else 0)
  {
    if ExecuteVault(s, tx).Ok? {
      var t, key := VaultStep(s, tx), KeyOf(tx.call);
      StepTouchesOneEntry(s, tx);
      EntriesChange(s, t, key.0, key.1);
      if ChangesCollateral(tx.call) {
        CollateralCallFollows(s, tx, asset);
      } else {
        OtherCallFollows(s, tx, asset);
      }
    }
  }

  lemma SuccessIsPositive(s: LedgerState, tx: VaultTx)
    ensures ExecuteVault(s, tx).Ok? ==> tx.call.amount > 0
  {
  }

  /**
   * Which calls lower what the Vault holds beyond its collateral entries in an asset: exactly the
   * successful payments of other funds of that asset to anyone but the Vault itself. After such a
   * payment collateral is still backed if and only if the amount was not committed to it.
   */
  lemma OnlyOtherFundsUncover(s: LedgerState, tx: VaultTx, asset: Asset)
    ensures Uncommitted(VaultStep(s, tx), asset) < Uncommitted(s, asset)
       <==> ExecuteVault(s, tx).Ok? && PaysOtherFunds(tx.call, asset)
    ensures ExecuteVault(s, tx).Ok? && PaysOtherFunds(tx.call, asset) ==>
              (Uncommitted(VaultStep(s, tx), asset) >= 0 <==> tx.call.amount <= Uncommitted(s, asset))
  {
    StepChangesUncommitted(s, tx, asset);
    SuccessIsPositive(s, tx);
  }

  /** The sum of these changes over a run. */
  function RunUncommitted(s: LedgerState, txs: seq<VaultTx>, asset: Asset): int
    decreases |txs|
  {
    if txs == [] then 0
    else
      (if ExecuteVault(s, txs[0]).Ok? then UncommittedChange(txs[0].call, asset) else 0)
      + RunUncommitted(VaultStep(s, txs[0]), txs[1..], asset)
  }

  /** Over any run, uncommitted funds change by exactly what the calls say. */
  lemma {:induction false} RunChangesUncommitted(s: LedgerState, txs: seq<VaultTx>, asset: Asset)
    ensures Uncommitted(VaultRun(s, txs), asset) == Uncommitted(s, asset) + RunUncommitted(s, txs, asset)
    decreases |txs|
  {
    if txs != [] {
      StepChangesUncommitted(s, txs[0], asset);
      RunChangesUncommitted(VaultStep(s, txs[0]), txs[1..], asset);
    }
  }

  /**
   * Collateral of an asset stays backed in any run of calls by anyone that pays out no other
   * funds of that asset: no collateral call, funding, deposit or collected repayment, with
   * whatever arguments and recipients, lowers what the Vault holds beyond its collateral entries.
   */
  lemma {:induction false} CollateralStaysBacked(s: LedgerState, txs: seq<VaultTx>, asset: Asset)
    requires forall i | 0 <= i < |txs| :: !PaysOtherFunds(txs[i].call, asset)
    ensures Uncommitted(VaultRun(s, txs), asset) >= Uncommitted(s, asset)
    decreases |txs|
  {
    if txs != [] {
      OnlyOtherFundsUncover(s, txs[0], asset);
      CollateralStaysBacked(VaultStep(s, txs[0]), txs[1..], asset);
    }
  }

  /**
   * Which payments of other funds the Vault accepts. Two of them are checked against an offer's
   * entry and one against the admin's signature; a repayment is paid out on the balance alone.
   */
  lemma OtherFundsAreAccepted(s: LedgerState, tx: VaultTx, asset: Asset)
    requires Supply(s.balances, asset) <= I128_MAX && PaysOtherFunds(tx.call, asset)
    ensures ExecuteVault(s, tx).Ok?
       <==> && 0 < tx.call.amount <= BalanceOf(s.balances, asset, VaultAddress)
            && (tx.call.UnlockFunds? || tx.call.PayPrincipal? ==> tx.call.amount <= OfferLocked(s, tx.call.offer))
            && (tx.call.Withdraw? ==> ADMIN in tx.signers)
  {
    TransferSucceeds(s.balances, asset, VaultAddress, RecipientOf(tx.call), tx.call.amount);
  }

  function PayerOf(call: VaultCall): Address {
    match call
    case LockFunds(_, lender, _, _) => lender
    case LockCollateral(_, borrower, _, _) => borrower
    case CollectRepayment(_, payer, _, _, _) => payer
    case Deposit(_, sender, _) => sender
    case _ => VaultAddress
  }

  /** What a call has to find in the entries it changes. */
  predicate EntriesAllow(s: LedgerState, call: VaultCall) {
    match call
    case LockFunds(offer, _, _, amount) => OfferLocked(s, offer) + amount <= I128_MAX
    case UnlockFunds(offer, _, _, amount) => amount <= OfferLocked(s, offer)
    case PayPrincipal(offer, _, _, _, amount) => amount <= OfferLocked(s, offer)
    case LockCollateral(loan, _, asset, amount) =>
      LoanCollateral(s, loan) + amount <= I128_MAX && Locked(s, loan, asset) + amount <= I128_MAX
    case ReleaseCollateral(loan, _, asset, amount) => amount <= LoanCollateral(s, loan) && amount <= Locked(s, loan, asset)
    case PayLiquidator(loan, _, asset, amount) => amount <= LoanCollateral(s, loan) && amount <= Locked(s, loan, asset)
    case _ => true
  }

  /**
   * The Vault accepts a call exactly if its payer holds the amount and, unless that is the Vault,
   * signs, the admin signs a withdrawal, and the entries allow it.
   */
  lemma CallsAreAccepted(s: LedgerState, tx: VaultTx)
    requires Supply(s.balances, tx.call.asset) <= I128_MAX
    ensures ExecuteVault(s, tx).Ok?
       <==> && 0 < tx.call.amount <= BalanceOf(s.balances, tx.call.asset, PayerOf(tx.call))
            && (tx.call.LockFunds? || tx.call.LockCollateral? || tx.call.CollectRepayment? || tx.call.Deposit? ==>
                  PayerOf(tx.call) in tx.signers)
            && (tx.call.Withdraw? ==> ADMIN in tx.signers)
            && EntriesAllow(s, tx.call)
  {
    TransferSucceeds(s.balances, tx.call.asset, PayerOf(tx.call), RecipientOf(tx.call), tx.call.amount);
  }

  /** So backing is not kept by every call: five units of collateral, and one of them paid out as a repayment. */
  lemma RepaymentPayoutCanUncover()
    ensures var s := LedgerState(map[(0, VaultAddress) := 5], map[], map[1 := 5], map[(1, 0) := 5], []);
            var tx := VaultTx({}, PayRepayment(1, Account(7), 0, 1));
            && Parallel(s) && Positive(s) && Uncommitted(s, 0) == 0
            && ExecuteVault(s, tx).Ok? && Uncommitted(VaultStep(s, tx), 0) == -1
  {
    var s := LedgerState(map[(0, VaultAddress) := 5], map[], map[1 := 5], map[(1, 0) := 5], []);
    var bare := s.(loanCollateral := map[], locked := map[]);
    forall l ensures LoanCollateral(s, l) == LoanEntries(s, l) {
      EntriesChange(bare, s, 1, 0);
    }
    EntriesChange(bare, s, 1, 0);
    StepChangesUncommitted(s, VaultTx({}, PayRepayment(1, Account(7), 0, 1)), 0);
  }

  // Entries

  ghost predicate Positive(s: LedgerState) {
    && (forall o | o in s.offerLocked :: s.offerLocked[o] > 0)
    && (forall l | l in s.loanCollateral :: s.loanCollateral[l] > 0)
    && (forall k | k in s.locked :: s.locked[k] > 0)
  }

  lemma CollateralCallKeepsPositive(s: LedgerState, tx: VaultTx)
    requires Positive(s) && ExecuteVault(s, tx).Ok?
    requires ChangesCollateral(tx.call)
    ensures Positive(ExecuteVault(s, tx).value)
  {
  }

  /** Whoever calls what, no entry of any of the three ledgers ever becomes zero or negative. */
  lemma {:induction false} EntriesStayPositive(s: LedgerState, txs: seq<VaultTx>)
    requires Positive(s)
    ensures Positive(VaultRun(s, txs))
    decreases |txs|
  {
    if txs != [] {
      if ExecuteVault(s, txs[0]).Ok? {
        if ChangesCollateral(txs[0].call) {
          CollateralCallKeepsPositive(s, txs[0]);
        } else {
          OtherCallsKeepEntries(s, txs[0]);
        }
      }
      EntriesStayPositive(VaultStep(s, txs[0]), txs[1..]);
    }
  }
}
