/** The protocol as one state machine: a transaction is one entry point, and a failed one rolls back. */
module Protocol {
  import opened Shared
  import opened Token
  import opened Ledger
  import opened LoanManager
  import opened Marketplace
  import Vault
  import Oracle

  datatype Call =
    // Marketplace
    | CreateOffer(terms: Terms)
    | FundOffer(offer: nat)
    | ActivateOffer(offer: nat)
    | CancelOffer(offer: nat)
    | ExpireOffer(offer: nat)
    | AcceptOffer(offer: nat, borrower: Address, collateral: i128)
    | CleanupOffer(offer: nat)
    // Loan Manager
    | ActivateLoan(loan: nat)
    | RefreshLoanState(loan: nat)
    | AddCollateral(loan: nat, amount: i128)
    | PartialRepay(loan: nat, amount: i128)
    | FullRepay(loan: nat)
    | MarkExpired(loan: nat)
    | MarkDefaulted(loan: nat)
    | Liquidate(loan: nat, liquidator: Address, amount: i128)
    | CleanupLoan(loan: nat)
    // Oracle, Vault administration, and the world outside
    | SetPrice(base: Asset, quote: Asset, price: i128, decimals: u32)
    | Withdraw(asset: Asset, recipient: Address, amount: i128)
    | TransferTokens(asset: Asset, sender: Address, recipient: Address, amount: i128)
    | Tick(seconds: u64)

  datatype Tx = Tx(signers: Signers, call: Call)

  function LiftLending(w: World, r: Result<LendingState>): Result<World> {
    match r
    case Ok(lending) => Ok(w.(lending := lending))
    case Err(e) => Err(e)
  }

  function LiftLedger(w: World, r: Result<LedgerState>): Result<World> {
    match r
    case Ok(ledger) => Ok(WithLedger(w, ledger))
    case Err(e) => Err(e)
  }

  function UpdatePrice(w: World, signers: Signers, base: Asset, quote: Asset, price: i128, decimals: u32)
    : Result<World>
  {
    var s := w.lending;
    var prices :- Oracle.SetPrice(s.prices, s.now, signers, base, quote, price, decimals);
    Ok(w.(lending := s.(prices := prices, ledger := Publish(s.ledger, PriceUpdated(base, quote, price)))))
  }

  /** A token transfer that its sender makes outside the protocol, for instance into the Vault. */
  function OutsideTransfer(
    s: LedgerState, signers: Signers, asset: Asset, sender: Address, recipient: Address, amount: i128)
    : Result<LedgerState>
  {
    if sender !in signers then Err(Unauthorized)
    else
      var moved :- Vault.Move(s, asset, sender, recipient, amount);
      Ok(Publish(moved, TokenTransferred(asset, sender, recipient, amount)))
  }

  function AdvanceClock(w: World, seconds: u64): Result<World> {
    if w.lending.now + seconds > U64_MAX then Err(Overflow)
    else
      Ok(w.(lending := w.lending.(now := w.lending.now + seconds)))
  }

  /** The calls that the Loan Manager answers. */
  predicate ForLoanManager(call: Call) {
    || call.ActivateLoan? || call.RefreshLoanState? || call.AddCollateral? || call.PartialRepay?
    || call.FullRepay? || call.MarkExpired? || call.MarkDefaulted? || call.Liquidate? || call.CleanupLoan?
  }

  function ExecuteLending(s: LendingState, signers: Signers, call: Call): Result<LendingState>
    requires ForLoanManager(call)
  {
    match call
    case ActivateLoan(id) => LoanManager.ActivateLoan(s, signers, id)
    case RefreshLoanState(id) => LoanManager.RefreshLoanState(s, id)
    case AddCollateral(id, amount) => LoanManager.AddCollateral(s, signers, id, amount)
    case PartialRepay(id, amount) => LoanManager.PartialRepay(s, signers, id, amount)
    case FullRepay(id) => LoanManager.FullRepay(s, signers, id)
    case MarkExpired(id) => LoanManager.MarkExpired(s, id)
    case MarkDefaulted(id) => LoanManager.MarkDefaulted(s, id)
    case Liquidate(id, liquidator, amount) => LoanManager.Liquidate(s, signers, id, liquidator, amount)
    case CleanupLoan(id) => LoanManager.CleanupLoan(s, signers, id)
  }

  /** The outcome of a transaction. */
  function Execute(w: World, tx: Tx): Result<World> {
    var s := w.lending;
    match tx.call
    case CreateOffer(terms) => Marketplace.CreateOffer(w, tx.signers, terms)
    case FundOffer(id) => Marketplace.FundOffer(w, tx.signers, id)
    case ActivateOffer(id) => Marketplace.ActivateOffer(w, tx.signers, id)
    case CancelOffer(id) => Marketplace.CancelOffer(w, tx.signers, id)
    case ExpireOffer(id) => Marketplace.ExpireOffer(w, id)
    case AcceptOffer(id, borrower, collateral) =>
      Marketplace.AcceptOffer(w, tx.signers, id, borrower, collateral)
    case CleanupOffer(id) => Marketplace.CleanupOffer(w, tx.signers, id)
    case SetPrice(base, quote, price, decimals) => UpdatePrice(w, tx.signers, base, quote, price, decimals)
    case Withdraw(asset, recipient, amount) =>
      LiftLedger(w, Vault.Withdraw(s.ledger, tx.signers, asset, recipient, amount))
    case TransferTokens(asset, sender, recipient, amount) =>
      LiftLedger(w, OutsideTransfer(s.ledger, tx.signers, asset, sender, recipient, amount))
    case Tick(seconds) => AdvanceClock(w, seconds)
    case _ => LiftLending(w, ExecuteLending(s, tx.signers, tx.call))
  }

  /** A failed transaction leaves no trace. */
  function Step(w: World, tx: Tx): World {
    var r := Execute(w, tx);
    if r.Ok? then r.value else w
  }

  function Run(w: World, txs: seq<Tx>): World
    decreases |txs|
  {
    if txs == [] then w else Run(Step(w, txs[0]), txs[1..])
  }

  /** A freshly deployed protocol: tokens are out, and every supply fits in an i128. */
  ghost predicate Genesis(w: World) {
    && (forall a :: Supply(w.lending.ledger.balances, a) <= I128_MAX)
    && w.lending.ledger.offerLocked == map[]
    && w.lending.ledger.loanCollateral == map[]
    && w.lending.ledger.locked == map[]
    && w.lending.ledger.log == []
    && w.lending.loans == map[]
    && w.lending.loanCount == 0
    && w.lending.prices == map[]
    && w.offers == map[]
    && w.offerCount == 0
  }

  /** Every state the protocol can come to. */
  ghost predicate Reachable(w: World) {
    exists start, txs :: Genesis(start) && w == Run(start, txs)
  }

  lemma {:induction false} RunAppend(w: World, txs: seq<Tx>, more: seq<Tx>)
    ensures Run(w, txs + more) == Run(Run(w, txs), more)
    decreases |txs|
  {
    if txs == [] {
      assert txs + more == more;
    } else {
      assert (txs + more)[1..] == txs[1..] + more;
      RunAppend(Step(w, txs[0]), txs[1..], more);
    }
  }

  lemma {:induction false} LaterIsReachable(w: World, txs: seq<Tx>)
    requires Reachable(w)
    ensures Reachable(Run(w, txs))
  {
    var start, before :| Genesis(start) && w == Run(start, before);
    RunAppend(start, before, txs);
  }
}
