/** The four contracts wired together, and the host that commits or rolls back each transaction. */
module Deployment {
  import opened Shared
  import opened Environment
  import opened VaultEntry
  import opened OracleEntry
  import opened LoanManagerEntry
  import opened MarketplaceEntry
  import Marketplace
  import Protocol
  import Token

  class Host {
    const env: Env
    const tokens: TokenLedger
    const vault: VaultContract
    const oracle: OracleContract
    const manager: LoanManagerContract
    const market: MarketplaceContract

    constructor (balances: Token.Balances, now: u64)
      requires forall a :: Token.Supply(balances, a) <= I128_MAX
      ensures Wired() && Protocol.Genesis(World())
    {
      var host := new Env(now);
      var ledger := new TokenLedger(balances);
      var escrow := new VaultContract(host, ledger);
      var feed := new OracleContract(host);
      var lending := new LoanManagerContract(host, escrow, feed);
      env, tokens, vault, oracle, manager := host, ledger, escrow, feed, lending;
      market := new MarketplaceContract(host, escrow, lending);
    }

    ghost predicate Wired() {
      && market.env == env && market.vault == vault && market.manager == manager && market.Wired()
      && manager.oracle == oracle
      && vault.tokens == tokens
    }

    function World(): Marketplace.World
      reads market, market.manager, market.manager.vault, market.manager.vault.env, market.manager.vault.tokens,
            market.manager.oracle, market.manager.env
    {
      market.View()
    }

    method Lend(call: Protocol.Call) returns (r: Result<()>)
      requires Wired() && Protocol.ForLoanManager(call)
      modifies manager, vault, tokens, env`log
      ensures match Protocol.ExecuteLending(old(manager.View()), env.signers, call)
              case Ok(s) => r == Ok(()) && manager.View() == s
              case Err(e) => r == Err(e)
    {
      match call
      case ActivateLoan(id) => r := manager.ActivateLoan(id);
      case RefreshLoanState(id) =>
        var _ :- manager.RefreshLoanState(id);
        r := Ok(());
      case AddCollateral(id, amount) => r := manager.AddCollateral(id, amount);
      case PartialRepay(id, amount) => r := manager.PartialRepay(id, amount);
      case FullRepay(id) => r := manager.FullRepay(id);
      case MarkExpired(id) => r := manager.MarkExpired(id);
      case MarkDefaulted(id) => r := manager.MarkDefaulted(id);
      case Liquidate(id, liquidator, amount) => r := manager.Liquidate(id, liquidator, amount);
      case CleanupLoan(id) => r := manager.CleanupLoan(id);
    }

    method TransferOutside(asset: Asset, sender: Address, recipient: Address, amount: i128) returns (r: Result<()>)
      requires Wired()
      modifies tokens, env`log
      ensures match Protocol.OutsideTransfer(old(vault.View()), env.signers, asset, sender, recipient, amount)
              case Ok(s) => r == Ok(()) && vault.View() == s
              case Err(e) => r == Err(e)
    {
      var _ :- env.RequireAuth(sender);
      var _ :- tokens.Transfer(asset, sender, recipient, amount);
      env.Publish(TokenTransferred(asset, sender, recipient, amount));
      return Ok(());
    }

    method AdvanceClock(seconds: u64) returns (r: Result<()>)
      modifies env`now
      ensures env.now == (if old(env.now) + seconds <= U64_MAX then old(env.now) + seconds else old(env.now))
      ensures r == if old(env.now) + seconds <= U64_MAX then Ok(()) else Err(Overflow)
    {
      if env.now + seconds > U64_MAX {
        return Err(Overflow);
      }
      env.now := env.now + seconds;
      return Ok(());
    }

    predicate ForMarketplace(call: Protocol.Call) {
      || call.CreateOffer? || call.FundOffer? || call.ActivateOffer? || call.CancelOffer? || call.ExpireOffer?
      || call.AcceptOffer? || call.CleanupOffer?
    }

    method Trade(call: Protocol.Call) returns (r: Result<()>)
      requires Wired() && ForMarketplace(call)
      modifies market, manager, vault, tokens, env`log
      ensures match Protocol.Execute(old(World()), Protocol.Tx(env.signers, call))
              case Ok(w) => r == Ok(()) && World() == w
              case Err(e) => r == Err(e)
    {
      match call
      case CreateOffer(terms) =>
        var _ :- market.CreateOffer(terms);
        r := Ok(());
      case FundOffer(id) => r := market.FundOffer(id);
      case ActivateOffer(id) => r := market.ActivateOffer(id);
      case CancelOffer(id) => r := market.CancelOffer(id);
      case ExpireOffer(id) => r := market.ExpireOffer(id);
      case AcceptOffer(id, borrower, collateral) =>
        var _ :- market.AcceptOffer(id, borrower, collateral);
        r := Ok(());
      case CleanupOffer(id) => r := market.CleanupOffer(id);
    }

    method Administer(call: Protocol.Call) returns (r: Result<()>)
      requires Wired() && !ForMarketplace(call) && !Protocol.ForLoanManager(call)
      modifies oracle, tokens, env`log, env`now
      ensures match Protocol.Execute(old(World()), Protocol.Tx(env.signers, call))
              case Ok(w) => r == Ok(()) && World() == w
              case Err(e) => r == Err(e)
    {
      match call
      case SetPrice(base, quote, price, decimals) => r := oracle.SetPriceForAssets(base, quote, price, decimals);
      case Withdraw(asset, recipient, amount) => r := vault.Withdraw(asset, recipient, amount);
      case TransferTokens(asset, sender, recipient, amount) => r := TransferOutside(asset, sender, recipient, amount);
      case Tick(seconds) => r := AdvanceClock(seconds);
    }

    method Invoke(call: Protocol.Call) returns (r: Result<()>)
      requires Wired()
      modifies market, manager, oracle, vault, tokens, env`log, env`now
      ensures match Protocol.Execute(old(World()), Protocol.Tx(env.signers, call))
              case Ok(w) => r == Ok(()) && World() == w
              case Err(e) => r == Err(e)
    {
      if ForMarketplace(call) {
        r := Trade(call);
      } else if Protocol.ForLoanManager(call) {
        r := Lend(call);
      } else {
        r := Administer(call);
      }
    }

    /** Puts the storage of every contract back, when a transaction fails. */
    method Restore(w: Marketplace.World)
      requires Wired()
      modifies market, manager, oracle, vault, tokens, env`log, env`now
      ensures World() == w
    {
      market.offers, market.offerCount := w.offers, w.offerCount;
      manager.loans, manager.loanCount := w.lending.loans, w.lending.loanCount;
      oracle.prices, env.now, env.log := w.lending.prices, w.lending.now, w.lending.ledger.log;
      tokens.balances, vault.offerLocked := w.lending.ledger.balances, w.lending.ledger.offerLocked;
      vault.loanCollateral, vault.locked := w.lending.ledger.loanCollateral, w.lending.ledger.locked;
    }

    /** One transaction: what it did is kept if it succeeds, and undone if it fails anywhere. */
    method Submit(tx: Protocol.Tx) returns (ok: bool)
      requires Wired()
      modifies market, manager, oracle, vault, tokens, env
      ensures ok == Protocol.Execute(old(World()), tx).Ok?
      ensures World() == Protocol.Step(old(World()), tx)
    {
      var before := World();
      env.signers := tx.signers;
      var r := Invoke(tx.call);
      ok := r.Ok?;
      if !ok {
        Restore(before);
      }
    }

    /** A whole run, from the first transaction to the last. */
    method SubmitAll(txs: seq<Protocol.Tx>)
      requires Wired()
      modifies market, manager, oracle, vault, tokens, env
      ensures World() == Protocol.Run(old(World()), txs)
      ensures Protocol.Genesis(old(World())) ==> Protocol.Reachable(World())
    {
      var i := 0;
      while i < |txs|
        invariant 0 <= i <= |txs|
        invariant Protocol.Run(World(), txs[i..]) == Protocol.Run(old(World()), txs)
      {
        var _ := Submit(txs[i]);
        i := i + 1;
      }
    }
  }
}
