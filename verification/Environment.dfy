/** What the ledger host provides to the contracts, and the asset contracts' balances. */
module Environment {
  import opened Shared
  import Token

  class Env {
    var now: u64
    var signers: Signers
    var log: seq<Event>

    constructor (now: u64)
      ensures this.now == now && signers == {} && log == []
    {
      this.now, signers, log := now, {}, [];
    }

    method Publish(e: Event)
      modifies this`log
      ensures log == old(log) + [e]
    {
      log := log + [e];
    }

    method RequireAuth(who: Address) returns (r: Result<()>)
      ensures r == if who in signers then Ok(()) else Err(Unauthorized)
    {
      if who !in signers {
        return Err(Unauthorized);
      }
      return Ok(());
    }
  }

  /** The balances of all asset contracts. A transfer debits the sender before it credits the recipient. */
  class TokenLedger {
    var balances: Token.Balances

    constructor (balances: Token.Balances)
      ensures this.balances == balances
    {
      this.balances := balances;
    }

    method Transfer(asset: Asset, sender: Address, recipient: Address, amount: int) returns (r: Result<()>)
      modifies this
      ensures match Token.Transfer(old(balances), asset, sender, recipient, amount)
              case Ok(moved) => r == Ok(()) && balances == moved
              case Err(e) => r == Err(e)
    {
      if amount < 0 {
        return Err(NegativeAmount);
      }
      var held := Token.BalanceOf(balances, asset, sender);
      if held < amount {
        return Err(InsufficientBalance);
      }
      balances := balances[(asset, sender) := held - amount];
      var total := Token.BalanceOf(balances, asset, recipient) + amount;
      if total > I128_MAX {
        return Err(Overflow);
      }
      balances := balances[(asset, recipient) := total];
      return Ok(());
    }

    /** An asset contract mints only for a minter it has authorised. */
    method Mint(allowed: bool, asset: Asset, recipient: Address, amount: int) returns (r: Result<()>)
      modifies this
      ensures match Token.Mint(old(balances), allowed, asset, recipient, amount)
              case Ok(minted) => r == Ok(()) && balances == minted
              case Err(e) => r == Err(e)
    {
      if !allowed {
        return Err(Unauthorized);
      }
      :- Need(amount >= 0, NegativeAmount);
      var total := Token.BalanceOf(balances, asset, recipient) + amount;
      if total > I128_MAX {
        return Err(Overflow);
      }
      balances := balances[(asset, recipient) := total];
      return Ok(());
    }
  }
}
