/** The Faucet as deployed: storage and balances are updated in place, asset by asset. */
module FaucetEntry {
  import opened Shared
  import opened Environment
  import Spec = Faucet
  import Token

  class FaucetContract {
    const self: Address
    const env: Env
    const tokens: TokenLedger
    const mintable: set<Asset>
    var sequence: u32
    var configs: map<Asset, Spec.AssetConfig>
    var lastClaim: map<(Address, Asset), u32>
    var claims: seq<Spec.Claim>

    constructor (self: Address, env: Env, tokens: TokenLedger, mintable: set<Asset>, sequence: u32)
      ensures this.env == env && this.tokens == tokens && Spec.New(View())
    {
      this.self, this.env, this.tokens, this.mintable, this.sequence := self, env, tokens, mintable, sequence;
      configs, lastClaim, claims := map[], map[], [];
    }

    function View(): Spec.FaucetState
      reads this, tokens
    {
      Spec.FaucetState(self, configs, lastClaim, tokens.balances, mintable, sequence, claims)
    }

    method SetAssetConfig(asset: Asset, config: Spec.AssetConfig) returns (r: Result<()>)
      modifies this`configs
      ensures match Spec.SetAssetConfig(old(View()), env.signers, asset, config)
              case Ok(s) => r == Ok(()) && View() == s
              case Err(e) => r == Err(e)
    {
      var _ :- env.RequireAuth(ADMIN);
      if config.claimAmount <= 0 {
        return Err(AmountNotPositive);
      }
      configs := configs[asset := config];
      return Ok(());
    }

    /** Records the claim first, then transfers or mints, then publishes. */
    method Pay(recipient: Address, asset: Asset, amount: int) returns (r: Result<()>)
      modifies this`lastClaim, this`claims, tokens
      ensures match Spec.Pay(old(View()), recipient, asset, amount)
              case Ok(s) => r == Ok(()) && View() == s
              case Err(e) => r == Err(e)
    {
      lastClaim := lastClaim[(recipient, asset) := sequence];
      var held := Token.BalanceOf(tokens.balances, asset, self);
      if held >= amount {
        var _ :- tokens.Transfer(asset, self, recipient, amount);
      } else {
        var _ :- tokens.Mint(asset in mintable, asset, recipient, amount);
      }
      claims := claims + [Spec.Claim(asset, recipient, amount, sequence)];
      return Ok(());
    }

    method RequestTokens(recipient: Address, asset: Asset) returns (r: Result<()>)
      modifies this`lastClaim, this`claims, tokens
      ensures match Spec.RequestTokens(old(View()), env.signers, recipient, asset)
              case Ok(s) => r == Ok(()) && View() == s
              case Err(e) => r == Err(e)
    {
      var _ :- env.RequireAuth(recipient);
      if asset !in configs {
        return Err(AssetNotAllowed);
      }
      var config := configs[asset];
      if !config.enabled {
        return Err(AssetDisabled);
      }
      if (recipient, asset) in lastClaim {
        var elapsed := Spec.Elapsed(sequence, lastClaim[(recipient, asset)]);
        if elapsed < config.cooldownLedgers {
          return Err(CooldownActive);
        }
      }
      r := Pay(recipient, asset, config.claimAmount);
    }

    /**
     * The batch loop skips what is not configured, disabled or on cooldown. It does exactly what
     * single claims would do, one after the other, each made only if its recipient is eligible.
     */
    method BatchClaim(recipient: Address, assets: seq<Asset>) returns (r: Result<()>)
      modifies this`lastClaim, this`claims, tokens
      ensures match Spec.BatchClaim(old(View()), env.signers, recipient, assets)
              case Ok(s) => r == Ok(()) && View() == s
              case Err(e) => r == Err(e)
    {
      var _ :- env.RequireAuth(recipient);
      assert assets[..0] == [];
      for i := 0 to |assets|
        invariant Spec.ClaimEach(old(View()), env.signers, recipient, assets[..i]) == Ok(View())
      {
        var asset := assets[i];
        assert assets[..i + 1][..i] == assets[..i];
        if asset !in configs || !configs[asset].enabled {
          continue;
        }
        var config := configs[asset];
        if (recipient, asset) in lastClaim {
          var elapsed := Spec.Elapsed(sequence, lastClaim[(recipient, asset)]);
          if elapsed < config.cooldownLedgers {
            continue;
          }
        }
        var paid := Pay(recipient, asset, config.claimAmount);
        if paid.Err? {
          Spec.FailureStops(old(View()), env.signers, recipient, assets, i + 1, paid.error);
          return paid;
        }
      }
      assert assets[..|assets|] == assets;
      return Ok(());
    }
  }
}
