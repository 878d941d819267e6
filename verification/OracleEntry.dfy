/** The Oracle as deployed. */
module OracleEntry {
  import opened Shared
  import opened Environment
  import Oracle

  class OracleContract {
    const env: Env
    var prices: Oracle.Prices

    constructor (env: Env)
      ensures this.env == env && prices == map[]
    {
      this.env, prices := env, map[];
    }

    method SetPriceForAssets(base: Asset, quote: Asset, price: i128, decimals: u32) returns (r: Result<()>)
      modifies this, env`log
      ensures match Oracle.SetPrice(old(prices), env.now, env.signers, base, quote, price, decimals)
              case Ok(updated) =>
                r == Ok(()) && prices == updated && env.log == old(env.log) + [PriceUpdated(base, quote, price)]
              case Err(e) => r == Err(e)
    {
      var _ :- env.RequireAuth(ADMIN);
      :- Oracle.ValidatePrice(price, decimals);
      prices := prices[(base, quote) := PriceData(price, decimals, env.now)];
      env.Publish(PriceUpdated(base, quote, price));
      return Ok(());
    }

    method GetFreshPriceForAssets(base: Asset, quote: Asset) returns (r: Result<PriceData>)
      ensures r == Oracle.GetFreshPrice(prices, env.now, base, quote)
    {
      if (base, quote) !in prices {
        return Err(PriceNotFound);
      }
      var data := prices[(base, quote)];
      if Oracle.IsStale(env.now, data.updatedAt) {
        return Err(PriceStale);
      }
      return Ok(data);
    }
  }
}
