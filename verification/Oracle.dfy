/** The Oracle contract: admin-set prices per asset pair, read only while fresh. */
module Oracle {
  import opened Shared

  const MAX_PRICE_DECIMALS := 18
  const MAX_PRICE_AGE_SECONDS := 86_400

  type Prices = map<(Asset, Asset), PriceData>

  function ValidatePrice(price: i128, decimals: u32): Outcome {
    if price <= 0 then Fail(PriceNotPositive)
    else Need(decimals <= MAX_PRICE_DECIMALS, InvalidPriceDecimals)
  }

  /** Subtraction saturates: a price from the future is fresh. */
  predicate IsStale(now: u64, updatedAt: u64) {
    Max(now - updatedAt, 0) > MAX_PRICE_AGE_SECONDS
  }

  function SetPrice(prices: Prices, now: u64, signers: Signers, base: Asset, quote: Asset, price: i128, decimals: u32)
    : Result<Prices>
  {
    if ADMIN !in signers then Err(Unauthorized)
    else
      :- ValidatePrice(price, decimals);
      Ok(prices[(base, quote) := PriceData(price, decimals, now)])
  }

  function GetFreshPrice(prices: Prices, now: u64, base: Asset, quote: Asset): Result<PriceData> {
    if (base, quote) !in prices then Err(PriceNotFound)
    else
      var data := prices[(base, quote)];
      :- Need(!IsStale(now, data.updatedAt), PriceStale);
      Ok(data)
  }

  /** What every stored price satisfies. */
  ghost predicate ValidPrices(prices: Prices, now: u64) {
    forall pair :: pair in prices ==>
      && prices[pair].price > 0
      && prices[pair].decimals <= MAX_PRICE_DECIMALS
      && prices[pair].updatedAt <= now
  }

  /** A stored price is readable for exactly one day. */
  lemma FreshForOneDay(prices: Prices, now: u64, base: Asset, quote: Asset)
    requires ValidPrices(prices, now)
    ensures GetFreshPrice(prices, now, base, quote).Ok?
       <==> (base, quote) in prices && now <= prices[(base, quote)].updatedAt + 86_400
  {
  }
}
