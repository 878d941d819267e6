/** The Faucet contract: a limiter that pays each recipient at most once per cooldown and asset. */
module Faucet {
  import opened Shared
  import opened RiskMath
  import opened Token

  datatype AssetConfig = AssetConfig(claimAmount: i128, cooldownLedgers: u32, enabled: bool)

  /** A payment the Faucet made, as it publishes it. */
  datatype Claim = Claim(asset: Asset, recipient: Address, amount: int, ledger: u32)

  datatype FaucetState = FaucetState(
    self: Address,
    configs: map<Asset, AssetConfig>,
    lastClaim: map<(Address, Asset), u32>,
    balances: Balances,
    mintable: set<Asset>, // the assets whose contract lets the Faucet mint
    sequence: u32,        // the number of the current ledger
    claims: seq<Claim>)

  /** Ledgers since the last claim; the subtraction saturates. */
  function Elapsed(now: u32, last: u32): u32 {
    Max(now - last, 0)
  }

  predicate OnCooldown(s: FaucetState, recipient: Address, asset: Asset, cooldown: u32) {
    (recipient, asset) in s.lastClaim && Elapsed(s.sequence, s.lastClaim[(recipient, asset)]) < cooldown
  }

  datatype Eligibility = Eligibility(eligible: bool, remaining: u32)

  function GetEligibility(s: FaucetState, recipient: Address, asset: Asset): Eligibility {
    if asset !in s.configs || !s.configs[asset].enabled then Eligibility(false, 0)
    else if (recipient, asset) !in s.lastClaim then Eligibility(true, 0)
    else
      var elapsed := Elapsed(s.sequence, s.lastClaim[(recipient, asset)]);
      var cooldown := s.configs[asset].cooldownLedgers;
      if elapsed >= cooldown then Eligibility(true, 0) else Eligibility(false, cooldown - elapsed)
  }

  /** The Faucet pays from its own balance, or has the asset minted if that balance is too small. */
  function Disburse(s: FaucetState, recipient: Address, asset: Asset, amount: int): Result<Balances> {
    if BalanceOf(s.balances, asset, s.self) >= amount then
      Transfer(s.balances, asset, s.self, recipient, amount)
    else
      Mint(s.balances, asset in s.mintable, asset, recipient, amount)
  }

  /** Records the claim, pays it, and publishes it. */
  function Pay(s: FaucetState, recipient: Address, asset: Asset, amount: int): Result<FaucetState> {
    var balances :- Disburse(s, recipient, asset, amount);
    Ok(s.(lastClaim := s.lastClaim[(recipient, asset) := s.sequence],
          balances := balances,
          claims := s.claims + [Claim(asset, recipient, amount, s.sequence)]))
  }

  function SetAssetConfig(s: FaucetState, signers: Signers, asset: Asset, config: AssetConfig): Result<FaucetState> {
    if ADMIN !in signers then Err(Unauthorized)
    else
      :- Need(config.claimAmount > 0, AmountNotPositive);
      Ok(s.(configs := s.configs[asset := config]))
  }

  function RequestTokens(s: FaucetState, signers: Signers, recipient: Address, asset: Asset): Result<FaucetState> {
    if recipient !in signers then Err(Unauthorized)
    else
      :- Need(asset in s.configs, AssetNotAllowed);
      var config := s.configs[asset];
      :- Need(config.enabled, AssetDisabled);
      :- Need(!OnCooldown(s, recipient, asset, config.cooldownLedgers), CooldownActive);
      Pay(s, recipient, asset, config.claimAmount)
  }

  /** A single claim if the recipient is eligible, and otherwise nothing. */
  function ClaimIfEligible(s: FaucetState, signers: Signers, recipient: Address, asset: Asset): Result<FaucetState> {
    if GetEligibility(s, recipient, asset).eligible then RequestTokens(s, signers, recipient, asset) else Ok(s)
  }

  /** One claim after the other, each in the state the previous one left. */
  function ClaimEach(s: FaucetState, signers: Signers, recipient: Address, assets: seq<Asset>): Result<FaucetState> {
    if assets == [] then Ok(s)
    else
      var last := |assets| - 1;
      var before :- ClaimEach(s, signers, recipient, assets[..last]);
      ClaimIfEligible(before, signers, recipient, assets[last])
  }

  lemma {:induction false} FailureStops(
    s: FaucetState, signers: Signers, recipient: Address, assets: seq<Asset>, n: nat, e: Error)
    requires n <= |assets| && ClaimEach(s, signers, recipient, assets[..n]) == Err(e)
    ensures ClaimEach(s, signers, recipient, assets) == Err(e)
    decreases |assets|
  {
    if n == |assets| {
      assert assets[..n] == assets;
    } else {
      var last := |assets| - 1;
      assert assets[..last][..n] == assets[..n];
      FailureStops(s, signers, recipient, assets[..last], n, e);
    }
  }

  // Eligibility

  /** Eligibility is exactly what a claim that its recipient signs needs from the limiter. */
  lemma EligibleMeansPaid(s: FaucetState, signers: Signers, recipient: Address, asset: Asset)
    requires recipient in signers
    ensures GetEligibility(s, recipient, asset).eligible ==>
              RequestTokens(s, signers, recipient, asset) == Pay(s, recipient, asset, s.configs[asset].claimAmount)
    ensures !GetEligibility(s, recipient, asset).eligible ==> RequestTokens(s, signers, recipient, asset).Err?
  {
  }

  /** The remaining time is exact: it is the first moment, and every later one, at which the claim is open. */
  lemma RemainingIsExact(s: FaucetState, recipient: Address, asset: Asset, later: u32)
    requires Recorded(s) && later >= s.sequence
    requires asset in s.configs && s.configs[asset].enabled
    ensures GetEligibility(s.(sequence := later), recipient, asset).eligible
       <==> later - s.sequence >= GetEligibility(s, recipient, asset).remaining
  {
  }

  /** After a payment, the same claim is open at once exactly if the asset has no cooldown. */
  lemma DuplicatesArePaidWithoutCooldown(s: FaucetState, signers: Signers, recipient: Address, asset: Asset)
    requires RequestTokens(s, signers, recipient, asset).Ok?
    ensures GetEligibility(RequestTokens(s, signers, recipient, asset).value, recipient, asset).eligible
       <==> s.configs[asset].cooldownLedgers == 0
  {
  }

  /**
   * A claim gives its recipient exactly the configured amount. The Faucet pays it if it holds that
   * much, and otherwise the asset is minted; no other balance changes.
   */
  lemma ClaimPaysExactly(s: FaucetState, signers: Signers, recipient: Address, asset: Asset)
    requires RequestTokens(s, signers, recipient, asset).Ok? && recipient != s.self
    ensures asset in s.configs
    ensures var t, amount := RequestTokens(s, signers, recipient, asset).value, s.configs[asset].claimAmount;
            var own := BalanceOf(s.balances, asset, s.self) >= amount;
            && (forall a, h :: BalanceOf(t.balances, a, h)
                  == BalanceOf(s.balances, a, h)
                     + (if a == asset && h == recipient then amount else 0)
                     - (if a == asset && h == s.self && own then amount else 0))
            && t.claims == s.claims + [Claim(asset, recipient, amount, s.sequence)]
  {
  }

  // Runs

  datatype FaucetCall =
    | Configure(asset: Asset, config: AssetConfig)
    | Request(recipient: Address, asset: Asset)
    | Batch(recipient: Address, assets: seq<Asset>)
    | Advance(ledgers: u32)

  datatype FaucetTx = FaucetTx(signers: Signers, call: FaucetCall)

  function BatchClaim(s: FaucetState, signers: Signers, recipient: Address, assets: seq<Asset>): Result<FaucetState> {
    if recipient !in signers then Err(Unauthorized)
    else
      ClaimEach(s, signers, recipient, assets)
  }

  function ExecuteFaucet(s: FaucetState, tx: FaucetTx): Result<FaucetState> {
    match tx.call
    case Configure(asset, config) => SetAssetConfig(s, tx.signers, asset, config)
    case Request(recipient, asset) => RequestTokens(s, tx.signers, recipient, asset)
    case Batch(recipient, assets) => BatchClaim(s, tx.signers, recipient, assets)
    case Advance(ledgers) =>
      if s.sequence + ledgers <= U32_MAX then Ok(s.(sequence := s.sequence + ledgers)) else Err(Overflow)
  }

  function FaucetStep(s: FaucetState, tx: FaucetTx): FaucetState {
    var r := ExecuteFaucet(s, tx);
    if r.Ok? then r.value else s
  }

  function FaucetRun(s: FaucetState, txs: seq<FaucetTx>): FaucetState
    decreases |txs|
  {
    if txs == [] then s else FaucetRun(FaucetStep(s, txs[0]), txs[1..])
  }

  /** A Faucet that has not paid anything yet. */
  predicate New(s: FaucetState) {
    s.lastClaim == map[] && s.claims == []
  }

  /** No claim is recorded later than now, and the last claim of each recipient and asset is the one recorded. */
  ghost predicate Recorded(s: FaucetState) {
    && (forall k | k in s.lastClaim :: s.lastClaim[k] <= s.sequence)
    && (forall i | 0 <= i < |s.claims| ::
          && (s.claims[i].recipient, s.claims[i].asset) in s.lastClaim
          && s.claims[i].ledger <= s.lastClaim[(s.claims[i].recipient, s.claims[i].asset)])
  }

  predicate SamePair(a: Claim, b: Claim) {
    a.recipient == b.recipient && a.asset == b.asset
  }

  /** Payments of the asset to one recipient are at least `gap` ledgers apart. */
  ghost predicate Spaced(claims: seq<Claim>, asset: Asset, gap: nat) {
    forall i, j | 0 <= i < j < |claims| && SamePair(claims[i], claims[j]) && claims[i].asset == asset ::
      claims[i].ledger + gap <= claims[j].ledger
  }

  /** The asset, while it is configured at all, has a cooldown of at least `gap`. */
  predicate CooldownAtLeast(s: FaucetState, asset: Asset, gap: nat) {
    asset in s.configs ==> s.configs[asset].cooldownLedgers >= gap
  }

  predicate KeepsCooldown(tx: FaucetTx, asset: Asset, gap: nat) {
    tx.call.Configure? && tx.call.asset == asset ==> tx.call.config.cooldownLedgers >= gap
  }

  ghost predicate Limited(s: FaucetState, asset: Asset, gap: nat) {
    Recorded(s) && Spaced(s.claims, asset, gap) && CooldownAtLeast(s, asset, gap)
  }

  lemma RequestKeepsLimit(s: FaucetState, signers: Signers, recipient: Address, a: Asset, asset: Asset, gap: nat)
    requires Limited(s, asset, gap) && RequestTokens(s, signers, recipient, a).Ok?
    ensures Limited(RequestTokens(s, signers, recipient, a).value, asset, gap)
  {
    var t := RequestTokens(s, signers, recipient, a).value;
    forall i, j | 0 <= i < j < |t.claims| && SamePair(t.claims[i], t.claims[j]) && t.claims[i].asset == asset
      ensures t.claims[i].ledger + gap <= t.claims[j].ledger
    {
      assert t.claims[i] == s.claims[i];
      if j < |s.claims| {
        assert t.claims[j] == s.claims[j];
      }
    }
  }

  lemma {:induction false} BatchKeepsLimit(
    s: FaucetState, signers: Signers, recipient: Address, assets: seq<Asset>, asset: Asset, gap: nat)
    requires Limited(s, asset, gap) && ClaimEach(s, signers, recipient, assets).Ok?
    ensures Limited(ClaimEach(s, signers, recipient, assets).value, asset, gap)
    decreases |assets|
  {
    if assets != [] {
      var last := |assets| - 1;
      BatchKeepsLimit(s, signers, recipient, assets[..last], asset, gap);
      var before := ClaimEach(s, signers, recipient, assets[..last]).value;
      if GetEligibility(before, recipient, assets[last]).eligible {
        RequestKeepsLimit(before, signers, recipient, assets[last], asset, gap);
      }
    }
  }

  lemma {:induction false} RunKeepsLimit(s: FaucetState, txs: seq<FaucetTx>, asset: Asset, gap: nat)
    requires Limited(s, asset, gap)
    requires forall i | 0 <= i < |txs| :: KeepsCooldown(txs[i], asset, gap)
    ensures Limited(FaucetRun(s, txs), asset, gap)
    decreases |txs|
  {
    if txs != [] {
      assert KeepsCooldown(txs[0], asset, gap);
      var r := ExecuteFaucet(s, txs[0]);
      if r.Ok? {
        match txs[0].call {
          case Request(recipient, a) => RequestKeepsLimit(s, txs[0].signers, recipient, a, asset, gap);
          case Batch(recipient, assets) => BatchKeepsLimit(s, txs[0].signers, recipient, assets, asset, gap);
          case _ =>
        }
      }
      RunKeepsLimit(FaucetStep(s, txs[0]), txs[1..], asset, gap);
    }
  }

  // The rate bound

  predicate Within(c: Claim, recipient: Address, asset: Asset, from: int, to: int) {
    c.recipient == recipient && c.asset == asset && from <= c.ledger <= to
  }

  /** How many payments of the asset the recipient received in the ledgers from `from` to `to`. */
  function Payments(claims: seq<Claim>, recipient: Address, asset: Asset, from: int, to: int): nat {
    if claims == [] then 0
    else
      var last := |claims| - 1;
      Payments(claims[..last], recipient, asset, from, to)
      + (if Within(claims[last], recipient, asset, from, to) then 1 else 0)
  }

  /** If no payment falls into the part of a window that is cut off, the count stays the same. */
  lemma {:induction false} PaymentsShrink(
    claims: seq<Claim>, recipient: Address, asset: Asset, from: int, to: int, cut: int)
    requires forall i | 0 <= i < |claims| :: Within(claims[i], recipient, asset, from, to) ==> claims[i].ledger <= cut
    requires cut <= to
    ensures Payments(claims, recipient, asset, from, to) == Payments(claims, recipient, asset, from, cut)
    ensures cut < from ==> Payments(claims, recipient, asset, from, cut) == 0
    decreases |claims|
  {
    if claims != [] {
      PaymentsShrink(claims[..|claims| - 1], recipient, asset, from, to, cut);
    }
  }

  lemma {:induction false} SpacedPayments(
    claims: seq<Claim>, recipient: Address, asset: Asset, gap: nat, from: int, to: int)
    requires Spaced(claims, asset, gap) && gap > 0 && from <= to
    ensures gap * (Payments(claims, recipient, asset, from, to) - 1) <= to - from
    decreases |claims|
  {
    if claims != [] {
      var last := |claims| - 1;
      var earlier, c := claims[..last], claims[last];
      assert Spaced(earlier, asset, gap);
      if Within(c, recipient, asset, from, to) {
        var cut := c.ledger - gap;
        forall i | 0 <= i < |earlier| && Within(earlier[i], recipient, asset, from, to)
          ensures earlier[i].ledger <= cut
        {
          assert earlier[i] == claims[i] && SamePair(claims[i], claims[last]);
        }
        PaymentsShrink(earlier, recipient, asset, from, to, cut);
        if cut >= from {
          SpacedPayments(earlier, recipient, asset, gap, from, cut);
          GapsAdd(gap, Payments(earlier, recipient, asset, from, cut));
        }
      } else {
        SpacedPayments(earlier, recipient, asset, gap, from, to);
      }
    }
  }

  lemma GapsAdd(gap: nat, n: nat)
    ensures gap * n == gap * (n - 1) + gap
  {
  }

  /**
   * The rate bound, for every run: while an asset's cooldown stays at `gap` or more, no recipient
   * is paid more than floor(span / gap) + 1 times in any `span` + 1 consecutive ledgers, whether
   * it claims one by one or in batches with repeated assets.
   */
  lemma {:induction false} PaidAtMostOncePerCooldown(
    s: FaucetState, txs: seq<FaucetTx>, recipient: Address, asset: Asset, gap: nat, from: int, span: nat)
    requires New(s) && gap > 0
    requires CooldownAtLeast(s, asset, gap)
    requires forall i | 0 <= i < |txs| :: KeepsCooldown(txs[i], asset, gap)
    ensures Payments(FaucetRun(s, txs).claims, recipient, asset, from, from + span) <= span / gap + 1
  {
    RunKeepsLimit(s, txs, asset, gap);
    var claims := FaucetRun(s, txs).claims;
    SpacedPayments(claims, recipient, asset, gap, from, from + span);
    FloorAtLeast(span, gap, Payments(claims, recipient, asset, from, from + span) - 1);
  }
}
