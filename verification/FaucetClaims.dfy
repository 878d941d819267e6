/** What single and batched claims pay, told from the state before them: when they succeed, whom they pay, and how much. */
module FaucetClaims {
  import opened Shared
  import opened Token
  import opened Faucet

  // Reachable states

  /** Every configured amount is positive, as the admin's entry point demands. */
  ghost predicate PositiveConfigs(s: FaucetState) {
    forall a | a in s.configs :: s.configs[a].claimAmount > 0
  }

  /** Every state that a Faucet can come to from its deployment. */
  ghost predicate FaucetReachable(s: FaucetState) {
    exists start, txs :: New(start) && start.configs == map[] && s == FaucetRun(start, txs)
  }

  lemma {:induction false} ClaimsKeepConfigs(s: FaucetState, signers: Signers, recipient: Address, assets: seq<Asset>)
    requires ClaimEach(s, signers, recipient, assets).Ok?
    ensures ClaimEach(s, signers, recipient, assets).value.configs == s.configs
    decreases |assets|
  {
    if assets != [] {
      ClaimsKeepConfigs(s, signers, recipient, assets[..|assets| - 1]);
    }
  }

  lemma {:induction false} RunKeepsPositive(s: FaucetState, txs: seq<FaucetTx>)
    requires PositiveConfigs(s)
    ensures PositiveConfigs(FaucetRun(s, txs))
    decreases |txs|
  {
    if txs != [] {
      if txs[0].call.Batch? && ExecuteFaucet(s, txs[0]).Ok? {
        ClaimsKeepConfigs(s, txs[0].signers, txs[0].call.recipient, txs[0].call.assets);
      }
      RunKeepsPositive(FaucetStep(s, txs[0]), txs[1..]);
    }
  }

  lemma ReachableIsPositive(s: FaucetState)
    requires FaucetReachable(s)
    ensures PositiveConfigs(s)
  {
    var start, txs :| New(start) && start.configs == map[] && s == FaucetRun(start, txs);
    RunKeepsPositive(start, txs);
  }

  // Single claims

  /** The asset is enabled, and its cooldown since the recipient's last claim, if there is one, is over. */
  predicate IsDue(s: FaucetState, recipient: Address, asset: Asset) {
    && asset in s.configs && s.configs[asset].enabled
    && var cooldown := s.configs[asset].cooldownLedgers;
       cooldown == 0 || (recipient, asset) !in s.lastClaim || s.sequence >= s.lastClaim[(recipient, asset)] + cooldown
  }

  function AmountOf(s: FaucetState, asset: Asset): int {
    if asset in s.configs then s.configs[asset].claimAmount else 0
  }

  /** The limiter says exactly what is due, and how long the rest of a cooldown is. */
  lemma EligibilityIsExact(s: FaucetState, recipient: Address, asset: Asset)
    ensures GetEligibility(s, recipient, asset).eligible <==> IsDue(s, recipient, asset)
    ensures asset in s.configs && s.configs[asset].enabled && !IsDue(s, recipient, asset)
            && s.lastClaim[(recipient, asset)] <= s.sequence ==>
              GetEligibility(s, recipient, asset).remaining
              == s.lastClaim[(recipient, asset)] + s.configs[asset].cooldownLedgers - s.sequence
    ensures IsDue(s, recipient, asset) || asset !in s.configs || !s.configs[asset].enabled ==>
              GetEligibility(s, recipient, asset).remaining == 0
  {
  }

  /** The amount is at hand or can be minted, and the recipient's balance has room for it. */
  predicate CanPay(s: FaucetState, recipient: Address, asset: Asset, amount: int) {
    && (BalanceOf(s.balances, asset, s.self) >= amount || asset in s.mintable)
    && BalanceOf(s.balances, asset, recipient) + amount <= I128_MAX
  }

  /** Everything that a payment changes: the recipient's balance, the Faucet's own, the record and the log. */
  ghost predicate PaidOnce(s: FaucetState, t: FaucetState, recipient: Address, asset: Asset, amount: int) {
    && t == s.(lastClaim := t.lastClaim, balances := t.balances, claims := t.claims)
    && t.lastClaim == s.lastClaim[(recipient, asset) := s.sequence]
    && t.claims == s.claims + [Claim(asset, recipient, amount, s.sequence)]
    && forall a, h ::
         BalanceOf(t.balances, a, h)
         == BalanceOf(s.balances, a, h)
            + (if a == asset && h == recipient then amount else 0)
            - (if a == asset && h == s.self && BalanceOf(s.balances, asset, s.self) >= amount then amount else 0)
  }

  lemma PaySucceeds(s: FaucetState, recipient: Address, asset: Asset, amount: int)
    requires amount > 0 && recipient != s.self
    ensures Pay(s, recipient, asset, amount).Ok? <==> CanPay(s, recipient, asset, amount)
    ensures Pay(s, recipient, asset, amount).Ok? ==>
              PaidOnce(s, Pay(s, recipient, asset, amount).value, recipient, asset, amount)
  {
  }

  /**
   * A claim succeeds exactly when its recipient signs it, it is due, and it can be paid; it then
   * pays the configured amount, from the Faucet's own balance if that suffices, and changes nothing else.
   */
  lemma RequestSucceeds(s: FaucetState, signers: Signers, recipient: Address, asset: Asset)
    requires FaucetReachable(s) && s.self !in signers
    ensures var r, amount := RequestTokens(s, signers, recipient, asset), AmountOf(s, asset);
            && (r.Ok? <==> recipient in signers && IsDue(s, recipient, asset) && CanPay(s, recipient, asset, amount))
            && (r.Ok? ==> PaidOnce(s, r.value, recipient, asset, amount))
  {
    ReachableIsPositive(s);
    if asset in s.configs && recipient in signers {
      PaySucceeds(s, recipient, asset, s.configs[asset].claimAmount);
    }
  }

  /** The admin, and nobody else, sets one configuration to exactly what it says. */
  lemma ConfigureSucceeds(s: FaucetState, signers: Signers, asset: Asset, config: AssetConfig)
    ensures var r := SetAssetConfig(s, signers, asset, config);
            && (r.Ok? <==> ADMIN in signers && config.claimAmount > 0)
            && (r.Ok? ==>
                  var t := r.value;
                  && t == s.(configs := t.configs)
                  && asset in t.configs && t.configs[asset] == config
                  && t.configs - {asset} == s.configs - {asset})
  {
  }

  // Batches

  /** How often a batch pays an asset, told from the state before it. */
  function Times(s: FaucetState, recipient: Address, assets: seq<Asset>, asset: Asset): nat {
    if !IsDue(s, recipient, asset) then 0
    else if s.configs[asset].cooldownLedgers == 0 then multiset(assets)[asset]
    else if asset in assets then 1
    else 0
  }

  /** The positions that are paid: what is due, and with a cooldown only where the asset comes first. */
  predicate Chosen(s: FaucetState, recipient: Address, assets: seq<Asset>, i: nat)
    requires i < |assets|
  {
    && IsDue(s, recipient, assets[i])
    && (s.configs[assets[i]].cooldownLedgers == 0 || assets[i] !in assets[..i])
  }

  /** The payments of the chosen positions, in the order of the list. */
  function NewClaims(s: FaucetState, recipient: Address, assets: seq<Asset>): seq<Claim> {
    if assets == [] then []
    else
      var last := |assets| - 1;
      NewClaims(s, recipient, assets[..last])
      + (if Chosen(s, recipient, assets, last)
         then [Claim(assets[last], recipient, AmountOf(s, assets[last]), s.sequence)] else [])
  }

  /** What a number of payments takes out of the Faucet's own balance: it pays while it can, then mints. */
  function FromOwn(own: nat, amount: int, times: nat): int {
    if amount > 0 then Min(times, own / amount) * amount else 0
  }

  /** All that a batch changes, told from the state before it. */
  ghost predicate BatchEffect(s: FaucetState, t: FaucetState, recipient: Address, assets: seq<Asset>) {
    && t == s.(lastClaim := t.lastClaim, balances := t.balances, claims := t.claims)
    && t.claims == s.claims + NewClaims(s, recipient, assets)
    && Recordings(s, t, recipient, assets)
    && Balances(s, t, recipient, assets)
  }

  ghost predicate Recordings(s: FaucetState, t: FaucetState, recipient: Address, assets: seq<Asset>) {
    forall h: Address, a: Asset ::
      if h == recipient && Times(s, recipient, assets, a) > 0
      then (h, a) in t.lastClaim && t.lastClaim[(h, a)] == s.sequence
      else ((h, a) in t.lastClaim <==> (h, a) in s.lastClaim)
           && ((h, a) in s.lastClaim ==> t.lastClaim[(h, a)] == s.lastClaim[(h, a)])
  }

  ghost predicate Balances(s: FaucetState, t: FaucetState, recipient: Address, assets: seq<Asset>) {
    forall a, h :: Holding(s, t, recipient, a, Times(s, recipient, assets, a), h)
  }

  /** One more payment comes out of the own balance exactly while the whole of it suffices. */
  lemma OneMoreFromOwn(own: nat, amount: int, times: nat)
    requires amount > 0
    ensures 0 <= FromOwn(own, amount, times) <= own
    ensures own - FromOwn(own, amount, times) >= amount <==> (times + 1) * amount <= own
    ensures FromOwn(own, amount, times + 1)
         == FromOwn(own, amount, times) + (if own - FromOwn(own, amount, times) >= amount then amount else 0)
  {
    var most := own / amount;
    assert most * amount <= own < most * amount + amount;
    if times < most {
      assert (times + 1) * amount == times * amount + amount;
      assert (times + 1) * amount <= most * amount;
    } else {
      assert most * amount <= times * amount;
      assert (times + 1) * amount == times * amount + amount;
    }
  }

  lemma TimesStep(s: FaucetState, recipient: Address, assets: seq<Asset>, a: Asset)
    requires assets != []
    ensures var last := |assets| - 1;
            Times(s, recipient, assets, a)
            == Times(s, recipient, assets[..last], a)
               + (if a == assets[last] && Chosen(s, recipient, assets, last) then 1 else 0)
  {
    var last := |assets| - 1;
    assert assets == assets[..last] + [assets[last]];
    assert multiset(assets) == multiset(assets[..last]) + multiset{assets[last]};
  }

  /** After the first part of a batch the next asset is due exactly if its position is chosen. */
  lemma ChosenIsDue(s: FaucetState, t: FaucetState, recipient: Address, assets: seq<Asset>)
    requires assets != [] && BatchEffect(s, t, recipient, assets[..|assets| - 1])
    ensures IsDue(t, recipient, assets[|assets| - 1]) <==> Chosen(s, recipient, assets, |assets| - 1)
  {
    var asset, before := assets[|assets| - 1], assets[..|assets| - 1];
    assert (recipient, asset) in t.lastClaim || (recipient, asset) !in t.lastClaim;
    if IsDue(s, recipient, asset) && s.configs[asset].cooldownLedgers > 0 {
      assert Times(s, recipient, before, asset) > 0 <==> asset in before;
    }
  }

  lemma NothingChosen(s: FaucetState, t: FaucetState, recipient: Address, assets: seq<Asset>)
    requires assets != [] && BatchEffect(s, t, recipient, assets[..|assets| - 1])
    requires !Chosen(s, recipient, assets, |assets| - 1)
    ensures BatchEffect(s, t, recipient, assets)
  {
    forall a ensures Times(s, recipient, assets, a) == Times(s, recipient, assets[..|assets| - 1], a) {
      TimesStep(s, recipient, assets, a);
    }
  }

  lemma OneMoreHolding(
    s: FaucetState, t: FaucetState, u: FaucetState, recipient: Address, asset: Asset, times: nat, h: Address)
    requires recipient != s.self && t.self == s.self && AmountOf(s, asset) > 0
    requires forall g :: Holding(s, t, recipient, asset, times, g)
    requires PaidOnce(t, u, recipient, asset, AmountOf(s, asset))
    ensures Holding(s, u, recipient, asset, times + 1, h)
  {
    var amount := AmountOf(s, asset);
    OneMoreFromOwn(BalanceOf(s.balances, asset, s.self), amount, times);
    assert (times + 1) * amount == times * amount + amount;
    assert Holding(s, t, recipient, asset, times, h) && Holding(s, t, recipient, asset, times, s.self);
  }

  /** A balance of the asset after so many payments. */
  predicate Holding(s: FaucetState, t: FaucetState, recipient: Address, a: Asset, times: nat, h: Address) {
    BalanceOf(t.balances, a, h)
    == BalanceOf(s.balances, a, h)
       + (if h == recipient then times * AmountOf(s, a) else 0)
       - (if h == s.self then FromOwn(BalanceOf(s.balances, a, s.self), AmountOf(s, a), times) else 0)
  }

  lemma OneMoreBalance(s: FaucetState, t: FaucetState, u: FaucetState, recipient: Address, assets: seq<Asset>)
    requires recipient != s.self && assets != [] && Chosen(s, recipient, assets, |assets| - 1)
    requires AmountOf(s, assets[|assets| - 1]) > 0 && t.self == s.self
    requires Balances(s, t, recipient, assets[..|assets| - 1])
    requires PaidOnce(t, u, recipient, assets[|assets| - 1], AmountOf(s, assets[|assets| - 1]))
    ensures Balances(s, u, recipient, assets)
  {
    var last := |assets| - 1;
    var asset := assets[last];
    forall a, h
      ensures Holding(s, u, recipient, a, Times(s, recipient, assets, a), h)
    {
      assert Holding(s, t, recipient, a, Times(s, recipient, assets[..last], a), h);
      TimesStep(s, recipient, assets, a);
      if a == asset {
        OneMoreHolding(s, t, u, recipient, asset, Times(s, recipient, assets[..last], a), h);
      }
    }
  }

  lemma OneMoreRecord(s: FaucetState, t: FaucetState, u: FaucetState, recipient: Address, assets: seq<Asset>)
    requires assets != [] && Chosen(s, recipient, assets, |assets| - 1) && t.sequence == s.sequence
    requires Recordings(s, t, recipient, assets[..|assets| - 1])
    requires u.lastClaim == t.lastClaim[(recipient, assets[|assets| - 1]) := t.sequence]
    ensures Recordings(s, u, recipient, assets)
  {
    forall a ensures Times(s, recipient, assets, a)
                     == Times(s, recipient, assets[..|assets| - 1], a) + (if a == assets[|assets| - 1] then 1 else 0) {
      TimesStep(s, recipient, assets, a);
    }
  }

  lemma OneMorePaid(s: FaucetState, t: FaucetState, u: FaucetState, recipient: Address, assets: seq<Asset>)
    requires PositiveConfigs(s) && recipient != s.self && assets != []
    requires BatchEffect(s, t, recipient, assets[..|assets| - 1]) && Chosen(s, recipient, assets, |assets| - 1)
    requires PaidOnce(t, u, recipient, assets[|assets| - 1], AmountOf(s, assets[|assets| - 1]))
    ensures BatchEffect(s, u, recipient, assets)
  {
    OneMoreBalance(s, t, u, recipient, assets);
    OneMoreRecord(s, t, u, recipient, assets);
  }

  /** Every asset that the batch pays can be paid that often, and the recipient has room for it. */
  ghost predicate Payable(s: FaucetState, recipient: Address, assets: seq<Asset>) {
    forall a :: PayableTimes(s, recipient, a, Times(s, recipient, assets, a))
  }

  predicate PayableTimes(s: FaucetState, recipient: Address, a: Asset, times: nat) {
    times > 0 ==>
      && (times * AmountOf(s, a) <= BalanceOf(s.balances, a, s.self) || a in s.mintable)
      && BalanceOf(s.balances, a, recipient) + times * AmountOf(s, a) <= I128_MAX
  }

  lemma FewerTimesPayable(s: FaucetState, recipient: Address, a: Asset, times: nat)
    requires PayableTimes(s, recipient, a, times + 1) && AmountOf(s, a) >= 0
    ensures PayableTimes(s, recipient, a, times)
  {
    assert (times + 1) * AmountOf(s, a) == times * AmountOf(s, a) + AmountOf(s, a);
  }

  /** Where the part before can be paid, the whole can exactly if one more payment of its last asset can. */
  lemma PayableStep(s: FaucetState, t: FaucetState, recipient: Address, assets: seq<Asset>)
    requires PositiveConfigs(s) && recipient != s.self && assets != [] && Chosen(s, recipient, assets, |assets| - 1)
    requires BatchEffect(s, t, recipient, assets[..|assets| - 1]) && Payable(s, recipient, assets[..|assets| - 1])
    ensures Payable(s, recipient, assets)
       <==> CanPay(t, recipient, assets[|assets| - 1], AmountOf(s, assets[|assets| - 1]))
  {
    var last := |assets| - 1;
    var asset, before := assets[last], assets[..last];
    var times, amount := Times(s, recipient, before, asset), AmountOf(s, asset);
    OneMoreFromOwn(BalanceOf(s.balances, asset, s.self), amount, times);
    assert (times + 1) * amount == times * amount + amount;
    TimesStep(s, recipient, assets, asset);
    assert Holding(s, t, recipient, asset, times, recipient) && Holding(s, t, recipient, asset, times, s.self);
    assert CanPay(t, recipient, asset, amount) <==> PayableTimes(s, recipient, asset, times + 1);
    if CanPay(t, recipient, asset, amount) {
      forall a ensures PayableTimes(s, recipient, a, Times(s, recipient, assets, a)) {
        TimesStep(s, recipient, assets, a);
        assert PayableTimes(s, recipient, a, Times(s, recipient, before, a));
      }
    }
  }

  lemma PayablePart(s: FaucetState, recipient: Address, assets: seq<Asset>)
    requires PositiveConfigs(s) && assets != [] && Payable(s, recipient, assets)
    ensures Payable(s, recipient, assets[..|assets| - 1])
  {
    var before := assets[..|assets| - 1];
    forall a ensures PayableTimes(s, recipient, a, Times(s, recipient, before, a)) {
      TimesStep(s, recipient, assets, a);
      assert PayableTimes(s, recipient, a, Times(s, recipient, assets, a));
      if Times(s, recipient, assets, a) == Times(s, recipient, before, a) + 1 {
        FewerTimesPayable(s, recipient, a, Times(s, recipient, before, a));
      }
    }
  }

  /** One step of the batch loop: it pays the next asset if its position is chosen and it can be paid. */
  lemma ClaimStep(s: FaucetState, t: FaucetState, signers: Signers, recipient: Address, assets: seq<Asset>)
    requires PositiveConfigs(s) && recipient != s.self && recipient in signers && assets != []
    requires BatchEffect(s, t, recipient, assets[..|assets| - 1]) && Payable(s, recipient, assets[..|assets| - 1])
    ensures var r := ClaimIfEligible(t, signers, recipient, assets[|assets| - 1]);
            && (r.Ok? <==> Payable(s, recipient, assets))
            && (r.Ok? ==> BatchEffect(s, r.value, recipient, assets))
  {
    var last := |assets| - 1;
    var asset := assets[last];
    ChosenIsDue(s, t, recipient, assets);
    EligibilityIsExact(t, recipient, asset);
    if Chosen(s, recipient, assets, last) {
      var amount := AmountOf(s, asset);
      PaySucceeds(t, recipient, asset, amount);
      PayableStep(s, t, recipient, assets);
      EligibleMeansPaid(t, signers, recipient, asset);
      if CanPay(t, recipient, asset, amount) {
        OneMorePaid(s, t, Pay(t, recipient, asset, amount).value, recipient, assets);
      }
    } else {
      NothingChosen(s, t, recipient, assets);
      NothingMorePayable(s, recipient, assets);
    }
  }

  lemma NothingMorePayable(s: FaucetState, recipient: Address, assets: seq<Asset>)
    requires assets != [] && !Chosen(s, recipient, assets, |assets| - 1)
    requires Payable(s, recipient, assets[..|assets| - 1])
    ensures Payable(s, recipient, assets)
  {
    forall a ensures PayableTimes(s, recipient, a, Times(s, recipient, assets, a)) {
      TimesStep(s, recipient, assets, a);
      assert PayableTimes(s, recipient, a, Times(s, recipient, assets[..|assets| - 1], a));
    }
  }

  lemma {:induction false} ClaimEachPays(s: FaucetState, signers: Signers, recipient: Address, assets: seq<Asset>)
    requires PositiveConfigs(s) && recipient != s.self && recipient in signers
    ensures var r := ClaimEach(s, signers, recipient, assets);
            && (r.Ok? <==> Payable(s, recipient, assets))
            && (r.Ok? ==> BatchEffect(s, r.value, recipient, assets))
    decreases |assets|
  {
    if assets == [] {
      EmptyBatch(s, recipient);
    } else {
      var before := assets[..|assets| - 1];
      ClaimEachPays(s, signers, recipient, before);
      if Payable(s, recipient, before) {
        ClaimStep(s, ClaimEach(s, signers, recipient, before).value, signers, recipient, assets);
      } else if Payable(s, recipient, assets) {
        PayablePart(s, recipient, assets);
      }
    }
  }

  lemma NothingFromOwn(own: nat, amount: int)
    ensures FromOwn(own, amount, 0) == 0
  {
    if amount > 0 {
      assert Min(0, own / amount) == 0;
    }
  }

  lemma EmptyBatch(s: FaucetState, recipient: Address)
    ensures Payable(s, recipient, []) && BatchEffect(s, s, recipient, [])
  {
    forall a ensures Times(s, recipient, [], a) == 0 {
    }
    forall a, h ensures Holding(s, s, recipient, a, 0, h) {
      NothingFromOwn(BalanceOf(s.balances, a, s.self), AmountOf(s, a));
    }
    assert Balances(s, s, recipient, []);
  }

  /**
   * What a batch pays, told from the state before it. It succeeds exactly when its recipient signs
   * and every asset can be paid as often as it is due: as often as it is listed if it has no
   * cooldown, once if it is listed and its cooldown is over, and never otherwise. The recipient
   * gets that many times the configured amount; the Faucet pays while its own balance suffices and
   * has the rest minted; the payments are logged in the order of the list, and nothing else changes.
   */
  lemma BatchSucceeds(s: FaucetState, signers: Signers, recipient: Address, assets: seq<Asset>)
    requires FaucetReachable(s) && s.self !in signers
    ensures var r := BatchClaim(s, signers, recipient, assets);
            && (r.Ok? <==> recipient in signers && Payable(s, recipient, assets))
            && (r.Ok? ==> BatchEffect(s, r.value, recipient, assets))
  {
    ReachableIsPositive(s);
    if recipient in signers {
      ClaimEachPays(s, signers, recipient, assets);
    }
  }

  /** The logged payments of a batch are as many per asset as it pays. */
  lemma {:induction false} ClaimsMatchTimes(s: FaucetState, recipient: Address, assets: seq<Asset>, asset: Asset)
    ensures Payments(NewClaims(s, recipient, assets), recipient, asset, s.sequence, s.sequence)
         == Times(s, recipient, assets, asset)
    decreases |assets|
  {
    if assets != [] {
      var last := |assets| - 1;
      var before := NewClaims(s, recipient, assets[..last]);
      ClaimsMatchTimes(s, recipient, assets[..last], asset);
      TimesStep(s, recipient, assets, asset);
      if Chosen(s, recipient, assets, last) {
        var claim := Claim(assets[last], recipient, AmountOf(s, assets[last]), s.sequence);
        assert (before + [claim])[..|before|] == before;
      } else {
        assert NewClaims(s, recipient, assets) == before;
      }
    }
  }

  /** The order in a batch does not matter for what is paid, only for the order in the log. */
  lemma OrderIsFree(s: FaucetState, signers: Signers, recipient: Address, assets: seq<Asset>, other: seq<Asset>)
    requires FaucetReachable(s) && s.self !in signers && multiset(assets) == multiset(other)
    ensures var r, q := BatchClaim(s, signers, recipient, assets), BatchClaim(s, signers, recipient, other);
            && (r.Ok? <==> q.Ok?)
            && (r.Ok? ==> forall a, h :: BalanceOf(r.value.balances, a, h) == BalanceOf(q.value.balances, a, h))
            && (r.Ok? ==> r.value.lastClaim == q.value.lastClaim)
  {
    BatchSucceeds(s, signers, recipient, assets);
    BatchSucceeds(s, signers, recipient, other);
    SameTimes(s, recipient, assets, other);
    if Payable(s, recipient, assets) && recipient in signers {
      var t, u := BatchClaim(s, signers, recipient, assets).value, BatchClaim(s, signers, recipient, other).value;
      SameRecordings(s, t, u, recipient, assets, other);
      forall a, h ensures BalanceOf(t.balances, a, h) == BalanceOf(u.balances, a, h) {
        assert Holding(s, t, recipient, a, Times(s, recipient, assets, a), h);
        assert Holding(s, u, recipient, a, Times(s, recipient, other, a), h);
      }
    }
  }

  lemma SameTimes(s: FaucetState, recipient: Address, assets: seq<Asset>, other: seq<Asset>)
    requires multiset(assets) == multiset(other)
    ensures forall a :: Times(s, recipient, assets, a) == Times(s, recipient, other, a)
    ensures Payable(s, recipient, assets) <==> Payable(s, recipient, other)
  {
    forall a ensures Times(s, recipient, assets, a) == Times(s, recipient, other, a) {
      assert a in assets <==> a in multiset(assets);
    }
    if Payable(s, recipient, assets) || Payable(s, recipient, other) {
      forall a ensures PayableTimes(s, recipient, a, Times(s, recipient, assets, a)) {
        assert Times(s, recipient, assets, a) == Times(s, recipient, other, a);
        assert Payable(s, recipient, other) ==> PayableTimes(s, recipient, a, Times(s, recipient, other, a));
      }
      forall a ensures PayableTimes(s, recipient, a, Times(s, recipient, other, a)) {
        assert Times(s, recipient, assets, a) == Times(s, recipient, other, a);
      }
    }
  }

  lemma SameRecordings(
    s: FaucetState, t: FaucetState, u: FaucetState, recipient: Address, assets: seq<Asset>, other: seq<Asset>)
    requires Recordings(s, t, recipient, assets) && Recordings(s, u, recipient, other)
    requires forall a :: Times(s, recipient, assets, a) == Times(s, recipient, other, a)
    ensures t.lastClaim == u.lastClaim
  {
    forall k: (Address, Asset)
      ensures k in t.lastClaim <==> k in u.lastClaim
      ensures k in t.lastClaim ==> t.lastClaim[k] == u.lastClaim[k]
    {
      assert k == (k.0, k.1) && Times(s, recipient, assets, k.1) == Times(s, recipient, other, k.1);
    }
  }

  // Runs

  /** What a list of payments gives a recipient of an asset. */
  function Received(claims: seq<Claim>, recipient: Address, asset: Asset): int {
    if claims == [] then 0
    else
      var last := claims[|claims| - 1];
      Received(claims[..|claims| - 1], recipient, asset)
      + (if last.recipient == recipient && last.asset == asset then last.amount else 0)
  }

  /** Every balance but the Faucet's own grew by exactly what was logged for it. */
  ghost predicate Logged(s: FaucetState, t: FaucetState) {
    && t.self == s.self
    && forall a, h | h != s.self ::
         BalanceOf(t.balances, a, h) - Received(t.claims, h, a) == BalanceOf(s.balances, a, h) - Received(s.claims, h, a)
  }

  lemma RequestIsLogged(s: FaucetState, signers: Signers, recipient: Address, asset: Asset)
    requires RequestTokens(s, signers, recipient, asset).Ok? && s.self !in signers
    ensures Logged(s, RequestTokens(s, signers, recipient, asset).value)
  {
    ClaimPaysExactly(s, signers, recipient, asset);
    var t := RequestTokens(s, signers, recipient, asset).value;
    assert t.claims[..|t.claims| - 1] == s.claims;
  }

  lemma {:induction false} BatchIsLogged(s: FaucetState, signers: Signers, recipient: Address, assets: seq<Asset>)
    requires ClaimEach(s, signers, recipient, assets).Ok? && s.self !in signers
    ensures Logged(s, ClaimEach(s, signers, recipient, assets).value)
    decreases |assets|
  {
    if assets != [] {
      var last := |assets| - 1;
      BatchIsLogged(s, signers, recipient, assets[..last]);
      var before := ClaimEach(s, signers, recipient, assets[..last]).value;
      if GetEligibility(before, recipient, assets[last]).eligible {
        RequestIsLogged(before, signers, recipient, assets[last]);
      }
    }
  }

  /** Over every run, each balance but the Faucet's own is its initial one plus the logged payments to it. */
  lemma {:induction false} ClaimsExplainBalances(s: FaucetState, txs: seq<FaucetTx>)
    requires forall i | 0 <= i < |txs| :: s.self !in txs[i].signers
    ensures Logged(s, FaucetRun(s, txs))
    decreases |txs|
  {
    if txs != [] {
      var next := FaucetStep(s, txs[0]);
      if ExecuteFaucet(s, txs[0]).Ok? {
        match txs[0].call {
          case Request(recipient, asset) => RequestIsLogged(s, txs[0].signers, recipient, asset);
          case Batch(recipient, assets) => BatchIsLogged(s, txs[0].signers, recipient, assets);
          case _ =>
        }
      }
      ClaimsExplainBalances(next, txs[1..]);
    }
  }
}
