/** Token balances, as the asset contracts keep them. */
module Token {
  import opened Shared
  import opened Sums

  type Balances = map<(Asset, Address), nat>

  function BalanceOf(balances: Balances, asset: Asset, holder: Address): nat {
    if (asset, holder) in balances then balances[(asset, holder)] else 0
  }

  function SetBalance(balances: Balances, asset: Asset, holder: Address, amount: nat): Balances {
    balances[(asset, holder) := amount]
  }

  /** A transfer between two holders, possibly the same one. */
  function Transfer(balances: Balances, asset: Asset, sender: Address, recipient: Address, amount: int)
    : (r: Result<Balances>)
    ensures r.Ok? ==> 0 <= amount <= BalanceOf(balances, asset, sender)
    ensures r.Ok? ==> forall a, h :: BalanceOf(r.value, a, h)
                                     == BalanceOf(balances, a, h)
                                        - (if a == asset && h == sender then amount else 0)
                                        + (if a == asset && h == recipient then amount else 0)
  {
    if amount < 0 then Err(NegativeAmount)
    else
      :- Need(BalanceOf(balances, asset, sender) >= amount, InsufficientBalance);
      var spent := SetBalance(balances, asset, sender, BalanceOf(balances, asset, sender) - amount);
      var received := BalanceOf(spent, asset, recipient) + amount;
      :- Need(received <= I128_MAX, Overflow);
      Ok(SetBalance(spent, asset, recipient, received))
  }

  function Mint(balances: Balances, allowed: bool, asset: Asset, recipient: Address, amount: int)
    : Result<Balances>
  {
    if !allowed then Err(Unauthorized)
    else
      :- Need(amount >= 0, NegativeAmount);
      var total := BalanceOf(balances, asset, recipient) + amount;
      :- Need(total <= I128_MAX, Overflow);
      Ok(SetBalance(balances, asset, recipient, total))
  }

  ghost function Share(balances: Balances, asset: Asset): ((Asset, Address)) -> int {
    (k: (Asset, Address)) => if k.0 == asset && k in balances then balances[k] else 0
  }

  /** What all holders of an asset hold together. */
  ghost function Supply(balances: Balances, asset: Asset): int {
    SumOver(balances.Keys, Share(balances, asset))
  }

  lemma SetBalanceSupply(balances: Balances, asset: Asset, holder: Address, amount: nat, other: Asset)
    ensures Supply(SetBalance(balances, asset, holder, amount), other)
         == Supply(balances, other)
            + (if other == asset then amount - BalanceOf(balances, asset, holder) else 0)
  {
    var updated := SetBalance(balances, asset, holder, amount);
    SumChange(balances.Keys, Share(balances, other), updated.Keys, Share(updated, other), (asset, holder));
  }

  /** A transfer neither creates nor destroys tokens, self-transfers included. */
  lemma TransferKeepsSupply(
    balances: Balances, asset: Asset, sender: Address, recipient: Address, amount: int, other: Asset)
    requires Transfer(balances, asset, sender, recipient, amount).Ok?
    ensures Supply(Transfer(balances, asset, sender, recipient, amount).value, other) == Supply(balances, other)
  {
    var less := BalanceOf(balances, asset, sender) - amount;
    var spent := SetBalance(balances, asset, sender, less);
    SetBalanceSupply(balances, asset, sender, less, other);
    SetBalanceSupply(spent, asset, recipient, BalanceOf(spent, asset, recipient) + amount, other);
  }

  /** Two holders never hold more of an asset than its supply. */
  lemma PairWithinSupply(balances: Balances, asset: Asset, one: Address, two: Address)
    ensures one != two ==> BalanceOf(balances, asset, one) + BalanceOf(balances, asset, two) <= Supply(balances, asset)
    ensures BalanceOf(balances, asset, one) <= Supply(balances, asset)
  {
    var f := Share(balances, asset);
    var pair := (set k | k in {(asset, one), (asset, two)} && k in balances);
    SumAtLeastPart(balances.Keys, pair, f);
    if (asset, one) in pair {
      SumRemove(pair, f, (asset, one));
    }
    var rest := pair - {(asset, one)};
    if one != two && (asset, two) in rest {
      SumRemove(rest, f, (asset, two));
      assert rest - {(asset, two)} == {};
    } else {
      assert rest == {};
    }
  }

  /** While the supply fits in an i128, a transfer between two holders fails only for want of balance. */
  lemma TransferSucceeds(balances: Balances, asset: Asset, sender: Address, recipient: Address, amount: int)
    requires Supply(balances, asset) <= I128_MAX
    ensures Transfer(balances, asset, sender, recipient, amount).Ok?
       <==> 0 <= amount <= BalanceOf(balances, asset, sender)
  {
    PairWithinSupply(balances, asset, sender, recipient);
  }
}
