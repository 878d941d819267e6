/** The Vault as deployed: its ledgers are updated in place, one storage entry at a time. */
module VaultEntry {
  import opened Shared
  import opened Environment
  import Ledger
  import Vault

  class VaultContract {
    const env: Env
    const tokens: TokenLedger
    var offerLocked: map<nat, int>
    var loanCollateral: map<nat, int>
    var locked: map<(nat, Asset), int>

    constructor (env: Env, tokens: TokenLedger)
      ensures this.env == env && this.tokens == tokens
      ensures offerLocked == map[] && loanCollateral == map[] && locked == map[]
    {
      this.env, this.tokens := env, tokens;
      offerLocked, loanCollateral, locked := map[], map[], map[];
    }

    /** The Vault's storage, with the balances and the log it writes to. */
    function View(): Ledger.LedgerState
      reads this, env, tokens
    {
      Ledger.LedgerState(tokens.balances, offerLocked, loanCollateral, locked, env.log)
    }

    function GetOfferLocked(offer: nat): int
      reads this
    {
      if offer in offerLocked then offerLocked[offer] else 0
    }

    function GetLoanCollateral(loan: nat): int
      reads this
    {
      if loan in loanCollateral then loanCollateral[loan] else 0
    }

    function GetLocked(loan: nat, asset: Asset): int
      reads this
    {
      if (loan, asset) in locked then locked[(loan, asset)] else 0
    }

    method IncreaseOfferLocked(offer: nat, amount: int) returns (r: Result<()>)
      modifies this`offerLocked
      ensures match Vault.IncreaseOfferLocked(old(View()), offer, amount)
              case Ok(s) => r == Ok(()) && View() == s
              case Err(e) => r == Err(e)
    {
      var current := GetOfferLocked(offer);
      var total :- Vault.CheckedAdd(current, amount);
      offerLocked := Vault.SetOrRemove(offerLocked, offer, total);
      return Ok(());
    }

    method DecreaseOfferLocked(offer: nat, amount: int) returns (r: Result<()>)
      modifies this`offerLocked
      ensures match Vault.DecreaseOfferLocked(old(View()), offer, amount)
              case Ok(s) => r == Ok(()) && View() == s
              case Err(e) => r == Err(e)
    {
      var current := GetOfferLocked(offer);
      if current < amount {
        return Err(InsufficientLenderFunds);
      }
      offerLocked := Vault.SetOrRemove(offerLocked, offer, current - amount);
      return Ok(());
    }

    method IncreaseLoanCollateral(loan: nat, asset: Asset, amount: int) returns (r: Result<()>)
      modifies this`loanCollateral, this`locked
      ensures match Vault.IncreaseLoanCollateral(old(View()), loan, asset, amount)
              case Ok(s) => r == Ok(()) && View() == s
              case Err(e) => r == Err(e)
    {
      var current := GetLoanCollateral(loan);
      var total :- Vault.CheckedAdd(current, amount);
      loanCollateral := Vault.SetOrRemove(loanCollateral, loan, total);
      var assetCurrent := GetLocked(loan, asset);
      var assetTotal :- Vault.CheckedAdd(assetCurrent, amount);
      locked := Vault.SetOrRemove(locked, (loan, asset), assetTotal);
      return Ok(());
    }

    method DecreaseLoanCollateral(loan: nat, asset: Asset, amount: int) returns (r: Result<()>)
      modifies this`loanCollateral, this`locked
      ensures match Vault.DecreaseLoanCollateral(old(View()), loan, asset, amount)
              case Ok(s) => r == Ok(()) && View() == s
              case Err(e) => r == Err(e)
    {
      var current := GetLoanCollateral(loan);
      if current < amount {
        return Err(InsufficientCollateral);
      }
      loanCollateral := Vault.SetOrRemove(loanCollateral, loan, current - amount);
      var assetCurrent := GetLocked(loan, asset);
      if assetCurrent < amount {
        return Err(InsufficientCollateral);
      }
      locked := Vault.SetOrRemove(locked, (loan, asset), assetCurrent - amount);
      return Ok(());
    }

    method LockLenderFunds(offer: nat, lender: Address, asset: Asset, amount: int) returns (r: Result<()>)
      modifies this`offerLocked, tokens, env`log
      ensures match Vault.LockLenderFunds(old(View()), env.signers, offer, lender, asset, amount)
              case Ok(s) => r == Ok(()) && View() == s
              case Err(e) => r == Err(e)
    {
      if amount <= 0 {
        return Err(AmountNotPositive);
      }
      var _ :- env.RequireAuth(lender);
      var _ :- tokens.Transfer(asset, lender, VaultAddress, amount);
      var _ :- IncreaseOfferLocked(offer, amount);
      env.Publish(LenderFundsLocked(offer, lender, asset, amount));
      return Ok(());
    }

    method UnlockLenderFunds(offer: nat, lender: Address, asset: Asset, amount: int) returns (r: Result<()>)
      modifies this`offerLocked, tokens, env`log
      ensures match Vault.UnlockLenderFunds(old(View()), offer, lender, asset, amount)
              case Ok(s) => r == Ok(()) && View() == s
              case Err(e) => r == Err(e)
    {
      if amount <= 0 {
        return Err(AmountNotPositive);
      }
      var _ :- DecreaseOfferLocked(offer, amount);
      var _ :- tokens.Transfer(asset, VaultAddress, lender, amount);
      env.Publish(LenderFundsUnlocked(offer, lender, asset, amount));
      return Ok(());
    }

    method LockBorrowerCollateral(loan: nat, borrower: Address, asset: Asset, amount: int) returns (r: Result<()>)
      modifies this`loanCollateral, this`locked, tokens, env`log
      ensures match Vault.LockBorrowerCollateral(old(View()), env.signers, loan, borrower, asset, amount)
              case Ok(s) => r == Ok(()) && View() == s
              case Err(e) => r == Err(e)
    {
      if amount <= 0 {
        return Err(AmountNotPositive);
      }
      var _ :- env.RequireAuth(borrower);
      var _ :- tokens.Transfer(asset, borrower, VaultAddress, amount);
      var _ :- IncreaseLoanCollateral(loan, asset, amount);
      env.Publish(CollateralLocked(loan, borrower, asset, amount));
      return Ok(());
    }

    method ReleaseBorrowerCollateral(loan: nat, borrower: Address, asset: Asset, amount: int) returns (r: Result<()>)
      modifies this`loanCollateral, this`locked, tokens, env`log
      ensures match Vault.ReleaseBorrowerCollateral(old(View()), loan, borrower, asset, amount)
              case Ok(s) => r == Ok(()) && View() == s
              case Err(e) => r == Err(e)
    {
      if amount <= 0 {
        return Err(AmountNotPositive);
      }
      var _ :- DecreaseLoanCollateral(loan, asset, amount);
      var _ :- tokens.Transfer(asset, VaultAddress, borrower, amount);
      env.Publish(CollateralReleased(loan, borrower, asset, amount));
      return Ok(());
    }

    method TransferLoanAssetToBorrower(offer: nat, loan: nat, borrower: Address, asset: Asset, amount: int)
      returns (r: Result<()>)
      modifies this`offerLocked, tokens, env`log
      ensures match Vault.TransferLoanAssetToBorrower(old(View()), offer, loan, borrower, asset, amount)
              case Ok(s) => r == Ok(()) && View() == s
              case Err(e) => r == Err(e)
    {
      if amount <= 0 {
        return Err(AmountNotPositive);
      }
      var _ :- DecreaseOfferLocked(offer, amount);
      var _ :- tokens.Transfer(asset, VaultAddress, borrower, amount);
      env.Publish(LoanAssetTransferred(offer, loan, borrower, asset, amount));
      return Ok(());
    }

    method CollectRepaymentFrom(loan: nat, payer: Address, lender: Address, asset: Asset, amount: int)
      returns (r: Result<()>)
      modifies tokens, env`log
      ensures match Vault.CollectRepaymentFrom(old(View()), env.signers, loan, payer, lender, asset, amount)
              case Ok(s) => r == Ok(()) && View() == s
              case Err(e) => r == Err(e)
    {
      if amount <= 0 {
        return Err(AmountNotPositive);
      }
      var _ :- env.RequireAuth(payer);
      var _ :- tokens.Transfer(asset, payer, lender, amount);
      env.Publish(RepaymentTransferred(loan, payer, lender, asset, amount));
      return Ok(());
    }

    method TransferCollateralToLiquidator(loan: nat, liquidator: Address, asset: Asset, amount: int)
      returns (r: Result<()>)
      modifies this`loanCollateral, this`locked, tokens, env`log
      ensures match Vault.TransferCollateralToLiquidator(old(View()), loan, liquidator, asset, amount)
              case Ok(s) => r == Ok(()) && View() == s
              case Err(e) => r == Err(e)
    {
      if amount <= 0 {
        return Err(AmountNotPositive);
      }
      var _ :- DecreaseLoanCollateral(loan, asset, amount);
      var _ :- tokens.Transfer(asset, VaultAddress, liquidator, amount);
      env.Publish(CollateralToLiquidator(loan, liquidator, asset, amount));
      return Ok(());
    }

    method TransferRepaymentToLender(loan: nat, lender: Address, asset: Asset, amount: int) returns (r: Result<()>)
      modifies tokens, env`log
      ensures match Vault.TransferRepaymentToLender(old(View()), loan, lender, asset, amount)
              case Ok(s) => r == Ok(()) && View() == s
              case Err(e) => r == Err(e)
    {
      if amount <= 0 {
        return Err(AmountNotPositive);
      }
      var _ :- tokens.Transfer(asset, VaultAddress, lender, amount);
      env.Publish(RepaymentPaidOut(loan, lender, asset, amount));
      return Ok(());
    }

    method Deposit(asset: Asset, sender: Address, amount: int) returns (r: Result<()>)
      modifies tokens, env`log
      ensures match Vault.Deposit(old(View()), env.signers, asset, sender, amount)
              case Ok(s) => r == Ok(()) && View() == s
              case Err(e) => r == Err(e)
    {
      if amount <= 0 {
        return Err(AmountNotPositive);
      }
      var _ :- env.RequireAuth(sender);
      var _ :- tokens.Transfer(asset, sender, VaultAddress, amount);
      env.Publish(Deposited(asset, sender, amount));
      return Ok(());
    }

    method Withdraw(asset: Asset, recipient: Address, amount: int) returns (r: Result<()>)
      modifies tokens, env`log
      ensures match Vault.Withdraw(old(View()), env.signers, asset, recipient, amount)
              case Ok(s) => r == Ok(()) && View() == s
              case Err(e) => r == Err(e)
    {
      if amount <= 0 {
        return Err(AmountNotPositive);
      }
      var _ :- env.RequireAuth(ADMIN);
      var _ :- tokens.Transfer(asset, VaultAddress, recipient, amount);
      env.Publish(Withdrawn(asset, recipient, amount));
      return Ok(());
    }
  }
}
