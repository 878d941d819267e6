/** The Marketplace as deployed: it loads an offer, changes its status, and stores it back. */
module MarketplaceEntry {
  import opened Shared
  import opened Environment
  import opened VaultEntry
  import opened LoanManagerEntry
  import opened EntryConditions
  import Spec = Marketplace

  class MarketplaceContract {
    const env: Env
    const vault: VaultContract
    const manager: LoanManagerContract
    var offers: map<nat, LoanOffer>
    var offerCount: u64

    constructor (env: Env, vault: VaultContract, manager: LoanManagerContract)
      requires manager.env == env && manager.vault == vault && manager.Wired()
      ensures this.env == env && this.vault == vault && this.manager == manager && Wired()
      ensures offers == map[] && offerCount == 0
    {
      this.env, this.vault, this.manager := env, vault, manager;
      offers, offerCount := map[], 0;
    }

    /** The Loan Manager it calls uses the same Vault, on the same ledger host. */
    ghost predicate Wired() {
      manager.env == env && manager.vault == vault && manager.Wired()
    }

    /** No stored offer has an identifier beyond the count, as in every state that `Deployment` can reach. */
    ghost predicate CountIsAhead()
      reads this
    {
      forall id | id in offers :: id <= offerCount
    }

    function View(): Spec.World
      reads this, manager, manager.vault, manager.vault.env, manager.vault.tokens, manager.oracle, manager.env
    {
      Spec.World(manager.View(), offers, offerCount)
    }

    method GetOffer(id: nat) returns (r: Result<LoanOffer>)
      ensures r == Spec.GetOffer(View(), id)
    {
      if id !in offers {
        return Err(OfferNotFound);
      }
      return Ok(offers[id]);
    }

    /** Stores an offer and publishes what happened to it. */
    method Store(id: nat, offer: LoanOffer, e: Event)
      requires Wired()
      modifies this`offers, env`log
      ensures View() == Spec.StoreOffer(old(View()), old(vault.View()), id, offer, e)
    {
      offers := offers[id := offer];
      env.Publish(e);
    }

    method CreateOffer(t: Spec.Terms) returns (r: Result<nat>)
      requires Wired()
      modifies this, env`log
      ensures match Spec.CreateOffer(old(View()), env.signers, t)
              case Ok(w) => r == Ok(w.offerCount) && View() == w
              case Err(e) => r == Err(e)
      ensures r.Ok? ==>
                && r.value == old(offerCount) + 1 && (old(CountIsAhead()) ==> r.value !in old(offers))
                && r.value in offers && HasTerms(offers[r.value], t) && offers[r.value].status.Draft?
    {
      var _ :- env.RequireAuth(t.lender);
      :- Spec.ValidateOfferInput(t);
      :- Need(offerCount < U64_MAX, Overflow);
      offerCount := offerCount + 1;
      var id := offerCount;
      Store(id, Spec.NewOffer(id, t), OfferCreated(id, t.lender, t.loanAmount));
      return Ok(id);
    }

    method FundOffer(id: nat) returns (r: Result<()>)
      requires Wired()
      modifies this, vault, vault.tokens, env`log
      ensures match Spec.FundOffer(old(View()), env.signers, id)
              case Ok(w) => r == Ok(()) && View() == w
              case Err(e) => r == Err(e)
    {
      var offer :- GetOffer(id);
      var _ :- env.RequireAuth(offer.lender);
      if !offer.status.Draft? {
        return Err(OfferNotDraft);
      }
      var _ :- vault.LockLenderFunds(id, offer.lender, offer.loanAsset, offer.loanAmount);
      offer := offer.(status := Funding);
      Store(id, offer, OfferFunded(id, offer.loanAmount));
      return Ok(());
    }

    method ActivateOffer(id: nat) returns (r: Result<()>)
      requires Wired()
      modifies this, env`log
      ensures match Spec.ActivateOffer(old(View()), env.signers, id)
              case Ok(w) => r == Ok(()) && View() == w
              case Err(e) => r == Err(e)
    {
      var offer :- GetOffer(id);
      var _ :- env.RequireAuth(offer.lender);
      if !offer.status.Funding? {
        return Err(OfferNotFunded);
      }
      var locked := vault.GetOfferLocked(id);
      if locked < offer.loanAmount {
        return Err(InsufficientLockedFunds);
      }
      offer := offer.(status := OfferStatus.Active);
      Store(id, offer, OfferActivated(id, offer.loanAmount));
      return Ok(());
    }

    method UnlockOfferIfNeeded(offer: LoanOffer) returns (r: Result<()>)
      requires Wired()
      modifies vault, vault.tokens, env`log
      ensures match Spec.UnlockOfferIfNeeded(old(vault.View()), offer)
              case Ok(s) => r == Ok(()) && vault.View() == s
              case Err(e) => r == Err(e)
    {
      var locked := vault.GetOfferLocked(offer.offerId);
      if locked > 0 {
        r := vault.UnlockLenderFunds(offer.offerId, offer.lender, offer.loanAsset, locked);
      } else {
        r := Ok(());
      }
    }

    method CancelOffer(id: nat) returns (r: Result<()>)
      requires Wired()
      modifies this, vault, vault.tokens, env`log
      ensures match Spec.CancelOffer(old(View()), env.signers, id)
              case Ok(w) => r == Ok(()) && View() == w
              case Err(e) => r == Err(e)
    {
      var offer :- GetOffer(id);
      var _ :- env.RequireAuth(offer.lender);
      :- Spec.NotSettled(offer.status);
      var _ :- UnlockOfferIfNeeded(offer);
      offer := offer.(status := Cancelled);
      Store(id, offer, OfferCancelled(id, offer.loanAmount));
      return Ok(());
    }

    method ExpireOffer(id: nat) returns (r: Result<()>)
      requires Wired()
      modifies this, vault, vault.tokens, env`log
      ensures match Spec.ExpireOffer(old(View()), id)
              case Ok(w) => r == Ok(()) && View() == w
              case Err(e) => r == Err(e)
    {
      var offer :- GetOffer(id);
      :- Spec.NotSettled(offer.status);
      var _ :- UnlockOfferIfNeeded(offer);
      offer := offer.(status := OfferStatus.Expired);
      Store(id, offer, OfferExpired(id, offer.loanAmount));
      return Ok(());
    }

    method AcceptOffer(id: nat, borrower: Address, collateral: i128) returns (r: Result<nat>)
      requires Wired()
      modifies this, manager, env`log
      ensures match Spec.AcceptOffer(old(View()), env.signers, id, borrower, collateral)
              case Ok(w) => r == Ok(w.lending.loanCount) && View() == w
              case Err(e) => r == Err(e)
    {
      var _ :- env.RequireAuth(borrower);
      if collateral <= 0 {
        return Err(InvalidCollateralAmount);
      }
      var offer :- GetOffer(id);
      if borrower == offer.lender {
        return Err(BorrowerIsLender);
      }
      if !offer.status.Active? {
        return Err(OfferNotActive);
      }
      var loanId :- manager.CreatePendingLoanFromOffer(offer, borrower, collateral);
      offer := offer.(status := Matched);
      Store(id, offer, Event.OfferMatched(id, borrower, loanId));
      return Ok(loanId);
    }

    method CleanupOffer(id: nat) returns (r: Result<()>)
      requires Wired()
      modifies this, env`log
      ensures match Spec.CleanupOffer(old(View()), env.signers, id)
              case Ok(w) => r == Ok(()) && View() == w
              case Err(e) => r == Err(e)
    {
      var _ :- env.RequireAuth(ADMIN);
      var offer :- GetOffer(id);
      if !offer.status.Matched? && !offer.status.Cancelled? && !offer.status.Expired? {
        return Err(OfferNotActive);
      }
      var locked := vault.GetOfferLocked(id);
      if locked > 0 {
        return Err(InsufficientLockedFunds);
      }
      offers := offers - {id};
      env.Publish(OfferCleaned(id));
      return Ok(());
    }
  }
}
