# Nexus lending protocol, verified

A Dafny model of the on-chain lending protocol (Marketplace, Loan Manager, Vault and Oracle), of the
Faucet contract, and of two backend pieces that restate on-chain facts: the printer of contract
amounts and the indexer of offer events. `dafny verify dfyconfig.toml` checks everything.

## How it is built

The whole protocol is one state, `World`: offers, loans, the three Vault ledgers, the token balances
of every asset, prices, clock and event log. A transaction (`Tx`: who signed, and one of twenty calls)
is one entry point together with all the contract calls it makes. `Protocol.Execute` gives its result
or its error, `Protocol.Step` rolls a failed one back, `Protocol.Run` chains them, and
`Protocol.Reachable` is every state some run can lead to from a fresh deployment.

| files | content |
|---|---|
| `Shared`, `Sums`, `Token`, `Ledger` | types and constants, sums over maps, token balances, the Vault's storage with the event log |
| `Vault`, `Oracle`, `RiskMath`, `LoanManager`, `Marketplace`, `Protocol` | each entry point as a function on values, with the order of its checks and its errors |
| `Environment`, `VaultEntry`, `OracleEntry`, `LoanManagerEntry`, `MarketplaceEntry`, `Deployment` | the contracts as classes that update storage in place, each method proved equal to its function, and the host that commits or rolls back |
| `Invariant`, `Lifecycle`, `Agreement`, `Custody`, `Parties`, `Conservation`, `Authorization` | what holds in every reachable state and over every run |
| `RiskProperties`, `PricedLoans`, `LoanFigures`, `Liquidation` | the fixed-point arithmetic, risk in terms of stored data, what each call does to a loan's figures, and what liquidations can and cannot do |
| `Progress`, `EntryConditions`, `Waiting` | exactly when each call succeeds, who is paid, and what waits for whom |
| `Effects`, `Refusals` | all that each call leaves behind, and why a rejected one was rejected |
| `VaultAlone` | what the Vault's own checks keep, whoever calls it |
| `Scenario` | one concrete loan from deployment on, with the examples that contradict the documentation |
| `Faucet`, `FaucetClaims`, `FaucetEntry`, `DecimalText`, `EventIndex`, `TypedEvents` | the three smaller parts |

Integer widths are explicit: i128, u64 and u32 are subset types, unsigned arithmetic is checked
against 2^128, casts from i128 to u128 wrap, and cut-offs at u32 are written out. Two checks that can
never fail (days in seconds, and interest divided back into an i128) are not modelled as failures.

## Assumptions

- The Vault's ledger functions are reached only through the Marketplace and the Loan Manager. The
  Vault's own helpers (`contracts/vault/src/lib.rs:318-334`) read the configured address without
  asking it to sign. `VaultAlone` states what holds without this assumption, and which calls can end
  with less in the Vault than the collateral entries say (`VaultAlone.OnlyOtherFundsUncover`).
- Accounts that sign are never contract addresses; one account is the admin of all contracts.
- The ledger clock and the ledger sequence never go backwards.
- Asset contracts move exactly what they are asked to move, and each supply fits in an i128 at the start.
- A failed transaction leaves neither storage nor events behind.
- For the index: events are delivered in order except for repetitions, no sync fails, and reading the
  new loan from the chain on `offer_matched` succeeds.

## Where the code and its documentation differ

- `docs/01_BUSINESS_RULES.md:261` and `docs/07_STATE_MACHINE.md` let a liquidation close a loan as
  Liquidated. The close factor always leaves debt, so neither Liquidated nor Closed is ever reached
  (`Invariant.LiquidateShape`, `Lifecycle.StatusesAreTimely`).
- The same state machine lets activation end in Warning or LiquidationPlanning. It always ends in
  Active (`Invariant.ActivateShape`).
- `docs/01_BUSINESS_RULES.md:468` says that statuses only move forward. `mark_expired` takes a
  defaulted loan back to Expired, and nothing else does (`Lifecycle.DefaultedBecomesExpired`).
- `docs/01_BUSINESS_RULES.md:273` and `:283` say that collateral can be added and debt repaid in part at any
  time. Before the due time both need a fresh price (`Progress.AddCollateralSucceeds`,
  `Progress.PayDownSucceeds`, with the examples `Scenario.StalePriceBlocksCollateral` and
  `Scenario.StalePriceBlocksRepayment`).
- A liquidation need not improve a loan: `Scenario.LiquidationCanLowerHealth` lowers its health
  factor. If collateral covers debt plus bonus, no liquidation lowers the ratio of value to debt
  (`Liquidation.CoveredLoansKeepRatio`). A liquidation for which it misses that by more than a
  stated rounding slack does (`Liquidation.UncoveredLiquidationHurts`), and without rounding there
  is nothing in between (`RiskProperties.CoverIsExact`).
- `docs/01_BUSINESS_RULES.md:391` and `:410` make a defaulted loan liquidatable regardless of its
  health factor. The health factor is computed first all the same, so without a price of the last
  day it is not (`Scenario.DefaultIsNotEnough`); `EntryConditions.DefaultedIsLiquidatable` says
  exactly when it is.
- Negative amounts with a fraction are printed with a second sign (`DecimalText.AmountTextIsRight`).
  No amount of a stored offer or loan is negative (`Liquidation.CastsAreExact`).

## Model

The methods of the classes are proved equal to the functions named in their rows; what those
functions guarantee is stated by the lemmas.

| member | source | states |
|---|---|---|
| `Invariant.ReachableInvariant` | contracts/loan-manager/src/lib.rs:58-381 | In every state that any run can reach: every offer and loan is well-formed for its status, both collateral ledgers and the offer ledger of the Vault agree with the records, every loan stems from a matched offer, no two loans stem from one offer, stored prices are valid, and every supply fits in an i128. |
| `Invariant.StepKeepsInvariant` | contracts/loan-manager/src/lib.rs:58-381 | Each of the twenty kinds of transaction, successful or rolled back, keeps that invariant. |
| `Invariant.ActivateShape` | contracts/loan-manager/src/lib.rs:114-162 | A successful activation makes exactly two transfers, sets the term from the current time, and always ends in Active, although the code computes the status again. |
| `Invariant.LiquidateShape` | contracts/loan-manager/src/lib.rs:310-364 | A successful liquidation always leaves debt, so the branch that sets Liquidated and releases the rest is never taken. |
| `Invariant.QuoteBounds` | contracts/loan-manager/src/lib.rs:316-331 | An allowed liquidation repays min(requested, half of the debt rounded down), at least one unit, at a health factor below 12000 or on a defaulted loan. |
| `Custody.CustodyOverRuns` | contracts/vault/src/lib.rs:50-237 | Custody over all runs, per asset: the Vault holds exactly the lender funds and collateral in escrow, plus what it started with, plus transfers into it, minus withdrawals. |
| `Custody.StepChangesSurplus` | contracts/vault/src/lib.rs:253-268 | No Marketplace, Loan Manager or Oracle call changes what the Vault holds beyond its escrow; only withdrawals and outside transfers do, by their amount. |
| `Custody.SolventWithoutWithdrawals` | contracts/vault/src/lib.rs:262-268 | In any run without an admin withdrawal the Vault can pay all it owes, in every asset. |
| `Custody.WithdrawalStaysSolvent` | contracts/vault/src/lib.rs:262-268 | A withdrawal leaves the Vault solvent if and only if it stays within the surplus; the code does not check this. |
| `Conservation.SupplyIsConstant` | contracts/vault/src/lib.rs:342-345 | No run changes the total supply of any asset. |
| `Agreement.LoanAgreesWithVault` | contracts/vault/src/lib.rs:362-386 | For every loan of every reachable state the Vault holds exactly the recorded collateral while the loan is open, nothing while it waits or after it is repaid, and never collateral in another asset. |
| `Agreement.CollateralIsSumOfAssets` | contracts/vault/src/lib.rs:362-386 | The two parallel ledgers agree: the total of a loan is the sum of its per-asset entries, over whatever entries are stored. |
| `Agreement.OfferAgreesWithVault` | contracts/vault/src/lib.rs:347-360 | The escrow of an offer is its whole amount exactly while it is funded, active, or matched with a loan that still waits for collateral, and otherwise zero. |
| `Agreement.OneLoanForEachOffer` | contracts/marketplace/src/lib.rs:206-232 | Two loans that stem from the same offer are the same loan. |
| `Agreement.EntriesArePositive` | contracts/vault/src/lib.rs:393-403 | No stored entry of any of the three ledgers is ever zero or negative. |
| `Conservation.DebtIsConserved` | contracts/loan-manager/src/lib.rs:221-280 | Over every run, what the loan's own lender received for it, in its loan asset, plus the outstanding debt equals principal plus interest, nobody else received a payment for it, and a repaid loan has paid its lender exactly that. |
| `Conservation.LenderIsPaidInFull` | contracts/loan-manager/src/lib.rs:221-381 | The same over the whole life of a loan: when it is no longer stored, its lender has received principal plus interest in full. |
| `Conservation.CollateralIsConserved` | contracts/loan-manager/src/lib.rs:196-280 | Over every run, collateral locked for a loan equals what is still held plus what was seized plus what was released. |
| `Conservation.BorrowerGetsCollateralBack` | contracts/loan-manager/src/lib.rs:196-381 | The same by party, also after clean-up: what the borrower locked, in the collateral asset of the loan, is in escrow, was seized, or went back to that borrower. |
| `Conservation.PrincipalIsConserved` | contracts/marketplace/src/lib.rs:116-232 | Over every run, what the lender locked for an offer is still in escrow, went back to that lender or was disbursed, in the loan asset of the offer, and an offer is matched and disbursed at most once. |
| `Conservation.PrincipalPaidOutOnce` | contracts/loan-manager/src/lib.rs:114-162 | The principal of a loan has gone from escrow to its borrower, once and in full, if and only if the loan has been opened. |
| `Parties.LoanPartiesForGood` | contracts/loan-manager/src/lib.rs:114-364 | Over every run, and after a loan is cleaned up as well, every payment for it goes between its own parties in its own assets: repayments to its lender, principal to its borrower, collateral from and back to its borrower. |
| `Parties.OfferPartiesForGood` | contracts/marketplace/src/lib.rs:116-204 | The same for an offer: all that was locked came from its lender, and all that was returned went to its lender. |
| `Parties.SeizuresArePaidFor` | contracts/loan-manager/src/lib.rs:333-350 | In the log of every run, a seizure of collateral directly follows a payment to the lender of the same loan by the account that seizes. |
| `Conservation.LiquidationsAreBounded` | contracts/loan-manager/src/lib.rs:310-364 | Liquidations of one loan end: over any run their number plus the debt left is at most the debt the loan started with. |
| `Conservation.LogExplainsBalances` | contracts/vault/src/lib.rs:50-237 | Replaying the published events over the initial balances gives every current balance. |
| `Lifecycle.StatusesAreTimely` | contracts/loan-manager/src/lib.rs:282-308 | Expired implies now > due time and Defaulted implies now > due time + grace, the term runs from activation, and no loan is ever Liquidated or Closed. |
| `Lifecycle.LoansOnlyAdvance` | contracts/loan-manager/src/lib.rs:437-493 | Over every run a debt never grows, no loan returns to PendingCollateral, overdue loans stay overdue until repaid, and a repaid loan never changes. |
| `Lifecycle.DefaultedBecomesExpired` | contracts/loan-manager/src/lib.rs:282-292 | A step turns a Defaulted loan into an Expired one if and only if it is mark_expired on that loan, and that call always succeeds. |
| `Lifecycle.IdentifiersNeverReused` | contracts/marketplace/src/lib.rs:336-345 | An identifier that was given out and cleaned up never comes back, for offers and for loans. |
| `Lifecycle.SettledOffersStay` | contracts/marketplace/src/lib.rs:165-204 | A matched, cancelled or expired offer stays exactly as it is for as long as it is stored. |
| `Lifecycle.AcceptedOnlyOnce` | contracts/marketplace/src/lib.rs:206-232 | After an offer was accepted, no later transaction of any run accepts it again. |
| `Lifecycle.ActivatedOnlyOnce` | contracts/loan-manager/src/lib.rs:114-118 | After a loan was activated, no later transaction of any run activates it again. |
| `Lifecycle.ActivationOpensActive` | contracts/loan-manager/src/lib.rs:114-162 | Activation ends in Active, with the collateral in escrow and the escrow of the offer empty. |
| `Progress.FullRepaySucceeds` | contracts/loan-manager/src/lib.rs:253-280 | In every reachable state full repayment succeeds if and only if the loan is open, its borrower signs and holds the debt, and the Vault holds the collateral; prices and their age play no part. |
| `Progress.RepaymentIsNeverBlocked` | contracts/loan-manager/src/lib.rs:253-280 | In every run without withdrawals, the same without the condition on the Vault. |
| `Progress.FullRepayEffect` | contracts/loan-manager/src/lib.rs:253-280 | After a full repayment the loan is Repaid and empty, the lender has the debt, the borrower has the collateral, and no other balance changed. |
| `Progress.PartialRepayCanClose` | contracts/loan-manager/src/lib.rs:221-251 | A partial repayment of the debt or more succeeds exactly when a full one does, and ends in the same state but for the name of the event. |
| `Progress.AddCollateralSucceeds` | contracts/loan-manager/src/lib.rs:196-219 | Adding collateral succeeds if and only if the loan is open, its borrower signs and holds the amount, the total and the end of the grace period fit, and the loan is past due or a price at most a day old is stored and value and weighted value of the topped-up loan fit in a u128. |
| `Progress.PayDownSucceeds` | contracts/loan-manager/src/lib.rs:221-251 | A repayment that leaves debt succeeds if and only if the loan is open, its borrower signs and holds it, the end of the grace period fits, and the loan is past due or a price at most a day old is stored and value and weighted value fit in a u128. |
| `Progress.CollateralFits` | contracts/loan-manager/src/lib.rs:753-756 | With a solvent Vault the checked sum of collateral and top-up never overflows. |
| `Progress.CancelSucceeds` | contracts/marketplace/src/lib.rs:165-186 | Cancelling succeeds if and only if the offer is not settled, its lender signs and the Vault holds its funds; it returns exactly the locked amount, and settled offers give the error of their status. |
| `Progress.ExpireSucceeds` | contracts/marketplace/src/lib.rs:188-204 | The same for expiring an offer, which anyone may do: condition, errors by status, and the returned amount. |
| `Progress.CancellationIsNeverBlocked` | contracts/marketplace/src/lib.rs:165-186 | In every run without withdrawals, a lender can cancel every Draft, Funding or Active offer. |
| `Waiting.MatchedFundsWait` | contracts/loan-manager/src/lib.rs:114-162 | Over every run in which the borrower of a waiting loan does not sign its activation, the loan stays as it is, its offer stays matched, the whole principal stays in escrow, and the offer can be neither cancelled, expired nor cleaned up. |
| `Waiting.OnlyActivationEndsWaiting` | contracts/loan-manager/src/lib.rs:114-162 | A step ends the waiting of a loan if and only if it is a successful activation of that loan, signed by its borrower. |
| `Waiting.WaitingPrincipalIsHeld` | contracts/vault/src/lib.rs:144-166 | In every run without withdrawals the Vault holds the principal of every waiting loan. |
| `EntryConditions.CreateSucceeds` | contracts/marketplace/src/lib.rs:55-113 | An offer is created if and only if its lender signs acceptable terms and identifiers are left; it is a draft under the next identifier, which is the new count, with exactly these terms and the defaults filled in, and no other offer changes. |
| `EntryConditions.FundSucceeds` | contracts/marketplace/src/lib.rs:116-140 | Funding succeeds if and only if the offer is a draft, its lender signs and holds the amount. |
| `EntryConditions.ActivateOfferSucceeds` | contracts/marketplace/src/lib.rs:142-163 | A funded offer can always be activated by its lender: the check of its escrow never fails. |
| `EntryConditions.AcceptSucceeds` | contracts/marketplace/src/lib.rs:206-232 | Acceptance succeeds if and only if the offer is active, the borrower is not its lender, signs, and brings collateral, an identifier is left, and amount times rate times days and the sum with interest fit; the checks repeated by the Loan Manager never fail. |
| `EntryConditions.AcceptEffect` | contracts/marketplace/src/lib.rs:206-232 | Acceptance matches the offer, adds one waiting loan under a new identifier on exactly the terms of the offer, and moves no money. |
| `EntryConditions.MarkingSucceeds` | contracts/loan-manager/src/lib.rs:282-308 | An open loan can be marked expired if and only if it is past due, and defaulted if and only if it is past due plus grace, even where that sum does not fit in a u64. |
| `EntryConditions.CleanupOfferSucceeds` | contracts/marketplace/src/lib.rs:234-249 | The admin can clean up a settled offer if and only if no loan of it still waits for its principal. |
| `EntryConditions.CleanupLoanSucceeds` | contracts/loan-manager/src/lib.rs:366-381 | The admin can clean up a loan if and only if it is Repaid; no closed loan has balances left. |
| `EntryConditions.ActivateLoanSucceeds` | contracts/loan-manager/src/lib.rs:114-162 | A waiting loan opens if and only if a price at most a day old is stored, debt is within the largest LTV and weighted value within the smallest health factor, the products fit, its borrower signs and holds the collateral, the Vault holds the principal, and the due time fits; its escrow entries always suffice. |
| `EntryConditions.ActivateLoanEffect` | contracts/loan-manager/src/lib.rs:130-146 | An activation moves the collateral to the Vault and the principal to the borrower, and changes no other balance. |
| `EntryConditions.LiquidateSucceeds` | contracts/loan-manager/src/lib.rs:310-364 | A liquidation succeeds if and only if the loan is open, the liquidator signs, a price at most a day old is stored, the loan is defaulted or its weighted value is below 1.2 times the debt, the products and the end of the grace period fit, repayment and seizure are each at least one unit, the collateral suffices, and liquidator and Vault hold what they pay. |
| `EntryConditions.DefaultedIsLiquidatable` | docs/01_BUSINESS_RULES.md:391-410 | A defaulted loan is liquidatable whatever its health, but if and only if a price at most a day old is stored, the products fit, repayment and seizure are at least one unit, the collateral suffices, and both payers hold what they pay. |
| `EntryConditions.LiquidateEffect` | contracts/loan-manager/src/lib.rs:333-350 | A liquidation moves the fall of the debt from liquidator to lender and the fall of the collateral from Vault to liquidator, and changes no other balance. |
| `EntryConditions.PayDownEffect` | contracts/loan-manager/src/lib.rs:221-242 | A repayment that leaves debt moves exactly its amount from borrower to lender and leaves the collateral alone. |
| `Effects.SetPriceSucceeds` | contracts/oracle/src/lib.rs:55-89 | A price is set if and only if the admin signs, it is positive and has at most 18 decimals; the pair then has exactly that price with those decimals as of now, and no other price, record or balance changes. |
| `Effects.PriceDecidesWorth` | contracts/loan-manager/src/lib.rs:525-532 | After set_price the collateral of every loan of the pair is worth floor(collateral * price / 10^decimals) with the arguments of the call, and no other loan is priced differently. |
| `Effects.RefreshSucceeds` | contracts/loan-manager/src/lib.rs:185-194 | In every reachable state a loan can be refreshed if and only if it is stored and, if open, clock and stored price give it a status; the status stored and published is then the one of clock and weighted value, every other field and record stays, and a waiting or repaid loan stays as it is. |
| `Effects.MarkEffect` | contracts/loan-manager/src/lib.rs:282-308 | A mark stores Expired or Defaulted whatever the open status before it, publishes it, and changes nothing else. |
| `Effects.ActivateLoanLeaves` | contracts/loan-manager/src/lib.rs:130-162 | An activation opens the loan as Active with its term from now, and publishes exactly the two payments and itself. |
| `Effects.AddCollateralLeaves` | contracts/loan-manager/src/lib.rs:196-219 | A top-up raises the collateral by the amount and stores the status that fits the new figures. |
| `Effects.PartialRepayLeaves` | contracts/loan-manager/src/lib.rs:221-251 | A repayment lowers the debt by the amount and stores the status that fits the new figures, or settles the loan and returns its collateral. |
| `Effects.FullRepayLeaves` | contracts/loan-manager/src/lib.rs:253-280 | A full repayment settles the loan, and publishes the payment, the return of collateral that is left, and itself. |
| `Effects.LiquidateLeaves` | contracts/loan-manager/src/lib.rs:310-364 | A liquidation lowers debt and collateral by min(requested, half of the debt) and the floored seizure at the stored price, and stores the status that fits the new figures. |
| `Effects.CleanupLoanLeaves` | contracts/loan-manager/src/lib.rs:366-381 | A cleaned-up loan is no longer stored, and nothing else changes. |
| `Effects.CreateOfferLeaves` | contracts/marketplace/src/lib.rs:55-113 | A created offer is stored under the old count plus one, which is the new count and the published identifier. |
| `Effects.FundOfferLeaves` | contracts/marketplace/src/lib.rs:116-140 | A funded offer is Funding, and its whole amount is published as locked. |
| `Effects.ActivateOfferLeaves` | contracts/marketplace/src/lib.rs:142-163 | An activated offer is Active, and no money moves. |
| `Effects.CancelAndExpireLeave` | contracts/marketplace/src/lib.rs:165-204 | A cancelled or expired offer has that status, and the return of its whole amount is published unless it was a draft. |
| `Effects.AcceptOfferLeaves` | contracts/marketplace/src/lib.rs:206-232 | An accepted offer is Matched with one waiting loan on its terms, under the old loan count plus one, which is the new count and the published identifier. |
| `Effects.CleanupOfferLeaves` | contracts/marketplace/src/lib.rs:234-249 | A cleaned-up offer is no longer stored, and nothing else changes. |
| `Effects.WithdrawSucceeds` | contracts/vault/src/lib.rs:262-268 | A withdrawal succeeds if and only if the admin signs and the Vault holds the positive amount; no record changes. |
| `Effects.MoneyFollowsEvents` | contracts/vault/src/lib.rs:50-237 | In every step all balances, offer entries and collateral totals change by exactly what the published events say. |
| `Effects.CountersCount` | contracts/marketplace/src/lib.rs:336-345 | Over every run the two counters are the number of successful create_offer and accept_offer calls. |
| `Refusals.EveryRefusalIsTrue` | contracts/loan-manager/src/lib.rs:58-381 | In every reachable state, the error of every rejected transaction of all twenty kinds names a true reason in terms of stored data and arguments, and no error occurs that is not listed for the call. |
| `Refusals.LiquidateRefused` | contracts/loan-manager/src/lib.rs:310-364 | The same for a liquidation: which of signature, status, price, health, size, sums, seizure and balances it failed for. |
| `Authorization.NobodyPaysUnsigned` | contracts/vault/src/lib.rs:189-215 | No transaction by anyone lowers the balance of an account that did not sign it. |
| `Liquidation.LiquidationLowersDebt` | contracts/loan-manager/src/lib.rs:321-358 | Each successful liquidation strictly lowers the debt and leaves at least half of it, rounded up. |
| `Liquidation.LastUnitCannotBeLiquidated` | contracts/loan-manager/src/lib.rs:321-326 | A debt of one unit cannot be liquidated. |
| `Liquidation.LargestLiquidationsReachOne` | contracts/loan-manager/src/lib.rs:321-358 | Over any run, with price changes, time and all other calls in between: n largest liquidations leave at most one unit of a debt up to 2^n; if nothing else lowers the debt they leave exactly one unit if and only if it was at most 2^n. |
| `Liquidation.CoveredLoansKeepRatio` | contracts/loan-manager/src/lib.rs:196-364 | In every run that does not set the price of its pair, whatever else happens, a loan whose collateral covers debt plus bonus stays covered, and the ratio of its value to its debt never falls. |
| `Liquidation.CoveredLoansStayHealthy` | contracts/loan-manager/src/lib.rs:310-364 | Nor does its health factor fall, wherever the contract can compute it. |
| `Liquidation.UncoveredLiquidationHurts` | contracts/loan-manager/src/lib.rs:310-364 | In every reachable state, liquidating a loan that misses the cover by more than the rounding slack lowers the ratio of value to debt and never raises the health factor. |
| `Liquidation.RefreshedStatusIsExact` | contracts/loan-manager/src/lib.rs:454-493 | A refreshed status is Defaulted, Expired, Active, Warning or LiquidationPlanning exactly by the clock and then by comparing value times threshold with the debt. |
| `Liquidation.SafeWhileSixSeventhsRemain` | contracts/loan-manager/src/lib.rs:121-128 | From activation on, over every run, no liquidation of a loan that has not defaulted succeeds while its collateral is worth at least 6/7 of its value at activation. |
| `Liquidation.ReachableSeizureNeverShort` | contracts/loan-manager/src/lib.rs:328-331 | For every open loan that can exist, collateral worth 3/4 of the debt covers every seizure the close factor allows. |
| `Liquidation.CastsAreExact` | contracts/loan-manager/src/lib.rs:321-324 | No cast from i128 to u128 sees a negative number in any reachable state and for any amount passed: not prices, offer amounts, loans as stored, topped up, paid down or liquidated, nor the repayment that is priced. |
| `Liquidation.OrdinaryLoansNeverOverflow` | contracts/loan-manager/src/lib.rs:737-773 | For reachable loans of at most 2^63 over five years, collateral up to 2^64 and prices up to 2^50, health factor, LTV, close factor and seizure never overflow. |
| `RiskProperties.HealthFactorFidelity` | contracts/loan-manager/src/lib.rs:495-532 | The health factor never exceeds the exact ratio, and unless it is cut off it falls short by less than 1 + threshold / debt basis points. |
| `RiskProperties.HealthFactorBand` | contracts/loan-manager/src/lib.rs:495-510 | Comparing the saturated u32 health factor with any bound equals comparing value times threshold with bound times debt. |
| `RiskProperties.LoanToValueBand` | contracts/loan-manager/src/lib.rs:512-523 | Comparing the LTV with any bound equals comparing debt with value, exactly. |
| `RiskProperties.HealthFactorMonotone` | contracts/loan-manager/src/lib.rs:495-510 | A larger ratio of value to debt never has a smaller health factor. |
| `RiskProperties.SixSeventhsKeepsTrigger` | contracts/loan-manager/src/lib.rs:454-466 | A health factor of 14000 stays at 12000 or above while 6/7 of the value remains and the debt does not grow. |
| `RiskProperties.SeizeBounds` | contracts/loan-manager/src/lib.rs:553-563 | Seized collateral times price is at most repayment times (1 + bonus) at scale, through both floors. |
| `RiskProperties.SeizureNeverShort` | contracts/loan-manager/src/lib.rs:321-331 | With a bonus of at most 5000 bps, 4 * value >= 3 * debt suffices for every repayment up to the close factor. |
| `RiskProperties.SplitSeizure` | contracts/loan-manager/src/lib.rs:553-563 | Two liquidations seize at most what one of their sum would, at a fixed price. |
| `RiskProperties.SplitInterest` | contracts/loan-manager/src/lib.rs:565-571 | Interest on two principals is at most the interest on their sum, and at least that minus one. |
| `RiskProperties.CloseFactorIsHalf` | contracts/loan-manager/src/lib.rs:321-324 | The close factor limit is half of the debt, rounded down. |
| `RiskProperties.SeizureKeepsValue` | contracts/loan-manager/src/lib.rs:525-532 | After a seizure the floored value of the rest is at least the floored value before minus the repayment with bonus. |
| `RiskProperties.LiquidationKeepsCover` | contracts/loan-manager/src/lib.rs:495-563 | One liquidation of a covered loan keeps it covered and does not lower its health factor, despite three floors. |
| `RiskProperties.UncoveredLiquidationLowersRatio` | contracts/loan-manager/src/lib.rs:495-563 | For all inputs: if the cover is missing by more than two units of value and one of price per unit of debt, a liquidation strictly lowers the ratio of value to debt, through all floors. |
| `RiskProperties.CoverIsExact` | contracts/loan-manager/src/lib.rs:495-563 | The rounding-free case: where no floor loses anything, the ratio does not fall if and only if the loan was covered. |
| `RiskProperties.InterestNeverOverflows` | contracts/loan-manager/src/lib.rs:565-571 | A principal up to 2^63 over at most five years at up to 20% never overflows and at most doubles. |
| `Oracle.FreshForOneDay` | contracts/oracle/src/lib.rs:111-119 | A stored price can be read exactly up to one day after it was set. |
| `Environment.TokenLedger.Transfer` | contracts/vault/src/lib.rs:342-345 | Debits, then credits, and fails for a negative amount, a short balance or an overflow; self-transfers change nothing. |
| `VaultEntry.VaultContract.LockLenderFunds` | contracts/vault/src/lib.rs:50-73 | Updates storage, balances and log in place to exactly what Vault.LockLenderFunds says, or fails with its error. |
| `VaultEntry.VaultContract.UnlockLenderFunds` | contracts/vault/src/lib.rs:75-95 | The same for Vault.UnlockLenderFunds. |
| `VaultEntry.VaultContract.LockBorrowerCollateral` | contracts/vault/src/lib.rs:97-120 | The same for Vault.LockBorrowerCollateral. |
| `VaultEntry.VaultContract.ReleaseBorrowerCollateral` | contracts/vault/src/lib.rs:122-142 | The same for Vault.ReleaseBorrowerCollateral. |
| `VaultEntry.VaultContract.TransferLoanAssetToBorrower` | contracts/vault/src/lib.rs:144-166 | The same for Vault.TransferLoanAssetToBorrower. |
| `VaultEntry.VaultContract.CollectRepaymentFrom` | contracts/vault/src/lib.rs:189-215 | The same for Vault.CollectRepaymentFrom. |
| `VaultEntry.VaultContract.TransferCollateralToLiquidator` | contracts/vault/src/lib.rs:217-237 | The same for Vault.TransferCollateralToLiquidator. |
| `VaultEntry.VaultContract.TransferRepaymentToLender` | contracts/vault/src/lib.rs:168-187 | The same for Vault.TransferRepaymentToLender. |
| `VaultEntry.VaultContract.Deposit` | contracts/vault/src/lib.rs:253-260 | The same for Vault.Deposit. |
| `VaultEntry.VaultContract.Withdraw` | contracts/vault/src/lib.rs:262-268 | The same for Vault.Withdraw. |
| `VaultEntry.VaultContract.IncreaseOfferLocked` | contracts/vault/src/lib.rs:347-351 | Raises one offer entry by a checked sum, removing it at zero. |
| `VaultEntry.VaultContract.DecreaseOfferLocked` | contracts/vault/src/lib.rs:353-360 | Lowers one offer entry, failing if it is too small. |
| `VaultEntry.VaultContract.IncreaseLoanCollateral` | contracts/vault/src/lib.rs:362-370 | Raises the total and the per-asset entry of a loan, one after the other. |
| `VaultEntry.VaultContract.DecreaseLoanCollateral` | contracts/vault/src/lib.rs:372-386 | Lowers both entries of a loan, each with its own check. |
| `OracleEntry.OracleContract.SetPriceForAssets` | contracts/oracle/src/lib.rs:55-89 | Stores a validated price with the current time, for the admin only. |
| `OracleEntry.OracleContract.GetFreshPriceForAssets` | contracts/oracle/src/lib.rs:111-119 | Returns the stored price unless it is missing or stale. |
| `LoanManagerEntry.LoanManagerContract.CreatePendingLoanFromOffer` | contracts/loan-manager/src/lib.rs:58-112 | Checks the offer, takes the next identifier and stores the waiting loan, exactly as LoanManager.CreatePendingLoanFromOffer says. |
| `LoanManagerEntry.LoanManagerContract.ActivateLoan` | contracts/loan-manager/src/lib.rs:114-162 | Loads, checks, moves funds through the Vault and stores, exactly as LoanManager.ActivateLoan says. |
| `LoanManagerEntry.LoanManagerContract.RefreshLoanState` | contracts/loan-manager/src/lib.rs:185-194 | The same for LoanManager.RefreshLoanState; it answers the status that is then stored. |
| `LoanManagerEntry.LoanManagerContract.AddCollateral` | contracts/loan-manager/src/lib.rs:196-219 | The same for LoanManager.AddCollateral. |
| `LoanManagerEntry.LoanManagerContract.PartialRepay` | contracts/loan-manager/src/lib.rs:221-251 | The same for LoanManager.PartialRepay. |
| `LoanManagerEntry.LoanManagerContract.FullRepay` | contracts/loan-manager/src/lib.rs:253-280 | The same for LoanManager.FullRepay. |
| `LoanManagerEntry.LoanManagerContract.MarkExpired` | contracts/loan-manager/src/lib.rs:282-292 | The same for LoanManager.MarkExpired. |
| `LoanManagerEntry.LoanManagerContract.MarkDefaulted` | contracts/loan-manager/src/lib.rs:294-308 | The same for LoanManager.MarkDefaulted. |
| `LoanManagerEntry.LoanManagerContract.Liquidate` | contracts/loan-manager/src/lib.rs:310-364 | The same for LoanManager.Liquidate. |
| `LoanManagerEntry.LoanManagerContract.CleanupLoan` | contracts/loan-manager/src/lib.rs:366-381 | The same for LoanManager.CleanupLoan. |
| `LoanManagerEntry.LoanManagerContract.UpdateStatus` | contracts/loan-manager/src/lib.rs:468-493 | Refreshes a loaded loan with the early returns of the original, at the current prices and clock. |
| `LoanManagerEntry.LoanManagerContract.ReleaseAllCollateral` | contracts/loan-manager/src/lib.rs:573-586 | Returns all collateral through the Vault and empties the loaded loan, or does nothing if there is none. |
| `MarketplaceEntry.MarketplaceContract.CreateOffer` | contracts/marketplace/src/lib.rs:55-113 | Validates, takes the next identifier and stores a draft, exactly as Marketplace.CreateOffer says; it answers the identifier under which the offer with these terms is stored, which is new as long as no stored identifier is beyond the count. |
| `MarketplaceEntry.MarketplaceContract.FundOffer` | contracts/marketplace/src/lib.rs:116-140 | Loads, checks, locks through the Vault and stores, exactly as Marketplace.FundOffer says. |
| `MarketplaceEntry.MarketplaceContract.ActivateOffer` | contracts/marketplace/src/lib.rs:142-163 | The same for Marketplace.ActivateOffer. |
| `MarketplaceEntry.MarketplaceContract.CancelOffer` | contracts/marketplace/src/lib.rs:165-186 | The same for Marketplace.CancelOffer. |
| `MarketplaceEntry.MarketplaceContract.ExpireOffer` | contracts/marketplace/src/lib.rs:188-204 | The same for Marketplace.ExpireOffer. |
| `MarketplaceEntry.MarketplaceContract.AcceptOffer` | contracts/marketplace/src/lib.rs:206-232 | The same for Marketplace.AcceptOffer, with the loan it creates. |
| `MarketplaceEntry.MarketplaceContract.CleanupOffer` | contracts/marketplace/src/lib.rs:234-249 | The same for Marketplace.CleanupOffer. |
| `Deployment.Host.Submit` | contracts/loan-manager/src/lib.rs:201-209 | One transaction over the four wired contracts: whatever was moved before a later check failed is undone, so the world ends exactly where Protocol.Step says. |
| `Deployment.Host.SubmitAll` | contracts/loan-manager/src/lib.rs:58-381 | A loop over any list of transactions ends where Protocol.Run says, so every theorem about runs holds of the contracts as deployed. |
| `Scenario.LoansOpen` | contracts/loan-manager/src/lib.rs:114-162 | A running loan is reachable from deployment in six transactions. |
| `Scenario.StalePriceBlocksCollateral` | docs/01_BUSINESS_RULES.md:273 | A concrete reachable open loan, not yet due, on which add_collateral fails for want of a fresh price. |
| `Scenario.StalePriceBlocksRepayment` | docs/01_BUSINESS_RULES.md:283 | On the same loan a partial repayment that the borrower can pay fails in the same way. |
| `Scenario.DefaultIsNotEnough` | docs/01_BUSINESS_RULES.md:391-410 | A concrete reachable defaulted loan whose liquidation fails for want of a fresh price. |
| `Scenario.WithdrawalBlocksRepayment` | contracts/vault/src/lib.rs:262-268 | A concrete reachable loan that can be repaid in full, until the admin withdraws one unit of its collateral asset. |
| `Scenario.DefaultCanBeUndone` | docs/01_BUSINESS_RULES.md:468 | A concrete reachable defaulted loan that a transaction signed by nobody sets back to Expired. |
| `Scenario.LiquidationCanLowerHealth` | contracts/loan-manager/src/lib.rs:310-364 | A concrete reachable loan whose health factor a successful liquidation lowers from 7272 to 6167. |
| `VaultAlone.LedgersStayParallel` | contracts/vault/src/lib.rs:50-298 | Whoever calls any function of the Vault with whatever arguments, the total of every loan stays the sum of its per-asset entries. |
| `VaultAlone.EntriesStayPositive` | contracts/vault/src/lib.rs:393-403 | Whoever calls the Vault with whatever arguments, no stored entry becomes zero or negative. |
| `VaultAlone.OnlyOtherFundsUncover` | contracts/vault/src/lib.rs:50-268 | A direct call lowers what the Vault holds of an asset beyond its collateral entries if and only if it is a successful payment of other funds of that asset (unlocked lender funds, principal, a repayment paid out of the Vault, or a withdrawal) to anyone but the Vault; collateral is then still backed if and only if the amount was not committed to it. |
| `VaultAlone.RunChangesUncommitted` | contracts/vault/src/lib.rs:50-268 | Over any run of direct calls that difference changes by exactly the sum of what each call says. |
| `VaultAlone.CollateralStaysBacked` | contracts/vault/src/lib.rs:97-260 | In any run of direct calls by anyone that makes no such payment in an asset, what the Vault holds beyond its collateral entries in that asset never falls. |
| `VaultAlone.OtherFundsAreAccepted` | contracts/vault/src/lib.rs:75-268 | Such a payment is accepted if and only if the Vault holds the amount and, for lender funds and principal, the entry of the offer does, and for a withdrawal, the admin signs; for a repayment nothing else is asked. |
| `VaultAlone.CallsAreAccepted` | contracts/vault/src/lib.rs:50-268 | The exact guard of each of the ten calls that move tokens: payer, signature, balance and entries. |
| `VaultAlone.RepaymentPayoutCanUncover` | contracts/vault/src/lib.rs:168-187 | The example: five units of collateral, of which one is paid out as a repayment. |
| `LoanFigures.StepFigures` | contracts/loan-manager/src/lib.rs:58-381 | Any transaction but a liquidation of the loan leaves its debt, or lowers it by a repayment, and keeps or raises its collateral unless it settles the loan; a loan with debt stays stored, and only set_price moves the price of its pair. |
| `PricedLoans.HealthOnStoredData` | contracts/loan-manager/src/lib.rs:495-510 | The health factor can be computed if and only if a price at most a day old is stored and two products fit, and it reaches a bound if and only if the weighted value reaches bound times debt. |
| `PricedLoans.LtvOnStoredData` | contracts/loan-manager/src/lib.rs:512-523 | The LTV can be computed and is within a bound if and only if a price at most a day old is stored, the products fit, and debt is below (bound + 1) times value. |
| `PricedLoans.QuoteOnStoredData` | contracts/loan-manager/src/lib.rs:316-331 | A liquidation is quoted if and only if price, trigger, products, repayment and collateral allow it, and for exactly the floored amounts. |
| `PricedLoans.StatusOnStoredData` | contracts/loan-manager/src/lib.rs:468-493 | The status of an open loan can be refreshed if and only if the end of its grace period fits and it is past due or its health factor can be computed. |
| `FaucetEntry.FaucetContract.RequestTokens` | contracts/faucet/src/lib.rs:138-190 | Checks, records, pays or mints, and publishes in place, exactly as Faucet.RequestTokens says. |
| `FaucetEntry.FaucetContract.BatchClaim` | contracts/faucet/src/lib.rs:193-243 | The batch loop with its skips equals single claims one after the other, each made only if the recipient is eligible; a failed payment fails the whole batch. |
| `FaucetEntry.FaucetContract.SetAssetConfig` | contracts/faucet/src/lib.rs:78-100 | Stores a configuration with a positive amount, for the admin only. |
| `FaucetClaims.RequestSucceeds` | contracts/faucet/src/lib.rs:138-190 | In every reachable state a claim succeeds if and only if its recipient signs, the asset is enabled, the cooldown since the last claim is over, the Faucet holds the amount or may mint it, and the new balance fits; it pays exactly that, and records and publishes it. |
| `FaucetClaims.BatchSucceeds` | contracts/faucet/src/lib.rs:193-243 | In every reachable state a batch succeeds if and only if its recipient signs and every asset can be paid as often as it is due: as often as listed without a cooldown, once if listed with a cooldown that is over, never otherwise. The recipient gets that many times the amount, from the own balance of the Faucet while it suffices and minted after that, and the payments are published in the order of the list. |
| `FaucetClaims.OrderIsFree` | contracts/faucet/src/lib.rs:193-243 | Two batches with the same assets in another order succeed alike and end with the same balances and records. |
| `FaucetClaims.ClaimsMatchTimes` | contracts/faucet/src/lib.rs:193-243 | The payments a batch publishes are as many per asset as it pays. |
| `FaucetClaims.ClaimsExplainBalances` | contracts/faucet/src/lib.rs:138-243 | Over every run, each balance but the Faucet's own is its initial one plus the published payments to it. |
| `FaucetClaims.ConfigureSucceeds` | contracts/faucet/src/lib.rs:78-100 | A configuration is set if and only if the admin signs and its amount is positive, and exactly as given. |
| `FaucetClaims.EligibilityIsExact` | contracts/faucet/src/lib.rs:108-134 | The limiter reports exactly what is due, and the exact rest of a running cooldown. |
| `Faucet.PaidAtMostOncePerCooldown` | contracts/faucet/src/lib.rs:138-243 | For every run in which the cooldown of an asset stays at c > 0 or more, a recipient is paid at most floor(W / c) + 1 times in any W + 1 consecutive ledgers, batches with duplicates included. |
| `Faucet.EligibleMeansPaid` | contracts/faucet/src/lib.rs:108-134 | Eligibility is exactly what a signed claim needs from the limiter. |
| `Faucet.RemainingIsExact` | contracts/faucet/src/lib.rs:120-134 | The remaining cooldown is exact: a claim is open at a later ledger if and only if at least that many ledgers have passed. |
| `Faucet.DuplicatesArePaidWithoutCooldown` | contracts/faucet/src/lib.rs:193-243 | After a payment the same claim is open at once if and only if the asset has no cooldown. |
| `Faucet.ClaimPaysExactly` | contracts/faucet/src/lib.rs:163-187 | A claim gives its recipient exactly the configured amount, out of the balance of the Faucet if that suffices and freshly minted if not, and changes no other balance. |
| `DecimalText.AmountsAreExact` | backend/src/modules/verification/contract-reader.service.ts:90-97 | For every raw >= 0 the text denotes exactly raw / 10^7 ends neither in a zero of its fraction nor in a dot, and starts with no superfluous zero. |
| `DecimalText.AmountsAreDistinct` | backend/src/modules/verification/contract-reader.service.ts:90-97 | Different amounts have different texts. |
| `DecimalText.RatiosAreExact` | backend/src/modules/verification/contract-reader.service.ts:99-109 | Health factors denote min(raw, 999900) / 10^4 and LTVs raw / 10^2, without trailing zeros or dots and without superfluous leading zeros. |
| `DecimalText.AmountTextIsRight` | backend/src/modules/verification/contract-reader.service.ts:90-97 | For every integer the text denotes raw / 10^7 if and only if raw is not negative or 10^7 divides it. |
| `DecimalText.MinusOneAndAHalf` | backend/src/modules/verification/contract-reader.service.ts:90-97 | The example of the other case: -15000000 prints as "-1.-5". |
| `EventIndex.EventSyncService.Receive` | backend/src/modules/indexer/event-sync.service.ts:141-260 | Marks an event before it updates the offer row its name selects, skips what was indexed before, and reports processed, duplicate or ignored accordingly. |
| `TypedEvents.EveryCallIsTyped` | backend/src/modules/indexer/event-sync.service.ts:141-161 | Every successful call of the protocol publishes exactly one event that has a transaction type, acceptances two, and clean-ups, refreshes, withdrawals, outside transfers and time none. |
| `EventIndex.DeliveryIsReplay` | backend/src/modules/indexer/event-sync.service.ts:141-161 | In-order delivery with any repetition of events already seen has the effect of processing each event once. |
| `EventIndex.RunMirrors` | backend/src/modules/indexer/event-sync.service.ts:163-260 | Processing the events of any run, in order, keeps the row of an offer equal to the offer that is still stored. |
| `EventIndex.IndexMirrorsContract` | backend/src/modules/indexer/event-sync.service.ts:141-260 | For every run, any in-order delivery with repetitions leaves each offer row that mirrored its offer before the run with the status of the offer after it. |

## Left out

- Host detail: storage lifetimes, argument packing, and authorisation beyond "this account signed this transaction".
- `initialize` of every contract and the Faucet's `set_admin`: one-time configuration.
- The Vault's `deposit` as a transaction of `Protocol`: there it is an outside transfer into the Vault, up to its event. `transfer_repayment_to_lender` is not one either, as no other contract calls it. `VaultAlone` has both.
- The Vault's three alias entry points, which only call functions that are modelled.
- Oracle prices keyed by a pair of names, and the `source` text: the Loan Manager reads prices by asset only.
- Getters of every contract that only return a stored value.
- Event fields that repeat a stored one, such as the lender in `offer_funded`.
- OracleEntry.OracleContract.SetPriceForAssets: leaves out the second store under the pair's name, and the `source` text.
- Liquidation.CoveredLoansKeepRatio: the price of the pair is fixed; a new price can lower the ratio without any liquidation.
- RiskProperties.UncoveredLiquidationLowersRatio: between the cover and the cover less the slack, rounding decides, either way.
- EventIndex.IndexMirrorsContract: covers the status of offer rows; the loan rows read live chain state while syncing, and `loan_state_updated` is ignored, so they are no function of the events.
- EventIndex.EventSyncService.Receive: leaves out the ledger of transactions, the loan row and the price row that the same events also write.
- The backend's other services (RPC access, receipts, routes, its own faucet, administrative writes to the mirror) and the frontend, including both `finance.ts` files: plumbing and previews.
