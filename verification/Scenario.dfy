/** One loan, step by step from deployment: what the general theorems speak about does occur. */
module Scenario {
  import opened Shared
  import opened Token
  import opened Ledger
  import opened Oracle
  import opened RiskMath
  import opened LoanManager
  import opened Marketplace
  import opened Invariant
  import opened Protocol
  import opened Liquidation
  import opened PricedLoans
  import opened EntryConditions
  import opened Progress
  import Vault

  const DOLLAR: Asset := 1
  const COIN: Asset := 2
  const LENDER := Account(1)
  const BORROWER := Account(2)

  function Deployed(): World {
    var lender := SetBalance(map[], DOLLAR, LENDER, 1_000);
    var borrower := SetBalance(lender, COIN, BORROWER, 600);
    var balances := SetBalance(borrower, DOLLAR, BORROWER, 100);
    World(LendingState(LedgerState(balances, map[], map[], map[], []), map[], 0, map[], 0), map[], 0)
  }

  const TERMS := Terms(LENDER, DOLLAR, 1_000, 1_000, 365, COIN, 5_000, 8_000, 0, 1, 0)

  function TheOffer(status: OfferStatus): LoanOffer {
    NewOffer(1, TERMS).(status := status)
  }

  /** 10% for a year on 1000, against 500 coins. */
  function TheLoan(status: LoanStatus, due: u64): Loan {
    Loan(1, 1, LENDER, BORROWER, DOLLAR, 1_000, 1_100, 1_000, 365, COIN, 500, 0, due,
         5_000, 8_000, 500, 14_000, 1, status)
  }

  const YEAR := 365 * SECONDS_PER_DAY

  /** The offer is stored with the given status, and no loan exists. */
  ghost predicate Offered(w: World, status: OfferStatus) {
    var s := w.lending;
    var escrow := if status.Draft? then 0 else 1_000;
    && 1 in w.offers && w.offers[1] == TheOffer(status)
    && s.loanCount == 0 && s.now == 0 && s.loans == map[]
    && BalanceOf(s.ledger.balances, DOLLAR, LENDER) == 1_000 - escrow
    && BalanceOf(s.ledger.balances, DOLLAR, BORROWER) == 100
    && BalanceOf(s.ledger.balances, DOLLAR, VaultAddress) == escrow
    && BalanceOf(s.ledger.balances, COIN, BORROWER) == 600
    && BalanceOf(s.ledger.balances, COIN, VaultAddress) == 0
    && OfferLocked(s.ledger, 1) == escrow && LoanCollateral(s.ledger, 1) == 0 && Locked(s.ledger, 1, COIN) == 0
  }

  predicate Priced(w: World, price: i128, at: u64) {
    (COIN, DOLLAR) in w.lending.prices && w.lending.prices[(COIN, DOLLAR)] == PriceData(price, 0, at)
  }

  lemma DeployedIsGenesis()
    ensures Genesis(Deployed())
  {
    var lender := SetBalance(map[], DOLLAR, LENDER, 1_000);
    var borrower := SetBalance(lender, COIN, BORROWER, 600);
    forall a ensures Supply(Deployed().lending.ledger.balances, a) <= I128_MAX {
      SetBalanceSupply(map[], DOLLAR, LENDER, 1_000, a);
      SetBalanceSupply(lender, COIN, BORROWER, 600, a);
      SetBalanceSupply(borrower, DOLLAR, BORROWER, 100, a);
      assert Supply(map[], a) == 0;
    }
  }

  lemma Creating()
    ensures Offered(Step(Deployed(), Tx({LENDER}, Call.CreateOffer(TERMS))), Draft)
  {
  }

  lemma Funding(w: World)
    requires Offered(w, Draft)
    ensures Offered(Step(w, Tx({LENDER}, Call.FundOffer(1))), OfferStatus.Funding)
  {
    var locked := Vault.LockLenderFunds(w.lending.ledger, {LENDER}, 1, LENDER, DOLLAR, 1_000);
    assert locked.Ok?;
  }

  lemma Activating(w: World)
    requires Offered(w, OfferStatus.Funding)
    ensures Offered(Step(w, Tx({LENDER}, Call.ActivateOffer(1))), OfferStatus.Active)
  {
  }

  lemma Pricing(w: World, price: i128)
    requires price > 0
    ensures var v := Step(w, Tx({ADMIN}, Call.SetPrice(COIN, DOLLAR, price, 0)));
            Priced(v, price, w.lending.now)
            && v.lending.loans == w.lending.loans && v.lending.now == w.lending.now && v.offers == w.offers
            && v.lending.loanCount == w.lending.loanCount
            && v.lending.ledger == Publish(w.lending.ledger, PriceUpdated(COIN, DOLLAR, price))
  {
  }

  /** The loan waits for its collateral. */
  ghost predicate Waiting(w: World) {
    var s := w.lending;
    && 1 in s.loans && s.loans[1] == TheLoan(PendingCollateral, 0) && s.now == 0
    && BalanceOf(s.ledger.balances, DOLLAR, LENDER) == 0
    && BalanceOf(s.ledger.balances, DOLLAR, BORROWER) == 100
    && BalanceOf(s.ledger.balances, DOLLAR, VaultAddress) == 1_000
    && BalanceOf(s.ledger.balances, COIN, BORROWER) == 600
    && BalanceOf(s.ledger.balances, COIN, VaultAddress) == 0
    && OfferLocked(s.ledger, 1) == 1_000 && LoanCollateral(s.ledger, 1) == 0 && Locked(s.ledger, 1, COIN) == 0
  }

  lemma Accepting(w: World)
    requires Offered(w, OfferStatus.Active)
    ensures Waiting(Step(w, Tx({BORROWER}, Call.AcceptOffer(1, BORROWER, 500))))
    ensures Step(w, Tx({BORROWER}, Call.AcceptOffer(1, BORROWER, 500))).lending.prices == w.lending.prices
  {
    assert PrincipalWithInterest(1_000, 1_000, 365) == Ok(1_100);
  }

  /** The loan runs: 500 coins are locked, and the borrower has the 1000 and 100 of its own. */
  ghost predicate Running(w: World) {
    var s := w.lending;
    && 1 in s.loans && s.loans[1] == TheLoan(LoanStatus.Active, YEAR)
    && BalanceOf(s.ledger.balances, DOLLAR, BORROWER) == 1_100
    && BalanceOf(s.ledger.balances, DOLLAR, LENDER) == 0
    && BalanceOf(s.ledger.balances, COIN, BORROWER) == 100
    && BalanceOf(s.ledger.balances, COIN, VaultAddress) == 500
    && LoanCollateral(s.ledger, 1) == 500 && Locked(s.ledger, 1, COIN) == 500
  }

  lemma Opening(w: World)
    requires Waiting(w) && Priced(w, 10, 0)
    ensures var v := Step(w, Tx({BORROWER}, Call.ActivateLoan(1)));
            Running(v) && Priced(v, 10, 0) && v.lending.now == 0
  {
    var s := w.lending;
    var price := PriceData(10, 0, 0);
    assert GetFreshPrice(s.prices, 0, COIN, DOLLAR) == Ok(price);
    assert CollateralValue(500, price) == Ok(5_000);
    assert LoanToValue(500, 1_100, price) == Ok(2_200) && HealthFactor(500, 1_100, 8_000, price) == Ok(36_363);
    OpeningMoves(s);
  }

  lemma OpeningMoves(s: LendingState)
    requires Waiting(World(s, map[], 0))
    ensures var r := OpenLoan(s, {BORROWER}, 1, s.loans[1], 36_363);
            && r.Ok? && Running(World(r.value, map[], 0))
            && r.value.prices == s.prices && r.value.now == s.now
  {
    var locked := Vault.LockBorrowerCollateral(s.ledger, {BORROWER}, 1, BORROWER, COIN, 500);
    assert locked.Ok?;
    var paid := Vault.TransferLoanAssetToBorrower(locked.value, 1, 1, BORROWER, DOLLAR, 1_000);
    assert paid.Ok?;
  }

  lemma StepIsReachable(w: World, tx: Tx)
    requires Reachable(w)
    ensures Reachable(Step(w, tx))
  {
    var start, txs :| Genesis(start) && w == Run(start, txs);
    RunAppend(start, txs, [tx]);
    assert Step(w, tx) == Run(w, [tx]) by {
      assert [tx][1..] == [];
    }
  }

  /** A running loan can be reached from deployment in six transactions. */
  lemma LoansOpen() returns (w: World)
    ensures Reachable(w) && Running(w) && Priced(w, 10, 0) && w.lending.now == 0
  {
    w := Deployed();
    DeployedIsGenesis();
    assert w == Run(w, []);
    Creating();
    StepIsReachable(w, Tx({LENDER}, Call.CreateOffer(TERMS)));
    w := Step(w, Tx({LENDER}, Call.CreateOffer(TERMS)));
    Funding(w);
    StepIsReachable(w, Tx({LENDER}, Call.FundOffer(1)));
    w := Step(w, Tx({LENDER}, Call.FundOffer(1)));
    Activating(w);
    StepIsReachable(w, Tx({LENDER}, Call.ActivateOffer(1)));
    w := Step(w, Tx({LENDER}, Call.ActivateOffer(1)));
    w := PriceAndOpen(w);
  }

  lemma PriceAndOpen(before: World) returns (w: World)
    requires Reachable(before) && Offered(before, OfferStatus.Active)
    ensures Reachable(w) && Running(w) && Priced(w, 10, 0) && w.lending.now == 0
  {
    w := before;
    Pricing(w, 10);
    StepIsReachable(w, Tx({ADMIN}, Call.SetPrice(COIN, DOLLAR, 10, 0)));
    w := Step(w, Tx({ADMIN}, Call.SetPrice(COIN, DOLLAR, 10, 0)));
    Accepting(w);
    StepIsReachable(w, Tx({BORROWER}, Call.AcceptOffer(1, BORROWER, 500)));
    w := Step(w, Tx({BORROWER}, Call.AcceptOffer(1, BORROWER, 500)));
    Opening(w);
    StepIsReachable(w, Tx({BORROWER}, Call.ActivateLoan(1)));
    w := Step(w, Tx({BORROWER}, Call.ActivateLoan(1)));
  }

  /** Time passes for a running loan. */
  lemma Waited(w: World, seconds: u64)
    requires Reachable(w) && Running(w) && w.lending.now + seconds <= U64_MAX
    ensures var v := Step(w, Tx({}, Tick(seconds)));
            && Reachable(v) && Running(v)
            && v.lending.now == w.lending.now + seconds && v.lending.prices == w.lending.prices
  {
    StepIsReachable(w, Tx({}, Tick(seconds)));
  }

  /**
   * A borrower cannot always add collateral while the loan is open: once the last price is more
   * than a day old, and the loan not yet due, the attempt fails.
   */
  lemma StalePriceBlocksCollateral() returns (w: World, tx: Tx)
    ensures Reachable(w) && Running(w) && w.lending.now < YEAR
    ensures tx == Tx({BORROWER}, Call.AddCollateral(1, 50)) && Execute(w, tx) == Err(PriceStale)
  {
    w := LoansOpen();
    Waited(w, 86_401);
    w := Step(w, Tx({}, Tick(86_401)));
    tx := Tx({BORROWER}, Call.AddCollateral(1, 50));
    BlockedTopUp(w.lending);
  }

  lemma BlockedTopUp(s: LendingState)
    requires Running(World(s, map[], 0)) && Priced(World(s, map[], 0), 10, 0) && 86_400 < s.now <= YEAR
    ensures LoanManager.AddCollateral(s, {BORROWER}, 1, 50) == Err(PriceStale)
  {
    assert Vault.LockBorrowerCollateral(s.ledger, {BORROWER}, 1, BORROWER, COIN, 50).Ok?;
    var grown := s.loans[1].(collateralAmount := 550);
    assert UpdateStatus(s, grown) == Err(PriceStale);
  }

  /** In the same state a repayment that leaves some debt fails too, although its borrower can pay. */
  lemma StalePriceBlocksRepayment() returns (w: World, tx: Tx)
    ensures Reachable(w) && Running(w) && w.lending.now < YEAR
    ensures tx == Tx({BORROWER}, Call.PartialRepay(1, 50)) && Execute(w, tx) == Err(PriceStale)
  {
    w := LoansOpen();
    Waited(w, 86_401);
    w := Step(w, Tx({}, Tick(86_401)));
    tx := Tx({BORROWER}, Call.PartialRepay(1, 50));
    BlockedPayDown(w.lending);
  }

  lemma BlockedPayDown(s: LendingState)
    requires Running(World(s, map[], 0)) && Priced(World(s, map[], 0), 10, 0) && 86_400 < s.now <= YEAR
    ensures LoanManager.PartialRepay(s, {BORROWER}, 1, 50) == Err(PriceStale)
  {
    assert Vault.CollectRepaymentFrom(s.ledger, {BORROWER}, 1, BORROWER, LENDER, DOLLAR, 50).Ok?;
    var less := s.loans[1].(outstandingDebt := 1_050);
    assert UpdateStatus(s, less) == Err(PriceStale);
  }

  /**
   * A default alone does not make a loan liquidatable: the health factor, which then decides
   * nothing, is computed first, and the attempt fails with it once the price is more than a day old.
   */
  lemma DefaultIsNotEnough() returns (w: World, tx: Tx)
    ensures Reachable(w) && 1 in w.lending.loans && w.lending.loans[1].status.Defaulted?
    ensures tx == Tx({BORROWER}, Call.Liquidate(1, BORROWER, 550)) && Execute(w, tx) == Err(PriceStale)
  {
    var before := Overdue();
    Marked(before);
    StepIsReachable(before, Tx({}, Call.MarkDefaulted(1)));
    w := Step(before, Tx({}, Call.MarkDefaulted(1)));
    tx := Tx({BORROWER}, Call.Liquidate(1, BORROWER, 550));
    BlockedLiquidation(w.lending);
  }

  lemma BlockedLiquidation(s: LendingState)
    requires 1 in s.loans && s.loans[1] == TheLoan(Defaulted, YEAR)
    requires Priced(World(s, map[], 0), 10, 0) && s.now > 86_400
    ensures LoanManager.Liquidate(s, {BORROWER}, 1, BORROWER, 550) == Err(PriceStale)
  {
  }

  /**
   * A withdrawal can keep a borrower from repaying: one coin less in the Vault, and the full
   * repayment that would have succeeded before fails, since the collateral cannot be returned.
   */
  lemma WithdrawalBlocksRepayment() returns (w: World, withdrawal: Tx, repayment: Tx)
    ensures Reachable(w) && withdrawal == Tx({ADMIN}, Call.Withdraw(COIN, ADMIN, 1))
    ensures repayment == Tx({BORROWER}, Call.FullRepay(1))
    ensures Execute(w, repayment).Ok? && Execute(w, withdrawal).Ok?
    ensures Execute(Step(w, withdrawal), repayment).Err?
  {
    w := LoansOpen();
    withdrawal, repayment := Tx({ADMIN}, Call.Withdraw(COIN, ADMIN, 1)), Tx({BORROWER}, Call.FullRepay(1));
    FullRepaySucceeds(w, {BORROWER}, 1);
    Withdrawing(w);
    StepIsReachable(w, withdrawal);
    FullRepaySucceeds(Step(w, withdrawal), {BORROWER}, 1);
  }

  lemma Withdrawing(w: World)
    requires Reachable(w) && Running(w)
    ensures var tx := Tx({ADMIN}, Call.Withdraw(COIN, ADMIN, 1));
            && Execute(w, tx).Ok? && Step(w, tx).lending.loans == w.lending.loans
            && BalanceOf(Step(w, tx).lending.ledger.balances, COIN, VaultAddress) == 499
  {
    ReachableInvariant(w);
    TransferSucceeds(w.lending.ledger.balances, COIN, VaultAddress, ADMIN, 1);
  }

  /** A defaulted loan can be set back to expired by anyone. */
  lemma DefaultCanBeUndone() returns (w: World, tx: Tx)
    ensures Reachable(w) && 1 in w.lending.loans && w.lending.loans[1].status.Defaulted?
    ensures tx.signers == {} && 1 in Step(w, tx).lending.loans && Step(w, tx).lending.loans[1].status.Expired?
  {
    w := Overdue();
    Marked(w);
    StepIsReachable(w, Tx({}, Call.MarkDefaulted(1)));
    w := Step(w, Tx({}, Call.MarkDefaulted(1)));
    tx := Tx({}, Call.MarkExpired(1));
    Unmarked(w);
  }

  lemma Overdue() returns (w: World)
    ensures Reachable(w) && Running(w) && Priced(w, 10, 0) && w.lending.now == YEAR + SECONDS_PER_DAY + 1
  {
    w := LoansOpen();
    Waited(w, YEAR + SECONDS_PER_DAY + 1);
    w := Step(w, Tx({}, Tick(YEAR + SECONDS_PER_DAY + 1)));
  }

  lemma Marked(w: World)
    requires Running(w) && w.lending.now == YEAR + SECONDS_PER_DAY + 1
    ensures var v := Step(w, Tx({}, Call.MarkDefaulted(1)));
            && 1 in v.lending.loans && v.lending.loans[1] == TheLoan(Defaulted, YEAR) && v.lending.now == w.lending.now
            && v.lending.prices == w.lending.prices
  {
  }

  lemma Unmarked(w: World)
    requires 1 in w.lending.loans && w.lending.loans[1] == TheLoan(Defaulted, YEAR) && w.lending.now > YEAR
    ensures var v := Step(w, Tx({}, Call.MarkExpired(1)));
            1 in v.lending.loans && v.lending.loans[1].status.Expired?
  {
  }

  /** A liquidation of a loan that its collateral does not cover lowers the health factor. */
  lemma LiquidationCanLowerHealth() returns (w: World, tx: Tx, v: World)
    ensures Reachable(w) && tx.call == Call.Liquidate(1, BORROWER, 550) && Execute(w, tx) == Ok(v)
    ensures 1 in w.lending.loans && HealthOf(w.lending, w.lending.loans[1]) == Ok(7_272)
    ensures 1 in v.lending.loans && HealthOf(v.lending, v.lending.loans[1]) == Ok(6_167)
  {
    w := Crashed();
    tx := Tx({BORROWER}, Call.Liquidate(1, BORROWER, 550));
    CrashIsLiquidatable(w);
    LiquidateSucceeds(w, {BORROWER}, 1, BORROWER, 550);
    v := AfterCrash(w, tx);
  }

  lemma Crashed() returns (w: World)
    ensures Reachable(w) && Running(w) && Priced(w, 2, 0) && w.lending.now == 0
  {
    w := LoansOpen();
    Pricing(w, 2);
    StepIsReachable(w, Tx({ADMIN}, Call.SetPrice(COIN, DOLLAR, 2, 0)));
    w := Step(w, Tx({ADMIN}, Call.SetPrice(COIN, DOLLAR, 2, 0)));
  }

  lemma CrashIsLiquidatable(w: World)
    requires Running(w) && Priced(w, 2, 0) && w.lending.now == 0
    ensures var loan := w.lending.loans[1];
            && IsLiquidatable(w.lending, loan, 550) && RepaymentFor(loan, 550) == 550
            && SeizedFor(550, loan.liquidationBonusBps, PriceOf(w.lending, loan)) == 288
  {
    assert Pow10(0) == 1;
  }

  lemma AfterCrash(w: World, tx: Tx) returns (v: World)
    requires Reachable(w) && Running(w) && Priced(w, 2, 0) && w.lending.now == 0
    requires tx.call == Call.Liquidate(1, BORROWER, 550) && Execute(w, tx).Ok?
    ensures Execute(w, tx) == Ok(v) && 1 in v.lending.loans
    ensures HealthOf(w.lending, w.lending.loans[1]) == Ok(7_272)
    ensures HealthOf(v.lending, v.lending.loans[1]) == Ok(6_167)
  {
    ReachableInvariant(w);
    v := Execute(w, tx).value;
    var repay := SeizureOf(w, tx);
    CrashFigures(w.lending, v.lending);
  }

  lemma CrashFigures(s: LendingState, t: LendingState)
    requires Running(World(s, map[], 0)) && Priced(World(s, map[], 0), 2, 0) && s.now == 0
    requires SeizedFrom(s, t, 1, 550)
    ensures HealthOf(s, s.loans[1]) == Ok(7_272) && HealthOf(t, t.loans[1]) == Ok(6_167)
  {
    var price := PriceData(2, 0, 0);
    assert GetFreshPrice(s.prices, 0, COIN, DOLLAR) == Ok(price);
    assert SeizeCollateral(550, 500, price) == Ok(288);
    assert CollateralValue(500, price) == Ok(1_000) && CollateralValue(212, price) == Ok(424);
  }
}
