/** What liquidations can and cannot do to a loan. */
module Liquidation {
  import opened Shared
  import opened Oracle
  import opened RiskMath
  import opened RiskProperties
  import opened PricedLoans
  import opened LoanManager
  import opened Marketplace
  import opened Protocol
  import opened Invariant
  import opened Lifecycle
  import opened LoanFigures
  import opened Conservation

  /** The debt of a loan after a successful liquidation of it. */
  lemma LiquidationLowersDebt(w: World, tx: Tx) returns (repay: int)
    requires Reachable(w) && tx.call.Liquidate? && Execute(w, tx).Ok?
    ensures var v, id := Execute(w, tx).value, tx.call.loan;
            && id in w.lending.loans && id in v.lending.loans
            && var before, after := w.lending.loans[id], v.lending.loans[id];
               && repay == Min(tx.call.amount, before.outstandingDebt / 2)
               && after.outstandingDebt == before.outstandingDebt - repay
               && 0 < before.outstandingDebt - before.outstandingDebt / 2
                  <= after.outstandingDebt < before.outstandingDebt
               && Mutable(after.status)
  {
    ReachableInvariant(w);
    repay := SeizureOf(w, tx);
  }

  /** What a liquidation that repays `repay` does to a loan. */
  predicate SeizedFrom(s: LendingState, t: LendingState, id: nat, repay: int) {
    && id in s.loans && id in t.loans
    && t.prices == s.prices
    && var before, after := s.loans[id], t.loans[id];
       && t.loans == s.loans[id := after]
       && 0 < repay < before.outstandingDebt
       && after.outstandingDebt == before.outstandingDebt - repay
       && after.collateralAmount >= 0
       && CalculateSeizeCollateral(s, before, repay) == Ok(before.collateralAmount - after.collateralAmount)
       && after == before.(outstandingDebt := after.outstandingDebt,
                           collateralAmount := after.collateralAmount, status := after.status)
       && Mutable(after.status)
       && CalculateHealthFactor(s, before).Ok?
       && (CalculateHealthFactor(s, before).value < LIQUIDATION_HEALTH_FACTOR_BPS || before.status.Defaulted?)
  }

  lemma SeizureOf(w: World, tx: Tx) returns (repay: int)
    requires Inv(w) && tx.call.Liquidate? && Execute(w, tx).Ok?
    ensures SeizedFrom(w.lending, Execute(w, tx).value.lending, tx.call.loan, repay)
    ensures repay == Min(tx.call.amount, w.lending.loans[tx.call.loan].outstandingDebt / 2)
  {
    var id := tx.call.loan;
    if id in w.lending.loans {
      LoanIsOk(w, id);
    }
    repay := SeizureOfLoan(w.lending, tx.signers, id, tx.call.liquidator, tx.call.amount);
  }

  lemma SeizureOfLoan(s: LendingState, signers: Signers, id: nat, liquidator: Address, amount: i128)
    returns (repay: int)
    requires LoanManager.Liquidate(s, signers, id, liquidator, amount).Ok?
    requires id in s.loans ==> LoanOk(s, id)
    ensures SeizedFrom(s, LoanManager.Liquidate(s, signers, id, liquidator, amount).value, id, repay)
    ensures repay == Min(amount, s.loans[id].outstandingDebt / 2)
  {
    LiquidateTouchesMutable(s, signers, id, liquidator, amount);
    var q, taken, less := LiquidateShape(s, signers, id, liquidator, amount);
    QuoteBounds(s, s.loans[id], amount);
    repay := q.repay;
    SeizedFromQuote(s, LoanManager.Liquidate(s, signers, id, liquidator, amount).value, id, q, less);
  }

  lemma SeizedFromQuote(s: LendingState, t: LendingState, id: nat, q: Quote, less: Loan)
    requires id in s.loans && LoanOk(s, id) && Mutable(s.loans[id].status) && UpdateStatus(s, less).Ok?
    requires t.prices == s.prices && t.loans == s.loans[id := UpdateStatus(s, less).value]
    requires var before := s.loans[id];
             && 0 < q.repay < before.outstandingDebt && 0 <= q.seized <= before.collateralAmount
             && less.outstandingDebt == before.outstandingDebt - q.repay
             && less.collateralAmount == before.collateralAmount - q.seized
             && less == before.(outstandingDebt := less.outstandingDebt, collateralAmount := less.collateralAmount)
             && CalculateSeizeCollateral(s, before, q.repay) == Ok(q.seized)
             && CalculateHealthFactor(s, before).Ok?
             && (CalculateHealthFactor(s, before).value < LIQUIDATION_HEALTH_FACTOR_BPS || before.status.Defaulted?)
    ensures SeizedFrom(s, t, id, q.repay)
  {
    UpdateStatusOk(s, less);
  }

  /** A debt of one unit cannot be liquidated, so a liquidation never closes a loan. */
  lemma LastUnitCannotBeLiquidated(w: World, tx: Tx)
    requires Reachable(w) && tx.call.Liquidate? && tx.call.loan in w.lending.loans
    requires w.lending.loans[tx.call.loan].outstandingDebt <= 1
    ensures Execute(w, tx).Err?
  {
    if Execute(w, tx).Ok? {
      var repay := LiquidationLowersDebt(w, tx);
      assert false;
    }
  }

  // Largest liquidations in any run

  /** A successful liquidation of the loan that asks for all of its debt, or more. */
  predicate IsLargest(w: World, tx: Tx, id: nat) {
    && Liquidates(tx.call, id) && id in w.lending.loans
    && tx.call.amount >= w.lending.loans[id].outstandingDebt
    && Execute(w, tx).Ok?
  }

  /** How many largest liquidations of the loan a run contains, among whatever else happens in it. */
  function LargestIn(w: World, txs: seq<Tx>, id: nat): nat
    decreases |txs|
  {
    if txs == [] then 0
    else (if IsLargest(w, txs[0], id) then 1 else 0) + LargestIn(Step(w, txs[0]), txs[1..], id)
  }

  /** If the transaction lowers the debt of the loan, it is a largest liquidation of it. */
  predicate NothingElseLowers(w: World, tx: Tx, id: nat) {
    LowersDebt(tx.call, id) && Execute(w, tx).Ok? ==> IsLargest(w, tx, id)
  }

  /** Nothing in the run lowers the debt of the loan but largest liquidations. */
  predicate OnlyLargestLower(w: World, txs: seq<Tx>, id: nat)
    decreases |txs|
  {
    txs == [] || (NothingElseLowers(w, txs[0], id) && OnlyLargestLower(Step(w, txs[0]), txs[1..], id))
  }

  lemma LargestLiquidationHalves(w: World, tx: Tx, id: nat)
    requires Inv(w) && IsLargest(w, tx, id)
    ensures id in Step(w, tx).lending.loans
    ensures var debt := w.lending.loans[id].outstandingDebt;
            Step(w, tx).lending.loans[id].outstandingDebt == debt - debt / 2 > 0
  {
    var repay := SeizureOf(w, tx);
  }

  /** What one step, largest liquidation or not, does to a debt and to the count. */
  lemma StepHalves(w: World, tx: Tx, id: nat)
    requires Inv(w) && id in w.lending.loans && w.lending.loans[id].outstandingDebt > 0
    ensures var v, debt := Step(w, tx), w.lending.loans[id].outstandingDebt;
            && id in v.lending.loans
            && 0 <= v.lending.loans[id].outstandingDebt <= debt
            && (IsLargest(w, tx, id) ==> v.lending.loans[id].outstandingDebt == debt - debt / 2)
            && (!LowersDebt(tx.call, id) || Execute(w, tx).Err? ==> v.lending.loans[id].outstandingDebt == debt)
  {
    StepFigures(w, tx, id);
    StepKeepsInvariant(w, tx);
    LoanIsOk(Step(w, tx), id);
    if IsLargest(w, tx, id) {
      LargestLiquidationHalves(w, tx, id);
    }
  }

  /** What is still owed on a loan: nothing, if it is not stored. */
  function Owes(w: World, id: nat): nat {
    if id in w.lending.loans then Max(w.lending.loans[id].outstandingDebt, 0) else 0
  }

  /**
   * With anything else in between, k largest liquidations leave at most the debt halved k times,
   * rounded up each time.
   */
  lemma {:induction false} LargestLiquidationsHalve(w: World, txs: seq<Tx>, id: nat)
    requires Inv(w) && id in w.lending.loans
    ensures Owes(Run(w, txs), id) <= HalveUp(Owes(w, id), LargestIn(w, txs, id))
    decreases |txs|
  {
    if Owes(w, id) == 0 {
      SettledStaysSettled(w, txs, id);
    } else if txs != [] {
      var halved, v, rest := OneOfRun(w, txs, id);
      LargestLiquidationsHalve(v, rest, id);
      HalvedOnce(Owes(w, id), halved, Owes(v, id), LargestIn(v, rest, id));
    }
  }

  function Halved(debt: nat, halved: bool): nat {
    if halved then debt - debt / 2 else debt
  }

  lemma HalvedOnce(debt: nat, halved: bool, less: nat, times: nat)
    requires less <= Halved(debt, halved)
    ensures HalveUp(less, times) <= HalveUp(debt, (if halved then 1 else 0) + times)
    ensures less == Halved(debt, halved) ==>
              HalveUp(less, times) == HalveUp(debt, (if halved then 1 else 0) + times)
  {
    HalveUpMonotone(less, Halved(debt, halved), times);
  }

  lemma {:induction false} SettledStaysSettled(w: World, txs: seq<Tx>, id: nat)
    requires Inv(w) && id in w.lending.loans && Owes(w, id) == 0
    ensures Owes(Run(w, txs), id) == 0
  {
    LoanIsOk(w, id);
    RunEvolves(w, txs);
    if id in Run(w, txs).lending.loans {
      assert LoanLater(w.lending.loans[id], Run(w, txs).lending.loans[id]);
    }
  }

  /** The first step of a run lowers the debt to half, or lowers it otherwise, or leaves it. */
  lemma {:induction false} OneOfRun(w: World, txs: seq<Tx>, id: nat) returns (halved: bool, v: World, rest: seq<Tx>)
    requires Inv(w) && Owes(w, id) > 0 && txs != []
    ensures rest == txs[1..] && Run(w, txs) == Run(v, rest)
    ensures Inv(v) && id in v.lending.loans
    ensures LargestIn(w, txs, id) == (if halved then 1 else 0) + LargestIn(v, rest, id)
    ensures Owes(v, id) <= Halved(Owes(w, id), halved)
    ensures OnlyLargestLower(w, txs, id) ==> OnlyLargestLower(v, rest, id)
    ensures OnlyLargestLower(w, txs, id) ==> Owes(v, id) == Halved(Owes(w, id), halved) > 0
  {
    halved, v, rest := IsLargest(w, txs[0], id), Step(w, txs[0]), txs[1..];
    StepHalves(w, txs[0], id);
    StepKeepsInvariant(w, txs[0]);
  }

  /** If nothing else lowers the debt, they leave exactly that. */
  lemma {:induction false} OnlyLargestHalveExactly(w: World, txs: seq<Tx>, id: nat)
    requires Inv(w) && Owes(w, id) > 0 && OnlyLargestLower(w, txs, id)
    ensures Owes(Run(w, txs), id) == HalveUp(Owes(w, id), LargestIn(w, txs, id)) > 0
    decreases |txs|
  {
    if txs != [] {
      var halved, v, rest := OneOfRun(w, txs, id);
      OnlyLargestHalveExactly(v, rest, id);
      HalvedOnce(Owes(w, id), halved, Owes(v, id), LargestIn(v, rest, id));
    }
  }

  /**
   * Over any run, with price changes, time and all other calls in between: n largest liquidations
   * leave at most one unit of a debt that was at most 2^n. If nothing else lowers the debt, they
   * leave exactly one unit if and only if it was.
   */
  lemma {:induction false} LargestLiquidationsReachOne(w: World, txs: seq<Tx>, id: nat)
    requires Reachable(w) && Owes(w, id) > 0
    ensures Owes(w, id) <= Pow2(LargestIn(w, txs, id)) ==> Owes(Run(w, txs), id) <= 1
    ensures OnlyLargestLower(w, txs, id) ==>
              (Owes(Run(w, txs), id) == 1 <==> Owes(w, id) <= Pow2(LargestIn(w, txs, id)))
  {
    ReachableInvariant(w);
    var debt, n := Owes(w, id), LargestIn(w, txs, id);
    LargestLiquidationsHalve(w, txs, id);
    if OnlyLargestLower(w, txs, id) {
      OnlyLargestHalveExactly(w, txs, id);
    }
    if debt <= Pow2(n) {
      HalvingReachesOne(debt, n);
    } else {
      HalvingNeedsLog(debt, n);
    }
  }

  // The ratio of value to debt, at the last price set

  function WorthOf(s: LendingState, loan: Loan): nat {
    Worth(loan.collateralAmount, PriceOf(s, loan))
  }

  /** A loan's health at the last price set, whether or not it is still fresh. */
  function HealthOf(s: LendingState, loan: Loan): Result<u32> {
    if loan.outstandingDebt <= 0 then Ok(U32_MAX)
    else HealthFactor(loan.collateralAmount, loan.outstandingDebt, loan.liquidationThresholdBps, PriceOf(s, loan))
  }

  /** The collateral's value covers the debt and the liquidation bonus on it. */
  predicate CoveredLoan(s: LendingState, loan: Loan) {
    Covered(WorthOf(s, loan), loan.outstandingDebt, loan.liquidationBonusBps)
  }

  /** The ratio of value to debt is at least what it was; a loan without debt has any ratio. */
  predicate RatioKept(s: LendingState, before: Loan, t: LendingState, after: Loan) {
    WorthOf(t, after) * before.outstandingDebt >= WorthOf(s, before) * after.outstandingDebt
  }

  lemma SeizureIsPriced(s: LendingState, t: LendingState, id: nat, repay: i128)
    requires SeizedFrom(s, t, id, repay) && s.loans[id].collateralAmount >= 0
    ensures var before, price := s.loans[id], PriceOf(s, s.loans[id]);
            && price.price > 0 && PriceOf(t, t.loans[id]) == price
            && CollateralValue(before.collateralAmount, price) == Ok(WorthOf(s, before))
            && SeizeCollateral(repay, before.liquidationBonusBps, price)
               == Ok(before.collateralAmount - t.loans[id].collateralAmount)
            && HealthFactor(before.collateralAmount, before.outstandingDebt, before.liquidationThresholdBps, price).Ok?
  {
    var before, price := s.loans[id], PriceOf(s, s.loans[id]);
    assert GetFreshPrice(s.prices, s.now, before.collateralAsset, before.loanAsset) == Ok(price);
    ValueDefined(before.collateralAmount, price);
  }

  lemma CoveredAfterSeizure(s: LendingState, t: LendingState, id: nat, repay: i128)
    requires SeizedFrom(s, t, id, repay) && CoveredLoan(s, s.loans[id])
    requires s.loans[id].collateralAmount >= 0
    ensures CoveredLoan(t, t.loans[id]) && RatioKept(s, s.loans[id], t, t.loans[id])
  {
    SeizureIsPriced(s, t, id, repay);
    var before, after := s.loans[id], t.loans[id];
    var price := PriceOf(s, before);
    LiquidationKeepsCover(
      before.collateralAmount, before.outstandingDebt, before.liquidationThresholdBps, before.liquidationBonusBps,
      price, repay, after.collateralAmount);
    ValueDefined(after.collateralAmount, price);
  }

  /** A liquidation of a clearly uncovered loan lowers its ratio, whatever the floors do. */
  lemma UncoveredAfterSeizure(s: LendingState, t: LendingState, id: nat, repay: i128)
    requires SeizedFrom(s, t, id, repay) && s.loans[id].collateralAmount >= 0
    requires var before := s.loans[id];
             ClearlyUncovered(WorthOf(s, before), before.outstandingDebt, before.liquidationBonusBps,
                              PriceOf(s, before), repay)
    ensures !RatioKept(s, s.loans[id], t, t.loans[id])
    ensures HealthOf(s, s.loans[id]).Ok? && HealthOf(t, t.loans[id]).Ok?
    ensures HealthOf(t, t.loans[id]).value <= HealthOf(s, s.loans[id]).value
  {
    SeizureIsPriced(s, t, id, repay);
    var before, after := s.loans[id], t.loans[id];
    var price := PriceOf(s, before);
    UncoveredLiquidationLowersRatio(
      before.collateralAmount, before.outstandingDebt, before.liquidationBonusBps, price, repay, after.collateralAmount);
    ValueDefined(after.collateralAmount, price);
    HealthAfterSeizure(before, after, price);
  }

  lemma HealthAfterSeizure(before: Loan, after: Loan, price: PriceData)
    requires 0 < after.outstandingDebt <= before.outstandingDebt
    requires 0 <= after.collateralAmount <= before.collateralAmount
    requires after.liquidationThresholdBps == before.liquidationThresholdBps
    requires HealthFactor(before.collateralAmount, before.outstandingDebt, before.liquidationThresholdBps, price).Ok?
    requires CollateralValue(after.collateralAmount, price).Ok?
    requires CollateralValue(after.collateralAmount, price).value * before.outstandingDebt
          <= CollateralValue(before.collateralAmount, price).value * after.outstandingDebt
    ensures HealthFactor(after.collateralAmount, after.outstandingDebt, after.liquidationThresholdBps, price).Ok?
    ensures HealthFactor(after.collateralAmount, after.outstandingDebt, after.liquidationThresholdBps, price).value
         <= HealthFactor(before.collateralAmount, before.outstandingDebt, before.liquidationThresholdBps, price).value
  {
    var v1, v2 := CollateralValue(before.collateralAmount, price).value, CollateralValue(after.collateralAmount, price).value;
    ValueDefined(before.collateralAmount, price);
    ValueDefined(after.collateralAmount, price);
    WorthGrows(after.collateralAmount, before.collateralAmount, price);
    HealthFactorDefined(before.collateralAmount, before.outstandingDebt, before.liquidationThresholdBps, price);
    HealthFactorDefined(after.collateralAmount, after.outstandingDebt, before.liquidationThresholdBps, price);
    ScaleUp(v2, v1, before.liquidationThresholdBps);
    HealthFactorMonotone(after.collateralAmount, after.outstandingDebt, price,
                         before.collateralAmount, before.outstandingDebt, price, before.liquidationThresholdBps);
  }

  /** For every reachable state: liquidating a clearly uncovered loan lowers its ratio and never raises its health. */
  lemma UncoveredLiquidationHurts(w: World, tx: Tx)
    requires Reachable(w) && tx.call.Liquidate? && Execute(w, tx).Ok? && tx.call.loan in w.lending.loans
    requires var loan := w.lending.loans[tx.call.loan];
             ClearlyUncovered(WorthOf(w.lending, loan), loan.outstandingDebt, loan.liquidationBonusBps,
                              PriceOf(w.lending, loan), RepaymentFor(loan, tx.call.amount))
    ensures var s, t, id := w.lending, Execute(w, tx).value.lending, tx.call.loan;
            && id in t.loans
            && !RatioKept(s, s.loans[id], t, t.loans[id])
            && HealthOf(s, s.loans[id]).Ok? && HealthOf(t, t.loans[id]).Ok?
            && HealthOf(t, t.loans[id]).value <= HealthOf(s, s.loans[id]).value
  {
    ReachableInvariant(w);
    var repay := SeizureOf(w, tx);
    LoanIsOk(w, tx.call.loan);
    UncoveredAfterSeizure(w.lending, Execute(w, tx).value.lending, tx.call.loan, repay);
  }

  /** Calls other than liquidations only add collateral, lower the debt or settle the loan. */
  lemma CoveredByFigures(s: LendingState, before: Loan, t: LendingState, after: Loan, call: Call, id: nat)
    requires Figures(before, after, call, id) && LoanLater(before, after)
    requires after.outstandingDebt >= 0 && PriceOf(t, after) == PriceOf(s, before) && CoveredLoan(s, before)
    ensures CoveredLoan(t, after) && RatioKept(s, before, t, after)
  {
    if after.collateralAmount >= before.collateralAmount {
      WorthGrows(before.collateralAmount, after.collateralAmount, PriceOf(s, before));
      BetterRatio(WorthOf(s, before), before.outstandingDebt, WorthOf(t, after), after.outstandingDebt,
                  BPS_DENOMINATOR + before.liquidationBonusBps);
    }
  }

  lemma BetterRatio(v1: int, d1: int, v2: int, d2: int, factor: int)
    requires 0 <= v1 <= v2 && 0 <= d2 <= d1 && factor >= 0 && 10_000 * v1 >= d1 * factor
    ensures 10_000 * v2 >= d2 * factor && v2 * d1 >= v1 * d2
  {
    ScaleUp(d2, d1, factor);
    ScaleUp(v1, v2, d1);
    ScaleUp(d2, d1, v1);
  }

  lemma StepKeepsCover(w: World, tx: Tx, id: nat)
    requires Inv(w) && id in w.lending.loans && id in Step(w, tx).lending.loans
    requires CoveredLoan(w.lending, w.lending.loans[id]) && !SetsPriceOf(tx.call, w.lending.loans[id])
    ensures var t := Step(w, tx).lending;
            CoveredLoan(t, t.loans[id]) && RatioKept(w.lending, w.lending.loans[id], t, t.loans[id])
  {
    var v := Step(w, tx);
    StepFigures(w, tx, id);
    LoanIsOk(w, id);
    if Liquidates(tx.call, id) && Execute(w, tx).Ok? {
      var repay := SeizureOf(w, tx);
      CoveredAfterSeizure(w.lending, v.lending, id, repay);
    } else {
      StepKeepsInvariant(w, tx);
      LoanIsOk(v, id);
      CoveredByFigures(w.lending, w.lending.loans[id], v.lending, v.lending.loans[id], tx.call, id);
    }
  }

  lemma RatioTransitive(v0: nat, d0: nat, v1: nat, d1: nat, v2: nat, d2: nat)
    requires v1 * d0 >= v0 * d1 && v2 * d1 >= v1 * d2 && d2 <= d1
    ensures v2 * d0 >= v0 * d2
  {
    if d1 > 0 {
      ScaleUp(v0 * d1, v1 * d0, d2);
      ScaleUp(v1 * d2, v2 * d1, d0);
      MulSwap(v0, d1, d2);
      MulSwap(v1, d0, d2);
      MulSwap(v2, d1, d0);
      CancelFactor(v0 * d2, v2 * d0, d1);
    }
  }

  /**
   * While the price of its pair is not set anew, nothing that happens in any run, liquidations by
   * anyone included, uncovers a covered loan or lowers the ratio of its value to its debt.
   */
  lemma {:induction false} CoveredLoansKeepRatio(w: World, txs: seq<Tx>, id: nat)
    requires Inv(w) && id in w.lending.loans && id in Run(w, txs).lending.loans
    requires CoveredLoan(w.lending, w.lending.loans[id])
    requires forall i | 0 <= i < |txs| :: !SetsPriceOf(txs[i].call, w.lending.loans[id])
    ensures var t := Run(w, txs).lending;
            CoveredLoan(t, t.loans[id]) && RatioKept(w.lending, w.lending.loans[id], t, t.loans[id])
    decreases |txs|
  {
    if txs != [] {
      var v, u := Step(w, txs[0]), Run(w, txs);
      StillStored(w, txs, id);
      StepKeepsCover(w, txs[0], id);
      CoveredLoansKeepRatio(v, txs[1..], id);
      var a, b, c := w.lending.loans[id], v.lending.loans[id], u.lending.loans[id];
      RatioTransitive(WorthOf(w.lending, a), a.outstandingDebt, WorthOf(v.lending, b), b.outstandingDebt,
                      WorthOf(u.lending, c), c.outstandingDebt);
    }
  }

  /** A loan that is stored after a run was stored all along, with the same assets and a debt that only fell. */
  lemma {:induction false} StillStored(w: World, txs: seq<Tx>, id: nat)
    requires Inv(w) && id in w.lending.loans && txs != [] && id in Run(w, txs).lending.loans
    ensures var v, u := Step(w, txs[0]), Run(w, txs);
            && Inv(v) && id in v.lending.loans
            && LoanLater(w.lending.loans[id], v.lending.loans[id])
            && LoanLater(v.lending.loans[id], u.lending.loans[id])
            && 0 <= u.lending.loans[id].outstandingDebt
  {
    var v := Step(w, txs[0]);
    StepKeepsInvariant(w, txs[0]);
    StepEvolves(w, txs[0]);
    RunEvolves(v, txs[1..]);
    LoanIsOk(w, id);
    LoanIsOk(Run(w, txs), id);
    assert Run(w, txs) == Run(v, txs[1..]);
  }

  /** So its health factor does not fall either, wherever the contract can compute it. */
  lemma {:induction false} CoveredLoansStayHealthy(w: World, txs: seq<Tx>, id: nat)
    requires Reachable(w) && id in w.lending.loans && id in Run(w, txs).lending.loans
    requires CoveredLoan(w.lending, w.lending.loans[id])
    requires forall i | 0 <= i < |txs| :: !SetsPriceOf(txs[i].call, w.lending.loans[id])
    ensures var s, t := w.lending, Run(w, txs).lending;
            && CoveredLoan(t, t.loans[id])
            && (HealthOf(s, s.loans[id]).Ok? && HealthOf(t, t.loans[id]).Ok? ==>
                  HealthOf(t, t.loans[id]).value >= HealthOf(s, s.loans[id]).value)
  {
    ReachableInvariant(w);
    CoveredLoansKeepRatio(w, txs, id);
    RunEvolves(w, txs);
    LoanIsOk(w, id);
    LoanIsOk(Run(w, txs), id);
    assert LoanLater(w.lending.loans[id], Run(w, txs).lending.loans[id]);
    HealthByRatio(w.lending, w.lending.loans[id], Run(w, txs).lending, Run(w, txs).lending.loans[id]);
  }

  lemma HealthByRatio(s: LendingState, before: Loan, t: LendingState, after: Loan)
    requires RatioKept(s, before, t, after) && after.liquidationThresholdBps == before.liquidationThresholdBps
    requires before.collateralAmount >= 0 && after.collateralAmount >= 0
    requires 0 <= after.outstandingDebt <= before.outstandingDebt
    ensures HealthOf(s, before).Ok? && HealthOf(t, after).Ok? ==> HealthOf(t, after).value >= HealthOf(s, before).value
  {
    if after.outstandingDebt > 0 && HealthOf(s, before).Ok? && HealthOf(t, after).Ok? {
      ValueDefined(before.collateralAmount, PriceOf(s, before));
      ValueDefined(after.collateralAmount, PriceOf(t, after));
      HealthFactorMonotone(before.collateralAmount, before.outstandingDebt, PriceOf(s, before),
                           after.collateralAmount, after.outstandingDebt, PriceOf(t, after),
                           before.liquidationThresholdBps);
    }
  }

  /**
   * A refreshed status is exact: time comes first, and before the due time each band of the
   * health factor is a comparison of value times threshold with debt, free of its floor and cut-off.
   */
  lemma RefreshedStatusIsExact(s: LendingState, loan: Loan)
    requires Mutable(loan.status) && loan.outstandingDebt > 0 && UpdateStatus(s, loan).Ok?
    ensures var status := UpdateStatus(s, loan).value.status;
            var defaultTime := loan.dueTime + loan.gracePeriodDays * SECONDS_PER_DAY;
            && (status.Defaulted? <==> s.now > defaultTime)
            && (status.Expired? <==> loan.dueTime < s.now <= defaultTime)
            && (s.now <= loan.dueTime ==>
                  && CollateralValue(loan.collateralAmount, PriceOf(s, loan)).Ok?
                  && var weighted := CollateralValue(loan.collateralAmount, PriceOf(s, loan)).value
                                     * loan.liquidationThresholdBps;
                     var safe := Max(loan.minHealthFactorBps, 14_000) * loan.outstandingDebt;
                     && (status.Active? <==> weighted >= safe)
                     && (status.Warning? <==> 12_000 * loan.outstandingDebt <= weighted < safe)
                     && (status.LiquidationPlanning? <==> weighted < 12_000 * loan.outstandingDebt))
  {
    if s.now <= loan.dueTime {
      var price := PriceOf(s, loan);
      assert GetFreshPrice(s.prices, s.now, loan.collateralAsset, loan.loanAsset) == Ok(price);
      HealthFactorBand(loan.collateralAmount, loan.outstandingDebt, loan.liquidationThresholdBps, price,
                       LIQUIDATION_HEALTH_FACTOR_BPS);
      HealthFactorBand(loan.collateralAmount, loan.outstandingDebt, loan.liquidationThresholdBps, price,
                       EffectiveMinHf(loan));
    }
  }

  // Safety from activation

  /**
   * From its activation on, through any run, a loan that has not defaulted cannot be liquidated
   * while its collateral is worth at least 6/7 of what it was worth at activation.
   */
  lemma {:induction false} SafeWhileSixSeventhsRemain(w: World, open: Tx, txs: seq<Tx>, attack: Tx)
    requires Reachable(w) && open.call.ActivateLoan? && Execute(w, open).Ok?
    requires var u, id := Run(Step(w, open), txs), open.call.loan;
             && attack.call.Liquidate? && attack.call.loan == id
             && id in u.lending.loans && !u.lending.loans[id].status.Defaulted?
             && 7 * WorthOf(u.lending, u.lending.loans[id]) >= 6 * WorthOf(w.lending, w.lending.loans[id])
    ensures Execute(Run(Step(w, open), txs), attack).Err?
  {
    var u, id := Run(Step(w, open), txs), open.call.loan;
    SinceActivation(w, open, txs);
    ReachableInvariant(w);
    LoanIsOk(w, id);
    LoanIsOk(u, id);
    if Mutable(u.lending.loans[id].status) && CalculateHealthFactor(u.lending, u.lending.loans[id]).Ok? {
      SafeByRatio(w.lending, w.lending.loans[id], u.lending, u.lending.loans[id]);
    }
    TriggerGuards(u, attack);
  }

  /** An open loan that has not defaulted is liquidated only at a health factor below the trigger. */
  lemma TriggerGuards(w: World, tx: Tx)
    requires tx.call.Liquidate? && tx.call.loan in w.lending.loans
    requires var loan := w.lending.loans[tx.call.loan];
             && !loan.status.Defaulted?
             && (Mutable(loan.status) && CalculateHealthFactor(w.lending, loan).Ok? ==>
                   CalculateHealthFactor(w.lending, loan).value >= LIQUIDATION_HEALTH_FACTOR_BPS)
    ensures Execute(w, tx).Err?
  {
  }

  /** The gate a loan passed at activation, and what has become of it since. */
  lemma {:induction false} SinceActivation(w: World, open: Tx, txs: seq<Tx>)
    requires Reachable(w) && open.call.ActivateLoan? && Execute(w, open).Ok?
    ensures var u, id := Run(Step(w, open), txs), open.call.loan;
            && Inv(u) && id in w.lending.loans
            && CalculateHealthFactor(w.lending, w.lending.loans[id]).Ok?
            && CalculateHealthFactor(w.lending, w.lending.loans[id]).value >= SAFE_HEALTH_FACTOR_BPS
            && (id in u.lending.loans && Mutable(u.lending.loans[id].status) ==>
                  && 0 < u.lending.loans[id].outstandingDebt <= w.lending.loans[id].outstandingDebt
                  && u.lending.loans[id].liquidationThresholdBps == w.lending.loans[id].liquidationThresholdBps)
  {
    ReachableInvariant(w);
    ActivationGate(w, open.signers, open.call.loan);
    StepKeepsInvariant(w, open);
    SinceThen(Step(w, open), txs, open.call.loan);
  }

  lemma {:induction false} SinceThen(v: World, txs: seq<Tx>, id: nat)
    requires Inv(v) && id in v.lending.loans
    ensures var u := Run(v, txs);
            && Inv(u)
            && (id in u.lending.loans && Mutable(u.lending.loans[id].status) ==>
                  && 0 < u.lending.loans[id].outstandingDebt <= v.lending.loans[id].outstandingDebt
                  && u.lending.loans[id].liquidationThresholdBps == v.lending.loans[id].liquidationThresholdBps)
  {
    var u := Run(v, txs);
    RunEvolves(v, txs);
    IdentifierGivenOut(v, id);
    if id in u.lending.loans {
      OpenLoanOwes(u, id);
      assert LoanLater(v.lending.loans[id], u.lending.loans[id]);
    }
  }

  lemma IdentifierGivenOut(w: World, id: nat)
    requires Inv(w) && id in w.lending.loans
    ensures id <= w.lending.loanCount
  {
    LoanIsOk(w, id);
  }

  lemma OpenLoanOwes(w: World, id: nat)
    requires Inv(w) && id in w.lending.loans
    ensures Mutable(w.lending.loans[id].status) ==> w.lending.loans[id].outstandingDebt > 0
  {
    LoanIsOk(w, id);
  }

  lemma ActivationGate(w: World, signers: Signers, id: nat)
    requires Inv(w) && LoanManager.ActivateLoan(w.lending, signers, id).Ok?
    ensures id in w.lending.loans
    ensures CalculateHealthFactor(w.lending, w.lending.loans[id]).Ok?
    ensures CalculateHealthFactor(w.lending, w.lending.loans[id]).value >= SAFE_HEALTH_FACTOR_BPS
    ensures var t := LoanManager.ActivateLoan(w.lending, signers, id).value;
            && id in t.loans
            && t.loans[id].outstandingDebt == w.lending.loans[id].outstandingDebt
            && t.loans[id].liquidationThresholdBps == w.lending.loans[id].liquidationThresholdBps
  {
    var locked, paid, open := ActivateShape(w.lending, signers, id);
  }

  lemma SafeByRatio(s: LendingState, before: Loan, t: LendingState, now: Loan)
    requires 0 < now.outstandingDebt <= before.outstandingDebt
    requires now.liquidationThresholdBps == before.liquidationThresholdBps
    requires CalculateHealthFactor(s, before).Ok? && CalculateHealthFactor(t, now).Ok?
    requires CalculateHealthFactor(s, before).value >= SAFE_HEALTH_FACTOR_BPS
    requires before.collateralAmount >= 0 && now.collateralAmount >= 0
    requires 7 * WorthOf(t, now) >= 6 * WorthOf(s, before)
    ensures CalculateHealthFactor(t, now).value >= LIQUIDATION_HEALTH_FACTOR_BPS
  {
    assert GetFreshPrice(s.prices, s.now, before.collateralAsset, before.loanAsset) == Ok(PriceOf(s, before));
    assert GetFreshPrice(t.prices, t.now, now.collateralAsset, now.loanAsset) == Ok(PriceOf(t, now));
    ValueDefined(before.collateralAmount, PriceOf(s, before));
    ValueDefined(now.collateralAmount, PriceOf(t, now));
    SixSeventhsKeepsTrigger(
      before.collateralAmount, before.outstandingDebt, PriceOf(s, before),
      now.collateralAmount, now.outstandingDebt, PriceOf(t, now), before.liquidationThresholdBps);
  }

  // Reachable loans and the risk arithmetic

  /** For every loan that can exist, collateral worth 3/4 of the debt covers every allowed seizure. */
  lemma ReachableSeizureNeverShort(w: World, id: nat, amount: i128)
    requires Reachable(w) && id in w.lending.loans && Mutable(w.lending.loans[id].status)
    requires var loan := w.lending.loans[id];
             4 * WorthOf(w.lending, loan) >= 3 * loan.outstandingDebt
    ensures LiquidationQuote(w.lending, w.lending.loans[id], amount) != Err(InsufficientCollateralToSeize)
  {
    ReachableInvariant(w);
    LoanIsOk(w, id);
    var s, loan := w.lending, w.lending.loans[id];
    if LiquidationQuote(s, loan, amount) == Err(InsufficientCollateralToSeize) {
      CloseFactorIsHalf(loan.outstandingDebt);
      var repay: i128 := Min(amount, loan.outstandingDebt / 2);
      assert GetFreshPrice(s.prices, s.now, loan.collateralAsset, loan.loanAsset) == Ok(PriceOf(s, loan));
      ValueDefined(loan.collateralAmount, PriceOf(s, loan));
      SeizureNeverShort(
        loan.collateralAmount, loan.outstandingDebt, loan.liquidationBonusBps, PriceOf(s, loan), repay);
      assert false;
    }
  }

  /** The cast from i128 to u128 keeps a number exactly if it is not negative. */
  predicate CastIsExact(x: i128) {
    AsU128(x) == x
  }

  /** Every number of a loan that its risk figures cast. */
  predicate LoanCastsAreExact(loan: Loan) {
    CastIsExact(loan.principal) && CastIsExact(loan.outstandingDebt) && CastIsExact(loan.collateralAmount)
  }

  /**
   * No cast to an unsigned integer ever sees a negative number, in any reachable state and for any
   * amount a caller may pass: not the prices, not the offers whose interest is computed, and not
   * the loans as stored, topped up, paid down or liquidated, with the repayment that is priced.
   */
  lemma CastsAreExact(w: World, id: nat, amount: i128)
    requires Reachable(w)
    ensures forall pair | pair in w.lending.prices :: CastIsExact(w.lending.prices[pair].price)
    ensures id in w.offers ==> CastIsExact(w.offers[id].loanAmount)
    ensures id in w.lending.loans ==>
              var loan := w.lending.loans[id];
              && LoanCastsAreExact(loan)
              && (amount > 0 && loan.collateralAmount + amount <= I128_MAX ==>
                    LoanCastsAreExact(loan.(collateralAmount := loan.collateralAmount + amount)))
              && (amount > 0 ==>
                    LoanCastsAreExact(loan.(outstandingDebt := loan.outstandingDebt - Min(amount, loan.outstandingDebt))))
              && (amount > 0 ==> CastIsExact(RepaymentFor(loan, amount)))
              && (LiquidationQuote(w.lending, loan, amount).Ok? ==>
                    var q := LiquidationQuote(w.lending, loan, amount).value;
                    && CastIsExact(q.repay)
                    && LoanCastsAreExact(loan.(outstandingDebt := loan.outstandingDebt - q.repay,
                                               collateralAmount := loan.collateralAmount - q.seized)))
  {
    ReachableInvariant(w);
    if id in w.offers {
      assert OfferOk(w, id);
    }
    if id in w.lending.loans {
      LoanIsOk(w, id);
    }
  }

  /** Loans of ordinary size never meet an arithmetic panic: a fresh price is all that is needed. */
  lemma OrdinaryLoansNeverOverflow(w: World, id: nat, repay: i128)
    requires Reachable(w) && id in w.lending.loans && w.lending.loans[id].outstandingDebt > 0
    requires var loan := w.lending.loans[id];
             && loan.principal <= TWO_63 && loan.durationDays <= 1_825 && loan.collateralAmount <= TWO_64
             && PriceOf(w.lending, loan).price <= TWO_50
             && GetFreshPrice(w.lending.prices, w.lending.now, loan.collateralAsset, loan.loanAsset).Ok?
             && 0 <= repay <= loan.outstandingDebt
    ensures w.lending.loans[id].outstandingDebt <= 2 * w.lending.loans[id].principal
    ensures CalculateHealthFactor(w.lending, w.lending.loans[id]).Ok?
    ensures CalculateLtv(w.lending, w.lending.loans[id]).Ok?
    ensures CloseFactorLimit(w.lending.loans[id].outstandingDebt).Ok?
    ensures CalculateSeizeCollateral(w.lending, w.lending.loans[id], repay).Ok?
  {
    ReachableAccounts(w);
    LoanIsOk(w, id);
    var s, loan := w.lending, w.lending.loans[id];
    assert DebtAccount(s, id);
    InterestNeverOverflows(loan.principal, loan.fixedAprBps, loan.durationDays);
    var price := PriceOf(s, loan);
    assert GetFreshPrice(s.prices, s.now, loan.collateralAsset, loan.loanAsset) == Ok(price);
    assert BoundedPrice(price);
    RiskNeverOverflows(loan.collateralAmount, loan.outstandingDebt, loan.liquidationThresholdBps, price);
    SeizeNeverOverflows(repay, loan.liquidationBonusBps, price);
  }
}
