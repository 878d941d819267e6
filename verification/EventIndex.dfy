/** The backend's event indexer, as far as it mirrors the status of offers, against the contract it mirrors. */
module EventIndex {
  import opened Shared
  import opened Ledger
  import opened LoanManager
  import opened Marketplace
  import opened Protocol
  import opened Invariant
  import opened Lifecycle
  import Vault

  /** An event as the indexer receives it, named by its transaction and its position in it. */
  datatype NormalizedEvent = NormalizedEvent(txHash: nat, eventIndex: nat, event: Event)

  /** The part of an offer's row that the indexer reads or writes. */
  datatype OfferRow = OfferRow(status: OfferStatus, fixedAprBps: u32)

  type Rows = map<nat, OfferRow>

  datatype Index = Index(indexed: set<(nat, nat)>, rows: Rows)

  datatype SyncResult = Processed | Duplicate | Ignored

  function IdOf(e: NormalizedEvent): (nat, nat) {
    (e.txHash, e.eventIndex)
  }

  /** The events that have a transaction type; all others are only recorded. */
  predicate HasType(e: Event) {
    || e.OfferCreated? || e.OfferFunded? || e.OfferActivated? || e.OfferCancelled? || e.OfferExpired?
    || e.OfferMatched? || e.LoanCreated? || e.LoanActivated? || e.CollateralAdded? || e.PartialRepaid?
    || e.LoanRepaid? || e.LoanExpired? || e.LoanDefaulted? || e.LoanLiquidated? || e.PriceUpdated?
  }

  function SetStatus(rows: Rows, id: nat, status: OfferStatus): Rows {
    if id in rows then rows[id := rows[id].(status := status)] else rows
  }

  /** What an event that is new does to the rows. Creation has no branch of its own. */
  function Project(rows: Rows, e: Event): Rows {
    match e
    case OfferFunded(id, _) => SetStatus(rows, id, Funding)
    case OfferActivated(id, _) => SetStatus(rows, id, OfferStatus.Active)
    case OfferCancelled(id, _) => SetStatus(rows, id, Cancelled)
    case OfferExpired(id, _) => SetStatus(rows, id, OfferStatus.Expired)
    case OfferMatched(id, _, _) =>
      if id in rows && rows[id].fixedAprBps <= MAX_FIXED_APR_BPS then SetStatus(rows, id, Matched) else rows
    case _ => rows
  }

  function Sync(db: Index, e: NormalizedEvent): Index {
    if IdOf(e) in db.indexed then db
    else Index(db.indexed + {IdOf(e)}, if HasType(e.event) then Project(db.rows, e.event) else db.rows)
  }

  /** The service itself: it records the event first, then updates the row its name selects. */
  class EventSyncService {
    var indexed: set<(nat, nat)>
    var rows: Rows

    constructor ()
      ensures View() == Index({}, map[])
    {
      indexed, rows := {}, map[];
    }

    function View(): Index
      reads this
    {
      Index(indexed, rows)
    }

    method Receive(e: NormalizedEvent) returns (r: SyncResult)
      modifies this
      ensures View() == Sync(old(View()), e)
      ensures r == if IdOf(e) in old(indexed) then Duplicate else if HasType(e.event) then Processed else Ignored
    {
      if (e.txHash, e.eventIndex) in indexed {
        return Duplicate;
      }
      indexed := indexed + {(e.txHash, e.eventIndex)};
      if !HasType(e.event) {
        return Ignored;
      }
      if e.event.OfferFunded? || e.event.OfferActivated? || e.event.OfferCancelled? || e.event.OfferExpired? {
        var status := if e.event.OfferFunded? then Funding
                      else if e.event.OfferActivated? then OfferStatus.Active
                      else if e.event.OfferCancelled? then Cancelled
                      else OfferStatus.Expired;
        if e.event.offerId in rows {
          rows := rows[e.event.offerId := rows[e.event.offerId].(status := status)];
        }
        return Processed;
      }
      if e.event.OfferMatched? {
        if e.event.offerId !in rows {
          return Processed;
        }
        var row := rows[e.event.offerId];
        if row.fixedAprBps > MAX_FIXED_APR_BPS {
          return Processed;
        }
        rows := rows[e.event.offerId := row.(status := Matched)];
      }
      return Processed;
    }
  }

  // Replaying a log

  function Replay(rows: Rows, log: seq<Event>): Rows {
    if log == [] then rows else Project(Replay(rows, log[..|log| - 1]), log[|log| - 1])
  }

  lemma {:induction false} ReplayAppend(rows: Rows, a: seq<Event>, b: seq<Event>)
    ensures Replay(rows, a + b) == Replay(Replay(rows, a), b)
    decreases |b|
  {
    if b == [] {
      assert a + b == a;
    } else {
      assert (a + b)[..|a + b| - 1] == a + b[..|b| - 1];
      ReplayAppend(rows, a, b[..|b| - 1]);
    }
  }

  /** Events that change the status of an offer. */
  predicate ChangesOffer(e: Event) {
    e.OfferFunded? || e.OfferActivated? || e.OfferCancelled? || e.OfferExpired? || e.OfferMatched?
  }

  lemma {:induction false} QuietReplay(rows: Rows, log: seq<Event>)
    requires forall i | 0 <= i < |log| :: !ChangesOffer(log[i])
    ensures Replay(rows, log) == rows
    decreases |log|
  {
    if log != [] {
      QuietReplay(rows, log[..|log| - 1]);
    }
  }

  // What a transaction publishes

  /** The log grew, it ends with `e`, and nothing before that changes an offer. */
  ghost predicate News(s: LedgerState, t: LedgerState, e: Event) {
    && |s.log| < |t.log| && s.log == t.log[..|s.log|]
    && t.log[|t.log| - 1] == e
    && forall i | |s.log| <= i < |t.log| - 1 :: !ChangesOffer(t.log[i])
  }

  lemma NewsReplay(rows: Rows, s: LedgerState, t: LedgerState, e: Event)
    requires News(s, t, e)
    ensures Replay(rows, t.log[|s.log|..]) == Project(rows, e)
  {
    var added := t.log[|s.log|..];
    QuietReplay(rows, added[..|added| - 1]);
  }

  lemma OneEvent(s: LedgerState, t: LedgerState, e: Event)
    requires t.log == s.log + [e]
    ensures News(s, t, e)
  {
  }

  lemma TwoEvents(s: LedgerState, a: LedgerState, t: LedgerState, e: Event, f: Event)
    requires a.log == s.log + [e] && t.log == a.log + [f] && !ChangesOffer(e)
    ensures News(s, t, f)
  {
  }

  lemma ThreeEvents(s: LedgerState, a: LedgerState, b: LedgerState, t: LedgerState, e: Event, f: Event, g: Event)
    requires a.log == s.log + [e] && b.log == a.log + [f] && t.log == b.log + [g]
    requires !ChangesOffer(e) && !ChangesOffer(f)
    ensures News(s, t, g)
  {
  }

  /** No Loan Manager call changes an offer. */
  lemma LoanCallNews(s: LendingState, signers: Signers, call: Call) returns (e: Event)
    requires ChangesLoan(call) && ExecuteLending(s, signers, call).Ok?
    requires LoanOf(call) in s.loans ==> LoanOk(s, LoanOf(call))
    ensures News(s.ledger, ExecuteLending(s, signers, call).value.ledger, e) && !ChangesOffer(e)
  {
    match call {
      case ActivateLoan(id) => e := ActivateNews(s, signers, id);
      case AddCollateral(id, amount) => e := AddCollateralNews(s, signers, id, amount);
      case PartialRepay(id, amount) => e := PartialRepayNews(s, signers, id, amount);
      case FullRepay(id) => e := FullRepayNews(s, signers, id);
      case Liquidate(id, liquidator, amount) => e := LiquidateNews(s, signers, id, liquidator, amount);
      case _ => e := StatusNews(s, signers, call);
    }
  }

  lemma ActivateNews(s: LendingState, signers: Signers, id: nat) returns (e: Event)
    requires LoanManager.ActivateLoan(s, signers, id).Ok?
    ensures News(s.ledger, LoanManager.ActivateLoan(s, signers, id).value.ledger, e) && !ChangesOffer(e)
  {
    var locked, paid, open := ActivateShape(s, signers, id);
    e := LoanActivated(id, open.outstandingDebt);
    ThreeEvents(s.ledger, locked, paid, LoanManager.ActivateLoan(s, signers, id).value.ledger,
                CollateralLocked(id, open.borrower, open.collateralAsset, open.collateralAmount),
                LoanAssetTransferred(open.offerId, id, open.borrower, open.loanAsset, open.principal), e);
  }

  lemma PartialRepayNews(s: LendingState, signers: Signers, id: nat, amount: i128) returns (e: Event)
    requires LoanManager.PartialRepay(s, signers, id, amount).Ok?
    ensures News(s.ledger, LoanManager.PartialRepay(s, signers, id, amount).value.ledger, e) && !ChangesOffer(e)
  {
    var repay, paid, less := PartialRepayShape(s, signers, id, amount);
    e := PartialRepaid(id, repay);
    RepayingNews(s, signers, id, repay, paid, less, LoanManager.PartialRepay(s, signers, id, amount).value.ledger, e);
  }

  lemma FullRepayNews(s: LendingState, signers: Signers, id: nat) returns (e: Event)
    requires LoanManager.FullRepay(s, signers, id).Ok?
    requires id in s.loans ==> LoanOk(s, id)
    ensures News(s.ledger, LoanManager.FullRepay(s, signers, id).value.ledger, e) && !ChangesOffer(e)
  {
    FullRepayTouchesMutable(s, signers, id);
    var paid, less := FullRepayShape(s, signers, id);
    var repay := s.loans[id].outstandingDebt;
    e := LoanRepaid(id, repay);
    RepayingNews(s, signers, id, repay, paid, less, LoanManager.FullRepay(s, signers, id).value.ledger, e);
  }

  lemma AddCollateralNews(s: LendingState, signers: Signers, id: nat, amount: i128) returns (e: Event)
    requires LoanManager.AddCollateral(s, signers, id, amount).Ok?
    ensures News(s.ledger, LoanManager.AddCollateral(s, signers, id, amount).value.ledger, e) && !ChangesOffer(e)
  {
    var locked, grown := AddCollateralShape(s, signers, id, amount);
    e := CollateralAdded(id, amount);
    TwoEvents(s.ledger, locked, LoanManager.AddCollateral(s, signers, id, amount).value.ledger,
              CollateralLocked(id, grown.borrower, grown.collateralAsset, amount), e);
  }

  lemma StatusNews(s: LendingState, signers: Signers, call: Call) returns (e: Event)
    requires call.RefreshLoanState? || call.MarkExpired? || call.MarkDefaulted?
    requires ExecuteLending(s, signers, call).Ok?
    ensures News(s.ledger, ExecuteLending(s, signers, call).value.ledger, e) && !ChangesOffer(e)
  {
    var log := ExecuteLending(s, signers, call).value.ledger.log;
    e := log[|log| - 1];
    OneEvent(s.ledger, ExecuteLending(s, signers, call).value.ledger, e);
  }

  lemma RepayingNews(
    s: LendingState, signers: Signers, id: nat, repay: int, paid: LedgerState, less: Loan, t: LedgerState, e: Event)
    requires id in s.loans && Repaying(s, signers, id, repay, paid, less)
    requires t.log == paid.log + [e]
             || (ReleaseAllCollateral(paid, less).Ok? && t.log == ReleaseAllCollateral(paid, less).value.ledger.log + [e])
    ensures News(s.ledger, t, e)
  {
    var sent := RepaymentTransferred(id, less.borrower, less.lender, less.loanAsset, repay);
    if t.log == paid.log + [e] {
      TwoEvents(s.ledger, paid, t, sent, e);
    } else if less.collateralAmount != 0 {
      ThreeEvents(s.ledger, paid, ReleaseAllCollateral(paid, less).value.ledger, t, sent,
                  CollateralReleased(less.loanId, less.borrower, less.collateralAsset, less.collateralAmount), e);
    }
  }

  lemma LiquidateNews(s: LendingState, signers: Signers, id: nat, liquidator: Address, amount: i128) returns (e: Event)
    requires LoanManager.Liquidate(s, signers, id, liquidator, amount).Ok?
    requires id in s.loans ==> LoanOk(s, id)
    ensures News(s.ledger, LoanManager.Liquidate(s, signers, id, liquidator, amount).value.ledger, e)
    ensures !ChangesOffer(e)
  {
    LiquidateTouchesMutable(s, signers, id, liquidator, amount);
    var loan := s.loans[id];
    var q, taken, less := LiquidateShape(s, signers, id, liquidator, amount);
    var paid := Vault.CollectRepaymentFrom(
                  s.ledger, signers, id, liquidator, loan.lender, loan.loanAsset, q.repay).value;
    e := LoanLiquidated(id, liquidator, q.repay);
    ThreeEvents(s.ledger, paid, taken, LoanManager.Liquidate(s, signers, id, liquidator, amount).value.ledger,
                RepaymentTransferred(id, liquidator, loan.lender, loan.loanAsset, q.repay),
                CollateralToLiquidator(id, liquidator, loan.collateralAsset, q.seized), e);
  }

  // The mirror

  /** The row of an offer says what the offer says, as long as the offer is stored. */
  predicate Mirrors(w: World, rows: Rows, id: nat) {
    && id in rows && id <= w.offerCount
    && (id in w.offers ==>
          rows[id].status == w.offers[id].status && rows[id].fixedAprBps == w.offers[id].fixedAprBps)
  }

  /** What is new in the log after a step or a run. */
  function NewEvents(w: World, v: World): seq<Event> {
    if |w.lending.ledger.log| <= |v.lending.ledger.log| then v.lending.ledger.log[|w.lending.ledger.log|..] else []
  }

  lemma MirrorAfter(w: World, v: World, rows: Rows, id: nat, e: Event)
    requires Mirrors(w, rows, id) && v.offerCount >= w.offerCount
    requires News(w.lending.ledger, v.lending.ledger, e)
    requires id in v.offers ==> Mirrors(v, Project(rows, e), id)
    ensures Mirrors(v, Replay(rows, NewEvents(w, v)), id)
  {
    NewsReplay(rows, w.lending.ledger, v.lending.ledger, e);
  }

  lemma LoanCallMirrors(w: World, tx: Tx, rows: Rows, id: nat)
    requires Inv(w) && Mirrors(w, rows, id) && ChangesLoan(tx.call) && Execute(w, tx).Ok?
    ensures Mirrors(Step(w, tx), Replay(rows, NewEvents(w, Step(w, tx))), id)
  {
    if LoanOf(tx.call) in w.lending.loans {
      LoanIsOk(w, LoanOf(tx.call));
    }
    var e := LoanCallNews(w.lending, tx.signers, tx.call);
    MirrorAfter(w, Step(w, tx), rows, id, e);
  }

  lemma SettleNews(s: LedgerState, offer: LoanOffer, unlocked: LedgerState, t: LedgerState, e: Event)
    requires UnlockOfferIfNeeded(s, offer) == Ok(unlocked) && t.log == unlocked.log + [e]
    ensures News(s, t, e)
  {
    if unlocked.log == s.log {
      OneEvent(s, t, e);
    } else {
      var locked := OfferLocked(s, offer.offerId);
      TwoEvents(s, unlocked, t, LenderFundsUnlocked(offer.offerId, offer.lender, offer.loanAsset, locked), e);
    }
  }

  lemma FundMirrors(w: World, tx: Tx, rows: Rows, id: nat)
    requires Mirrors(w, rows, id) && tx.call.FundOffer? && Execute(w, tx).Ok?
    ensures Mirrors(Step(w, tx), Replay(rows, NewEvents(w, Step(w, tx))), id)
  {
    var v, s, o := Step(w, tx), w.lending.ledger, tx.call.offer;
    var offer := w.offers[o];
    var locked := Vault.LockLenderFunds(s, tx.signers, o, offer.lender, offer.loanAsset, offer.loanAmount).value;
    TwoEvents(s, locked, v.lending.ledger, LenderFundsLocked(o, offer.lender, offer.loanAsset, offer.loanAmount),
              OfferFunded(o, offer.loanAmount));
    MirrorAfter(w, v, rows, id, OfferFunded(o, offer.loanAmount));
  }

  lemma CancelMirrors(w: World, tx: Tx, rows: Rows, id: nat)
    requires Mirrors(w, rows, id) && tx.call.CancelOffer? && Execute(w, tx).Ok?
    ensures Mirrors(Step(w, tx), Replay(rows, NewEvents(w, Step(w, tx))), id)
  {
    var offer := w.offers[tx.call.offer];
    var e := OfferCancelled(tx.call.offer, offer.loanAmount);
    SettleNews(w.lending.ledger, offer, UnlockOfferIfNeeded(w.lending.ledger, offer).value,
               Step(w, tx).lending.ledger, e);
    MirrorAfter(w, Step(w, tx), rows, id, e);
  }

  lemma ExpireMirrors(w: World, tx: Tx, rows: Rows, id: nat)
    requires Mirrors(w, rows, id) && tx.call.ExpireOffer? && Execute(w, tx).Ok?
    ensures Mirrors(Step(w, tx), Replay(rows, NewEvents(w, Step(w, tx))), id)
  {
    var offer := w.offers[tx.call.offer];
    var e := OfferExpired(tx.call.offer, offer.loanAmount);
    SettleNews(w.lending.ledger, offer, UnlockOfferIfNeeded(w.lending.ledger, offer).value,
               Step(w, tx).lending.ledger, e);
    MirrorAfter(w, Step(w, tx), rows, id, e);
  }

  lemma AcceptMirrors(w: World, tx: Tx, rows: Rows, id: nat)
    requires Inv(w) && Mirrors(w, rows, id) && tx.call.AcceptOffer? && Execute(w, tx).Ok?
    ensures Mirrors(Step(w, tx), Replay(rows, NewEvents(w, Step(w, tx))), id)
  {
    var v, s, o := Step(w, tx), w.lending, tx.call.offer;
    assert OfferOk(w, o);
    var created := CreatePendingLoanFromOffer(s, w.offers[o], tx.call.borrower, tx.call.collateral).value;
    var debt := created.state.loans[created.loanId].outstandingDebt;
    var e := Event.OfferMatched(o, tx.call.borrower, created.loanId);
    TwoEvents(s.ledger, created.state.ledger, v.lending.ledger,
              LoanCreated(created.loanId, tx.call.borrower, debt), e);
    MirrorAfter(w, v, rows, id, e);
  }

  lemma QuietOfferMirrors(w: World, tx: Tx, rows: Rows, id: nat)
    requires Mirrors(w, rows, id) && Execute(w, tx).Ok?
    requires tx.call.CreateOffer? || tx.call.ActivateOffer? || tx.call.CleanupOffer?
    ensures Mirrors(Step(w, tx), Replay(rows, NewEvents(w, Step(w, tx))), id)
  {
    var v := Step(w, tx);
    var log := v.lending.ledger.log;
    OneEvent(w.lending.ledger, v.lending.ledger, log[|log| - 1]);
    MirrorAfter(w, v, rows, id, log[|log| - 1]);
  }

  lemma OutsideMirrors(w: World, tx: Tx, rows: Rows, id: nat)
    requires Mirrors(w, rows, id) && Execute(w, tx).Ok?
    requires tx.call.CleanupLoan? || tx.call.SetPrice? || tx.call.Withdraw? || tx.call.TransferTokens?
    ensures Mirrors(Step(w, tx), Replay(rows, NewEvents(w, Step(w, tx))), id)
  {
    var v := Step(w, tx);
    var log := v.lending.ledger.log;
    OneEvent(w.lending.ledger, v.lending.ledger, log[|log| - 1]);
    MirrorAfter(w, v, rows, id, log[|log| - 1]);
  }

  lemma StepMirrors(w: World, tx: Tx, rows: Rows, id: nat)
    requires Inv(w) && Mirrors(w, rows, id)
    ensures Mirrors(Step(w, tx), Replay(rows, NewEvents(w, Step(w, tx))), id)
  {
    if Execute(w, tx).Ok? && !tx.call.Tick? {
      if ChangesLoan(tx.call) {
        LoanCallMirrors(w, tx, rows, id);
      } else if tx.call.AcceptOffer? {
        AcceptMirrors(w, tx, rows, id);
      } else if tx.call.FundOffer? {
        FundMirrors(w, tx, rows, id);
      } else if tx.call.CancelOffer? {
        CancelMirrors(w, tx, rows, id);
      } else if tx.call.ExpireOffer? {
        ExpireMirrors(w, tx, rows, id);
      } else if tx.call.CreateOffer? || tx.call.ActivateOffer? || tx.call.CleanupOffer? {
        QuietOfferMirrors(w, tx, rows, id);
      } else {
        OutsideMirrors(w, tx, rows, id);
      }
    } else {
      assert NewEvents(w, Step(w, tx)) == [];
    }
  }

  lemma {:induction false} RunMirrors(w: World, txs: seq<Tx>, rows: Rows, id: nat)
    requires Inv(w) && Mirrors(w, rows, id)
    ensures Mirrors(Run(w, txs), Replay(rows, NewEvents(w, Run(w, txs))), id)
    decreases |txs|
  {
    var v := Run(w, txs);
    if txs == [] {
      assert NewEvents(w, v) == [];
    } else {
      var next := Step(w, txs[0]);
      StepMirrors(w, txs[0], rows, id);
      StepKeepsInvariant(w, txs[0]);
      RunMirrors(next, txs[1..], Replay(rows, NewEvents(w, next)), id);
      StepEvolves(w, txs[0]);
      RunEvolves(next, txs[1..]);
      ReplayInTwo(w, next, v, rows);
    }
  }

  /** The events of a run are those of its first step and of the rest. */
  lemma ReplayInTwo(w: World, next: World, v: World, rows: Rows)
    requires w.lending.ledger.log <= next.lending.ledger.log <= v.lending.ledger.log
    ensures Replay(rows, NewEvents(w, v)) == Replay(Replay(rows, NewEvents(w, next)), NewEvents(next, v))
  {
    assert NewEvents(w, v) == NewEvents(w, next) + NewEvents(next, v);
    ReplayAppend(rows, NewEvents(w, next), NewEvents(next, v));
  }

  // Delivery

  function SyncAll(db: Index, stream: seq<NormalizedEvent>, order: seq<nat>): Index
    requires forall i | 0 <= i < |order| :: order[i] < |stream|
  {
    if order == [] then db
    else
      var last := |order| - 1;
      Sync(SyncAll(db, stream, order[..last]), stream[order[last]])
  }

  /** How far a delivery has got, when each event is either the next one or one that was seen before. */
  function Reached(order: seq<nat>): nat {
    if order == [] then 0
    else
      var before := Reached(order[..|order| - 1]);
      if order[|order| - 1] == before then before + 1 else before
  }

  predicate InOrder(order: seq<nat>) {
    forall i | 0 <= i < |order| :: order[i] <= Reached(order[..i])
  }

  /** Every event has its own name, and none was indexed before. */
  ghost predicate NewNames(db: Index, stream: seq<NormalizedEvent>) {
    && (forall i, j | 0 <= i < j < |stream| :: IdOf(stream[i]) != IdOf(stream[j]))
    && (forall i | 0 <= i < |stream| :: IdOf(stream[i]) !in db.indexed)
  }

  function Events(stream: seq<NormalizedEvent>): seq<Event> {
    seq(|stream|, i requires 0 <= i < |stream| => stream[i].event)
  }

  lemma {:induction false} DeliveryIsReplay(db: Index, stream: seq<NormalizedEvent>, order: seq<nat>)
    requires NewNames(db, stream) && InOrder(order)
    requires forall i | 0 <= i < |order| :: order[i] < |stream|
    ensures Reached(order) <= |stream|
    ensures SyncAll(db, stream, order).rows == Replay(db.rows, Events(stream)[..Reached(order)])
    ensures forall i | 0 <= i < |stream| :: IdOf(stream[i]) in SyncAll(db, stream, order).indexed <==> i < Reached(order)
    decreases |order|
  {
    if order != [] {
      var last := |order| - 1;
      var before := order[..last];
      assert forall i | 0 <= i < last :: before[..i] == order[..i];
      DeliveryIsReplay(db, stream, before);
      DeliveredNext(SyncAll(db, stream, before), db, stream, Reached(before), order[last]);
    }
  }

  /** The rows of a delivery that has got so far, and the names it has seen. */
  ghost predicate Delivered(now: Index, db: Index, stream: seq<NormalizedEvent>, n: nat) {
    && n <= |stream|
    && now.rows == Replay(db.rows, Events(stream)[..n])
    && forall i | 0 <= i < |stream| :: IdOf(stream[i]) in now.indexed <==> i < n
  }

  /** One more event, the next one or one that was seen before. */
  lemma DeliveredNext(now: Index, db: Index, stream: seq<NormalizedEvent>, n: nat, k: nat)
    requires NewNames(db, stream) && Delivered(now, db, stream, n) && k <= n && k < |stream|
    ensures Delivered(Sync(now, stream[k]), db, stream, if k == n then n + 1 else n)
  {
    if k == n {
      assert Events(stream)[..n + 1][..n] == Events(stream)[..n];
      UntypedIsQuiet(now.rows, stream[k].event);
    }
  }

  lemma UntypedIsQuiet(rows: Rows, e: Event)
    ensures !HasType(e) ==> Project(rows, e) == rows
  {
  }

  /**
   * The index mirrors the contract: take any reachable state in which an offer's row says what
   * the offer says (as a Draft row does for a new offer), and any run of the protocol from there.
   * Once the run's events have been delivered in order, with any repetition of events that were
   * already seen, the row again has the status of the offer, if that is still stored.
   */
  lemma {:induction false} IndexMirrorsContract(w: World, txs: seq<Tx>, db: Index, stream: seq<NormalizedEvent>, order: seq<nat>, id: nat)
    requires Reachable(w) && Mirrors(w, db.rows, id)
    requires Events(stream) == NewEvents(w, Run(w, txs)) && NewNames(db, stream)
    requires forall i | 0 <= i < |order| :: order[i] < |stream|
    requires InOrder(order) && Reached(order) == |stream|
    ensures Mirrors(Run(w, txs), SyncAll(db, stream, order).rows, id)
  {
    ReachableInvariant(w);
    RunMirrors(w, txs, db.rows, id);
    DeliveryIsReplay(db, stream, order);
    assert Events(stream)[..|stream|] == Events(stream);
  }
}
