/** What every run of the settlement machine guarantees. */
module SettlementTheorems {
  import opened Options
  import opened Tables
  import opened SettlementSteps
  import opened SettlementMachine
  import opened SettlementInvariant
  import opened SettlementPreservation

  lemma Reachable(actions: seq<Action>)
    ensures Inv(Run(INIT, actions))
  {
    assert Inv(INIT) by {
      forall u: nat ensures WalletOk(EMPTY_DB, u) {}
    }
    RunKeeps(INIT, actions);
  }

  // ---- orders ----

  /** Whatever confirmations, approvals, wallet payments, retries, rollbacks and cancellations
      interleave over whatever payments: an order is provisioned at most once, exactly once when
      it is completed and never while it is pending; its settlement is reported exactly as often,
      and it is neither paid from a wallet nor rewarded with a commission more often. */
  lemma OrderSettledAtMostOnce(actions: seq<Action>, o: nat)
    ensures var db := Run(INIT, actions).db;
            && db.Provisions(o) <= 1
            && Reported(SettledOrder(o), db.reports) == db.Provisions(o)
            && 0 <= db.Sum(CommissionsFor(o)) <= db.Provisions(o)
            && 0 <= db.Sum(PurchasesFor(o)) <= db.Provisions(o)
            && (o in db.orders && db.orders[o].status.Completed? ==> db.Provisions(o) == 1)
            && (o !in db.orders || db.orders[o].status.Pending? ==> db.Provisions(o) == 0)
  {
    Reachable(actions);
    var db := Run(INIT, actions).db;
    assert OrderOk(db, o);
    CountNonNegative(CommissionsFor(o), db.ledger);
    CountNonNegative(PurchasesFor(o), db.ledger);
  }

  lemma MergeGrows(db: Db, t: Tx)
    requires Finished(t)
    ensures var db' := Merge(db, t);
            db.ledger <= db'.ledger && db.provisions <= db'.provisions && db.reports <= db'.reports
  {
  }

  lemma ActionGrows(s: State, a: Action)
    ensures var db' := Apply(s, a).db;
            s.db.ledger <= db'.ledger && s.db.provisions <= db'.provisions && s.db.reports <= db'.reports
  {
    if a.Commit? && Enabled(s, a) {
      MergeGrows(s.db, s.txs[a.tid]);
    }
  }

  /** Nothing that settlement has written is ever taken back. */
  lemma {:induction false} HistoryGrows(s: State, actions: seq<Action>)
    ensures var db' := Run(s, actions).db;
            s.db.ledger <= db'.ledger && s.db.provisions <= db'.provisions && s.db.reports <= db'.reports
  {
    if actions != [] {
      HistoryGrows(s, actions[..|actions| - 1]);
      ActionGrows(Run(s, actions[..|actions| - 1]), actions[|actions| - 1]);
    }
  }

  // ---- wallets ----

  lemma {:induction false} CountedReportExists(q: ReportQuery, rows: seq<Report>)
    ensures Reported(q, rows) > 0 <==> exists r <- rows :: ReportWeight(q, r) > 0
  {
    if rows != [] {
      var init, last := rows[..|rows| - 1], rows[|rows| - 1];
      CountedReportExists(q, init);
      assert rows == init + [last];
    }
  }

  /** The balance of every wallet is the signed sum of its ledger rows. */
  lemma BalanceIsSumOfLedger(actions: seq<Action>, u: nat)
    ensures Run(INIT, actions).db.Balance(u) == Run(INIT, actions).db.Sum(NetOf(u))
  {
    Reachable(actions);
    assert WalletOk(Run(INIT, actions).db, u);
  }

  /** No two ledger rows carry the same payment. */
  lemma PaymentKeyIsUnique(actions: seq<Action>, p: nat)
    ensures 0 <= Run(INIT, actions).db.Sum(KeyedBy(p)) <= 1
  {
    Reachable(actions);
    assert PaymentOk(Run(INIT, actions).db, p);
    CountNonNegative(KeyedBy(p), Run(INIT, actions).db.ledger);
  }

  /** A top-up is credited at most once, with its own amount, to its own user; exactly once when
      it is confirmed, and exactly as often as a settlement reports it, however often its payment
      is reopened and approved again. */
  lemma TopUpCreditedOnce(actions: seq<Action>, p: nat)
    requires p in Run(INIT, actions).db.payments && Run(INIT, actions).db.payments[p].orderId.None?
    ensures var db := Run(INIT, actions).db;
            && 0 <= db.Sum(KeyedBy(p)) <= 1
            && (db.payments[p].status.Confirmed? ==> db.Sum(KeyedBy(p)) == 1)
            && (db.Sum(KeyedBy(p)) == 1 <==> exists r <- db.reports :: r.paymentId == p)
            && forall r <- db.ledger :: r.paymentId == Some(p) ==>
                 && r.kind.Deposit? && r.userId == db.payments[p].userId
                 && r.balanceAfter - r.balanceBefore == db.payments[p].amount
  {
    PaymentKeyIsUnique(actions, p);
    Reachable(actions);
    var db := Run(INIT, actions).db;
    assert PaymentOk(db, p);
    ReportsNamePayments(actions);
    CountedReportExists(ChargedBy(p), db.reports);
    if r :| r in db.reports && r.paymentId == p {
      assert ReportWeight(ChargedBy(p), r) > 0;
    }
    forall r <- db.ledger | r.paymentId == Some(p) ensures RowOk(db, r) {}
  }

  /** Every report names a payment and that payment's order. */
  ghost predicate ReportsOk(db: Db) {
    forall r <- db.reports :: r.paymentId in db.payments && db.payments[r.paymentId].orderId == r.orderId
  }

  lemma ReportsStay(db: Db, db': Db)
    requires ReportsOk(db) && db'.reports == db.reports
    requires forall p <- db.payments :: p in db'.payments && db'.payments[p].SameInvoice(db.payments[p])
    ensures ReportsOk(db')
  {
  }

  lemma ReportsCommit(db: Db, t: Tx)
    requires ReportsOk(db) && StagedOk(db, t.w) && Finished(t)
    ensures ReportsOk(Merge(db, t))
  {
    CommitDisturbsNoRow(db, t, NO_WRITES);
    var v, db' := View(db, t.w), Merge(db, t);
    ReportsStay(db, v);
    forall r <- db'.reports ensures r.paymentId in db'.payments && db'.payments[r.paymentId].orderId == r.orderId {
      assert r in db.reports || r.paymentId == t.pc.p;
    }
  }

  lemma {:induction false} ReportsNamePayments(actions: seq<Action>)
    ensures ReportsOk(Run(INIT, actions).db)
  {
    if actions != [] {
      var before, a := actions[..|actions| - 1], actions[|actions| - 1];
      ReportsNamePayments(before);
      Reachable(before);
      ReportsStep(Run(INIT, before), a);
    }
  }

  lemma ReportsStep(s: State, a: Action)
    requires Inv(s) && ReportsOk(s.db)
    ensures ReportsOk(Apply(s, a).db)
  {
    if Enabled(s, a) {
      if a.Commit? {
        ReportsCommit(s.db, s.txs[a.tid]);
      } else if IsUpdate(a) {
        UpdateFollows(s, a);
        ReportsStay(s.db, Apply(s, a).db);
      }
    }
  }

  /** A payment of an order moves money only out of the wallet of the order's owner, by exactly
      the order's total and at most once; and it does so if and only if the transaction that
      paid it from the wallet completed the order. */
  lemma WalletPurchaseIffCompleted(actions: seq<Action>, p: nat)
    requires p in Run(INIT, actions).db.payments && Run(INIT, actions).db.payments[p].orderId.Some?
    ensures var db := Run(INIT, actions).db;
            var o := db.payments[p].orderId.value;
            && o in db.orders
            && (db.Sum(KeyedBy(p)) == 1 <==> exists r <- db.reports :: r.paymentId == p && r.fromWallet)
            && (db.Sum(KeyedBy(p)) == 1 ==> db.Provisions(o) == 1)
            && forall r <- db.ledger :: r.paymentId == Some(p) ==>
                 && r.kind.Purchase? && r.orderId == Some(o) && r.userId == db.orders[o].userId
                 && r.balanceBefore - r.balanceAfter == db.orders[o].total && r.balanceAfter >= 0
  {
    PaymentKeyIsUnique(actions, p);
    Reachable(actions);
    var db := Run(INIT, actions).db;
    var o := db.payments[p].orderId.value;
    assert PaymentOk(db, p) && OrderOk(db, o);
    ReportsNamePayments(actions);
    CountedReportExists(ChargedBy(p), db.reports);
    CountedReportExists(SettledOrder(o), db.reports);
    if r :| r in db.reports && r.paymentId == p && r.fromWallet {
      assert ReportWeight(ChargedBy(p), r) > 0;
    }
    if r :| r in db.reports && ReportWeight(ChargedBy(p), r) > 0 {
      assert ReportWeight(SettledOrder(o), r) > 0;
    }
    forall r <- db.ledger | r.paymentId == Some(p) ensures RowOk(db, r) {}
  }

  lemma WalletFinishes(db: Db, t: Tx, p: nat, settled: bool) returns (rewarded: bool)
    requires DbOk(db) && TxOk(db, t) && t.request.PayFromWallet? && t.pc == Done(p, settled)
    ensures settled && Claimed(db, t, p, t.request.orderId, true, rewarded)
    ensures OrderOk(db, t.request.orderId) && PaymentOk(db, p)
    ensures p !in db.payments && t.request.orderId in db.orders && db.orders[t.request.orderId].status.Pending?
  {
    rewarded := Claimed(db, t, p, t.request.orderId, true, true);
  }

  lemma PurchaseCounts(db: Db, t: Tx, p: nat, o: nat, rewarded: bool)
    requires t.request.PayFromWallet? && t.pc == Done(p, true) && Claimed(db, t, p, o, true, rewarded)
    ensures var db' := Merge(db, t);
            && o in db'.orders && db'.orders[o].status.Completed?
            && db'.Provisions(o) == db.Provisions(o) + 1
            && db'.Sum(PurchasesFor(o)) == db.Sum(PurchasesFor(o)) + 1
            && db'.Sum(KeyedBy(p)) == db.Sum(KeyedBy(p)) + 1
  {
    MergeCounts(db, t, o);
    TotalUpToTwo(PurchasesFor(o), t.w.ledger);
    TotalUpToTwo(KeyedBy(p), t.w.ledger);
  }

  /** From `db` to `db'` a pending order is completed, provisioned once and debited once, by a new
      payment. */
  predicate CompletesFromWallet(db: Db, db': Db, o: nat, p: nat) {
    && p !in db.payments
    && o in db.orders && db.orders[o].status.Pending? && o in db'.orders && db'.orders[o].status.Completed?
    && db.Provisions(o) == 0 && db'.Provisions(o) == 1
    && db.Sum(PurchasesFor(o)) == 0 && db'.Sum(PurchasesFor(o)) == 1
    && db'.Sum(KeyedBy(p)) == 1
  }

  /** A wallet payment that commits has debited the wallet once and has completed an order that
      was pending until then. */
  lemma WalletCommitCompletes(actions: seq<Action>, tid: nat, p: nat, settled: bool)
    requires var s := Run(INIT, actions);
             tid in s.txs && s.txs[tid].request.PayFromWallet? && s.txs[tid].pc == Done(p, settled)
    ensures var s := Run(INIT, actions);
            settled && CompletesFromWallet(s.db, Apply(s, Commit(tid)).db, s.txs[tid].request.orderId, p)
  {
    Reachable(actions);
    CommitCompletes(Run(INIT, actions).db, Run(INIT, actions).txs[tid], p, settled);
  }

  lemma CommitCompletes(db: Db, t: Tx, p: nat, settled: bool)
    requires DbOk(db) && TxOk(db, t) && t.request.PayFromWallet? && t.pc == Done(p, settled)
    ensures settled && CompletesFromWallet(db, Merge(db, t), t.request.orderId, p)
  {
    var rewarded := WalletFinishes(db, t, p, settled);
    CountNonNegative(PurchasesFor(t.request.orderId), db.ledger);
    PurchaseCounts(db, t, p, t.request.orderId, rewarded);
  }

  // ---- cancellation ----

  /** A cancellation that read its order before it was completed and writes it afterwards. */
  predicate Overwrites(s: State, a: Action) {
    a.WriteCancel? && Enabled(s, a) && s.db.orders[s.cancels[a.call]].status.Completed?
  }

  predicate CleanRun(s: State, actions: seq<Action>) {
    forall k | 0 <= k < |actions| :: !Overwrites(Run(s, actions[..k]), actions[k])
  }

  /** Every order that was provisioned is completed. */
  ghost predicate Intact(db: Db) {
    forall o: nat :: db.Provisions(o) > 0 ==> o in db.orders && db.orders[o].status.Completed?
  }

  lemma IntactCommit(db: Db, t: Tx)
    requires DbOk(db) && TxOk(db, t) && Finished(t) && Intact(db)
    ensures Intact(Merge(db, t))
  {
    var db' := Merge(db, t);
    FinishedAdds(db, t);
    forall o: nat | db'.Provisions(o) > 0 ensures o in db'.orders && db'.orders[o].status.Completed? {
      MergeCounts(db, t, o);
    }
  }

  lemma IntactUpdate(s: State, a: Action)
    requires Enabled(s, a) && IsUpdate(a) && Intact(s.db) && !Overwrites(s, a)
    requires forall o: nat :: OrderOk(s.db, o)
    ensures Intact(Apply(s, a).db)
  {
    var db' := Apply(s, a).db;
    assert db'.provisions == s.db.provisions;
    forall o: nat | db'.Provisions(o) > 0 ensures o in db'.orders && db'.orders[o].status.Completed? {
      assert s.db.Provisions(o) > 0;
    }
  }

  /** One action keeps provisioned orders completed if and only if it is not a cancellation that
      overwrites a completed order. */
  lemma IntactStep(s: State, a: Action)
    requires Inv(s) && Intact(s.db)
    ensures Intact(Apply(s, a).db) <==> !Overwrites(s, a)
  {
    if Overwrites(s, a) {
      var o := s.cancels[a.call];
      assert OrderOk(s.db, o);
      assert Apply(s, a).db.Provisions(o) == s.db.Provisions(o) == 1;
    } else if Enabled(s, a) {
      if a.Commit? {
        IntactCommit(s.db, s.txs[a.tid]);
      } else if a.Adjust? {
        assert forall o: nat :: Apply(s, a).db.Provisions(o) == s.db.Provisions(o);
      } else if IsUpdate(a) {
        IntactUpdate(s, a);
      }
    }
  }

  lemma RunPrefix(s: State, actions: seq<Action>, k: nat)
    requires k < |actions|
    ensures Run(s, actions[..k + 1]) == Apply(Run(s, actions[..k]), actions[k])
  {
    assert actions[..k + 1][..k] == actions[..k];
  }

  lemma {:induction false} CleanStaysIntact(actions: seq<Action>, k: nat)
    requires k <= |actions| && CleanRun(INIT, actions)
    ensures Intact(Run(INIT, actions[..k]).db)
  {
    if k > 0 {
      CleanStaysIntact(actions, k - 1);
      RunPrefix(INIT, actions, k - 1);
      Reachable(actions[..k - 1]);
      IntactStep(Run(INIT, actions[..k - 1]), actions[k - 1]);
    }
  }

  /** A run keeps every provisioned order completed throughout, if and only if no cancellation
      writes an order that has been completed since it was read. */
  lemma IntactIffClean(actions: seq<Action>)
    ensures (forall k | 0 <= k <= |actions| :: Intact(Run(INIT, actions[..k]).db)) <==> CleanRun(INIT, actions)
  {
    if CleanRun(INIT, actions) {
      forall k | 0 <= k <= |actions| ensures Intact(Run(INIT, actions[..k]).db) {
        CleanStaysIntact(actions, k);
      }
    } else {
      var k :| 0 <= k < |actions| && Overwrites(Run(INIT, actions[..k]), actions[k]);
      if Intact(Run(INIT, actions[..k]).db) {
        Reachable(actions[..k]);
        IntactStep(Run(INIT, actions[..k]), actions[k]);
        RunPrefix(INIT, actions, k);
        assert !Intact(Run(INIT, actions[..k + 1]).db);
      }
    }
  }

  /** A confirmed payment always has had its effect; and its order is completed, unless a
      cancellation overwrote a completed order. */
  lemma ConfirmedPaymentHasEffect(actions: seq<Action>, p: nat)
    requires var db := Run(INIT, actions).db; p in db.payments && db.payments[p].status.Confirmed?
    ensures var db := Run(INIT, actions).db;
            match db.payments[p].orderId
            case Some(o) => o in db.orders && db.Provisions(o) == 1 &&
                            (CleanRun(INIT, actions) ==> db.orders[o].status.Completed?)
            case None => db.Sum(KeyedBy(p)) == 1
  {
    Reachable(actions);
    assert PaymentOk(Run(INIT, actions).db, p);
    if CleanRun(INIT, actions) {
      CleanStaysIntact(actions, |actions|);
      assert actions[..|actions|] == actions;
    }
  }

  /** Every cancellation writes right after it has read. */
  predicate AtomicCancels(actions: seq<Action>) {
    forall k | 0 <= k < |actions| && actions[k].WriteCancel? ::
      && k > 0 && actions[k - 1].ReadForCancel? && actions[k - 1].call == actions[k].call
      && Enabled(Run(INIT, actions[..k - 1]), actions[k - 1])
  }

  lemma AtomicIsClean(actions: seq<Action>)
    requires AtomicCancels(actions)
    ensures CleanRun(INIT, actions)
  {
    forall k | 0 <= k < |actions| ensures !Overwrites(Run(INIT, actions[..k]), actions[k]) {
      if actions[k].WriteCancel? {
        RunPrefix(INIT, actions, k - 1);
      }
    }
  }

  /** With atomic cancellations, the order of every confirmed payment is completed. */
  lemma ConfirmedMeansCompleted(actions: seq<Action>, p: nat)
    requires AtomicCancels(actions)
    requires var db := Run(INIT, actions).db;
             p in db.payments && db.payments[p].status.Confirmed? && db.payments[p].orderId.Some?
    ensures var db := Run(INIT, actions).db;
            var o := db.payments[p].orderId.value;
            o in db.orders && db.orders[o].status.Completed? && db.Provisions(o) == 1
  {
    AtomicIsClean(actions);
    ConfirmedPaymentHasEffect(actions, p);
  }
}
