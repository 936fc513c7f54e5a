/** Every action of the settlement machine keeps its invariant. */
module SettlementPreservation {
  import opened Options
  import opened Tables
  import opened SettlementSteps
  import opened SettlementMachine
  import opened SettlementInvariant

  // ---- one statement of one transaction ----

  lemma TotalSnoc(q: Query, rows: seq<LedgerRow>, r: LedgerRow)
    ensures Total(q, rows + [r]) == Total(q, rows) + Weight(q, r)
  {
    assert (rows + [r])[..|rows|] == rows;
  }

  /** Staging one more row together with the balance it leads to keeps the staged rows sound. */
  lemma StageRow(db: Db, w: Writes, r: LedgerRow, w': Writes)
    requires StagedOk(db, w)
    requires r.balanceBefore == View(db, w).Balance(r.userId)
    requires w' == w.(wallets := w.wallets[r.userId := r.balanceAfter], ledger := w.ledger + [r])
    requires RowOk(View(db, w'), r)
    ensures StagedOk(db, w')
  {
    forall u: nat ensures StagedWalletOk(db, w', u) {
      assert StagedWalletOk(db, w, u);
      TotalSnoc(NetOf(u), w.ledger, r);
    }
    forall x <- w'.ledger ensures RowOk(View(db, w'), x) {
      if x != r {
        RowStays(View(db, w), View(db, w'), x);
      }
    }
  }

  /** Locking a wallet without changing it. */
  lemma StageLock(db: Db, w: Writes, u: nat, w': Writes)
    requires StagedOk(db, w)
    requires w' == w.(wallets := w.wallets[u := View(db, w).Balance(u)])
    ensures StagedOk(db, w')
  {
    forall x: nat ensures StagedWalletOk(db, w', x) {
      assert StagedWalletOk(db, w, x);
    }
    forall x <- w'.ledger ensures RowOk(View(db, w'), x) {
      RowStays(View(db, w), View(db, w'), x);
    }
  }

  /** Staged payment and order rows may change as long as every row keeps its identity. */
  lemma StageRows(db: Db, w: Writes, w': Writes)
    requires StagedOk(db, w) && w'.wallets == w.wallets && w'.ledger == w.ledger
    requires forall o <- w'.orders ::
      o in db.orders && db.orders[o].status.Pending? && w'.orders[o].SameInvoice(db.orders[o])
    requires forall p <- w'.payments :: p in db.payments ==> w'.payments[p].SameInvoice(db.payments[p])
    requires forall p <- w'.payments :: w'.payments[p].orderId.Some? ==> w'.payments[p].orderId.value in db.orders
    requires forall o <- w.orders :: o in w'.orders
    requires forall p <- w.payments :: p in w'.payments && w'.payments[p].SameInvoice(w.payments[p])
    ensures StagedOk(db, w')
  {
    forall u: nat ensures StagedWalletOk(db, w', u) {
      assert StagedWalletOk(db, w, u);
    }
    var v, v' := View(db, w), View(db, w');
    forall x <- w'.ledger ensures RowOk(v', x) {
      RowStays(v, v', x);
    }
  }

  /** Changing the status of a payment row. */
  lemma StagePayment(db: Db, w: Writes, p: nat, status: PaymentStatus, w': Writes)
    requires StagedOk(db, w) && p in View(db, w).payments
    requires View(db, w).payments[p].orderId.Some? ==> View(db, w).payments[p].orderId.value in db.orders
    requires w' == w.(payments := w.payments[p := View(db, w).payments[p].(status := status)])
    ensures StagedOk(db, w')
    ensures View(db, w').payments[p].SameInvoice(View(db, w).payments[p])
  {
    StageRows(db, w, w');
  }

  /** Changing a pending order. */
  lemma StageOrder(db: Db, w: Writes, o: nat, order: Order, w': Writes)
    requires StagedOk(db, w)
    requires o in db.orders && db.orders[o].status.Pending? && order.SameInvoice(db.orders[o])
    requires w' == w.(orders := w.orders[o := order], provisions := w'.provisions)
    ensures StagedOk(db, w')
  {
    StageRows(db, w, w');
  }

  lemma StartKeeps(db: Db, t: Tx, c: Choice)
    requires DbOk(db) && TxOk(db, t) && t.pc.Start? && c.newPayment !in db.payments && Exec(db, t, c).Go?
    ensures TxOk(db, Exec(db, t, c).tx)
  {
    if t.request.PayFromWallet? {
      assert View(db, t.w).orders == db.orders;
      StageRows(db, t.w, Exec(db, t, c).tx.w);
    }
  }

  lemma ReceiptKeeps(db: Db, t: Tx, c: Choice)
    requires DbOk(db) && TxOk(db, t) && (t.pc.ClaimReceipt? || t.pc.RejectPayment?) && Exec(db, t, c).Go?
    ensures TxOk(db, Exec(db, t, c).tx)
  {
    var t' := Exec(db, t, c).tx;
    if t.pc.RejectPayment? {
      assert PaymentOk(db, t.pc.p);
      StagePayment(db, t.w, t.pc.p, PaymentStatus.Rejected, t'.w);
    } else {
      forall u: nat ensures StagedWalletOk(db, t'.w, u) {
        assert StagedWalletOk(db, t.w, u);
      }
    }
  }

  lemma DebitKeeps(db: Db, t: Tx, c: Choice)
    requires DbOk(db) && TxOk(db, t) && t.pc.Debit? && Exec(db, t, c).Go?
    ensures TxOk(db, Exec(db, t, c).tx)
  {
    var p := t.pc.p;
    var v, t' := View(db, t.w), Exec(db, t, c).tx;
    assert PaymentOk(db, p);
    assert v.ledger == db.ledger;
    assert v.payments[p] == t.w.payments[p];
    StageRow(db, t.w, t'.w.ledger[0], t'.w);
  }

  lemma ClaimPaymentKeeps(db: Db, t: Tx, c: Choice)
    requires DbOk(db) && TxOk(db, t) && (t.pc.ReadPayment? || t.pc.ClaimPayment?) && Exec(db, t, c).Go?
    ensures TxOk(db, Exec(db, t, c).tx)
  {
    var p := t.pc.p;
    var v, t' := View(db, t.w), Exec(db, t, c).tx;
    assert PaymentOk(db, p);
    if t.pc.ClaimPayment? && v.payments[p].status.Open() {
      StagePayment(db, t.w, p, Confirmed, t'.w);
    }
  }

  lemma ReadOrderKeeps(db: Db, t: Tx, c: Choice)
    requires DbOk(db) && TxOk(db, t) && t.pc.ReadOrder? && Exec(db, t, c).Go?
    ensures TxOk(db, Exec(db, t, c).tx)
  {
    assert OrderOk(db, View(db, t.w).payments[t.pc.p].orderId.value);
  }

  lemma ClaimOrderKeeps(db: Db, t: Tx, c: Choice)
    requires DbOk(db) && TxOk(db, t) && t.pc.ClaimOrder? && Exec(db, t, c).Go?
    ensures TxOk(db, Exec(db, t, c).tx)
  {
    var v, t' := View(db, t.w), Exec(db, t, c).tx;
    var o := v.payments[t.pc.p].orderId.value;
    if v.orders[o].status.Pending? {
      StageOrder(db, t.w, o, v.orders[o].(status := Completed), t'.w);
      assert Claimed(db, t', t.pc.p, o, false, false);
    } else {
      assert OrderOk(db, o);
    }
  }

  lemma ProvisionKeeps(db: Db, t: Tx, c: Choice)
    requires DbOk(db) && TxOk(db, t) && t.pc.Provision? && Exec(db, t, c).Go?
    ensures TxOk(db, Exec(db, t, c).tx)
  {
    var t' := Exec(db, t, c).tx;
    var o := View(db, t.w).payments[t.pc.p].orderId.value;
    StageOrder(db, t.w, o, t'.w.orders[o], t'.w);
  }

  lemma CommissionBound(total: int, s: Settings, earned: int)
    requires Commission(total, s, earned) > 0
    ensures 0 < s.commissionPercent <= 100
    ensures Commission(total, s, earned) <= total * s.commissionPercent / 100
    ensures s.maxBonus > 0 ==> earned + Commission(total, s, earned) <= s.maxBonus
  {
  }

  lemma ReadEarnedKeeps(db: Db, t: Tx, c: Choice)
    requires DbOk(db) && TxOk(db, t) && t.pc.ReadEarned? && Exec(db, t, c).Go?
    ensures TxOk(db, Exec(db, t, c).tx)
  {
    var v, t' := View(db, t.w), Exec(db, t, c).tx;
    if t'.pc.Credit? {
      CommissionBound(v.orders[v.payments[t.pc.p].orderId.value].total, v.settings, t'.pc.terms.earned);
    }
  }

  lemma CreditKeeps(db: Db, t: Tx, c: Choice)
    requires DbOk(db) && TxOk(db, t) && t.pc.Credit? && Exec(db, t, c).Go?
    ensures TxOk(db, Exec(db, t, c).tx)
  {
    var v, t' := View(db, t.w), Exec(db, t, c).tx;
    var o := v.payments[t.pc.p].orderId.value;
    StageRow(db, t.w, t'.w.ledger[|t.w.ledger|], t'.w);
    assert Claimed(db, t', t.pc.p, o, true, true);
  }

  lemma ReadTopUpKeeps(db: Db, t: Tx, c: Choice)
    requires DbOk(db) && TxOk(db, t) && t.pc.ReadTopUp? && Exec(db, t, c).Go?
    ensures TxOk(db, Exec(db, t, c).tx)
  {
    assert PaymentOk(db, t.pc.p);
    CountNonNegative(KeyedBy(t.pc.p), db.ledger);
    assert View(db, t.w).ledger == db.ledger;
  }

  lemma RepeatedTopUpKeeps(db: Db, t: Tx, c: Choice)
    requires DbOk(db) && TxOk(db, t) && t.pc.TopUp? && t.pc.existing && Exec(db, t, c).Go?
    ensures TxOk(db, Exec(db, t, c).tx)
  {
    var v, t' := View(db, t.w), Exec(db, t, c).tx;
    assert v.ledger == db.ledger;
    StageLock(db, t.w, v.payments[t.pc.p].userId, t'.w);
  }

  lemma TopUpKeeps(db: Db, t: Tx, c: Choice)
    requires DbOk(db) && TxOk(db, t) && t.pc.TopUp? && !t.pc.existing && Exec(db, t, c).Go?
    ensures TxOk(db, Exec(db, t, c).tx)
  {
    var t' := Exec(db, t, c).tx;
    assert View(db, t.w).ledger == db.ledger;
    StageRow(db, t.w, t'.w.ledger[0], t'.w);
  }

  lemma StepKeepsTx(db: Db, t: Tx, c: Choice)
    requires DbOk(db) && TxOk(db, t) && Exec(db, t, c).Go?
    requires t.pc.Start? ==> c.newPayment !in db.payments
    ensures TxOk(db, Exec(db, t, c).tx)
  {
    match t.pc
    case Start => StartKeeps(db, t, c);
    case ClaimReceipt(_) => ReceiptKeeps(db, t, c);
    case RejectPayment(_) => ReceiptKeeps(db, t, c);
    case Debit(_) => DebitKeeps(db, t, c);
    case ReadPayment(_) => ClaimPaymentKeeps(db, t, c);
    case ClaimPayment(_) => ClaimPaymentKeeps(db, t, c);
    case ReadOrder(_) => ReadOrderKeeps(db, t, c);
    case ClaimOrder(_) => ClaimOrderKeeps(db, t, c);
    case Provision(_) => ProvisionKeeps(db, t, c);
    case ReadEarned(_) => ReadEarnedKeeps(db, t, c);
    case Credit(_, _, _, _) => CreditKeeps(db, t, c);
    case ReadTopUp(_) => ReadTopUpKeeps(db, t, c);
    case TopUp(_, existing) => if existing { RepeatedTopUpKeeps(db, t, c); } else { TopUpKeeps(db, t, c); }
    case Done(_, _) =>
    case Declined =>
  }

  // ---- commit ----

  /** The order that a finished transaction completes, and the payment it charges. */
  function CompletedOrder(t: Tx, v: Db): Option<nat> {
    if t.pc.Done? && t.pc.settled && t.pc.p in v.payments then v.payments[t.pc.p].orderId else None
  }

  function ChargedPayment(t: Tx, v: Db): Option<nat> {
    if t.pc.Done? && t.pc.settled && t.pc.p in v.payments
       && (v.payments[t.pc.p].orderId.None? || t.request.PayFromWallet?) then Some(t.pc.p) else None
  }

  /** What a finished transaction adds to every count. */
  ghost predicate Adds(t: Tx, v: Db) {
    && (t.pc.Done? ==> t.pc.p in v.payments)
    && (forall k: nat :: Total(KeyedBy(k), t.w.ledger) == if ChargedPayment(t, v) == Some(k) then 1 else 0)
    && (forall k: nat :: 0 <= Total(CommissionsFor(k), t.w.ledger) <= if CompletedOrder(t, v) == Some(k) then 1 else 0)
    && (forall k: nat :: 0 <= Total(PurchasesFor(k), t.w.ledger) <= if CompletedOrder(t, v) == Some(k) then 1 else 0)
    && (forall k: nat :: multiset(t.w.provisions)[k] == if CompletedOrder(t, v) == Some(k) then 1 else 0)
    && (forall k <- t.w.orders :: CompletedOrder(t, v) == Some(k) && t.w.orders[k].status.Completed?)
    && (CompletedOrder(t, v).Some? ==> CompletedOrder(t, v).value in t.w.orders)
    && (ChargedPayment(t, v).Some? ==> ChargedPayment(t, v).value in t.w.payments)
  }

  lemma TotalUpToTwo(q: Query, rows: seq<LedgerRow>)
    requires |rows| <= 2
    ensures Total(q, rows) ==
      (if |rows| > 0 then Weight(q, rows[0]) else 0) + (if |rows| > 1 then Weight(q, rows[1]) else 0)
  {
    if |rows| == 1 {
      assert rows[..0] == [];
    } else if |rows| == 2 {
      assert rows[..1][..0] == [];
    }
  }

  lemma SettledPurchaseAdds(db: Db, t: Tx, o: nat, rewarded: bool)
    requires t.pc.Done? && t.pc.settled && Claimed(db, t, t.pc.p, o, true, rewarded)
    ensures Adds(t, View(db, t.w))
  {
    forall q: Query ensures Total(q, t.w.ledger) ==
      (if |t.w.ledger| > 0 then Weight(q, t.w.ledger[0]) else 0) +
      (if |t.w.ledger| > 1 then Weight(q, t.w.ledger[1]) else 0)
    {
      TotalUpToTwo(q, t.w.ledger);
    }
  }

  lemma SettledTopUpAdds(db: Db, t: Tx)
    requires t.pc.Done? && t.pc.settled && ToppedUp(db, t, t.pc.p, true)
    ensures Adds(t, View(db, t.w))
  {
    forall q: Query ensures Total(q, t.w.ledger) == Weight(q, t.w.ledger[0]) {
      TotalUpToTwo(q, t.w.ledger);
    }
  }

  lemma FinishedAdds(db: Db, t: Tx)
    requires StageOk(db, t) && Finished(t)
    ensures Adds(t, View(db, t.w))
  {
    if t.pc.Done? && t.pc.settled {
      match View(db, t.w).payments[t.pc.p].orderId
      case Some(o) => SettledPurchaseAdds(db, t, o, Claimed(db, t, t.pc.p, o, true, true));
      case None => SettledTopUpAdds(db, t);
    }
  }

  lemma MergeCounts(db: Db, t: Tx, k: nat)
    requires Finished(t)
    ensures var db' := Merge(db, t);
            && (forall q: Query :: db'.Sum(q) == db.Sum(q) + Total(q, t.w.ledger))
            && db'.Provisions(k) == db.Provisions(k) + multiset(t.w.provisions)[k]
            && (Reported(SettledOrder(k), db'.reports) == Reported(SettledOrder(k), db.reports) +
                  if CompletedOrder(t, View(db, t.w)) == Some(k) then 1 else 0)
            && (Reported(ChargedBy(k), db'.reports) == Reported(ChargedBy(k), db.reports) +
                  if ChargedPayment(t, View(db, t.w)) == Some(k) then 1 else 0)
  {
    MergeReports(db, t, k);
    forall q: Query ensures Merge(db, t).Sum(q) == db.Sum(q) + Total(q, t.w.ledger) {
      TotalAppend(q, db.ledger, t.w.ledger);
    }
    assert multiset(db.provisions + t.w.provisions) == multiset(db.provisions) + multiset(t.w.provisions);
  }

  lemma MergeReports(db: Db, t: Tx, k: nat)
    requires Finished(t)
    ensures var db' := Merge(db, t);
            && (Reported(SettledOrder(k), db'.reports) == Reported(SettledOrder(k), db.reports) +
                  if CompletedOrder(t, View(db, t.w)) == Some(k) then 1 else 0)
            && (Reported(ChargedBy(k), db'.reports) == Reported(ChargedBy(k), db.reports) +
                  if ChargedPayment(t, View(db, t.w)) == Some(k) then 1 else 0)
  {
    var v := View(db, t.w);
    if t.pc.Done? && t.pc.p in v.payments {
      var report := Report(t.pc.p, v.payments[t.pc.p].orderId, t.request.PayFromWallet?);
      ReportedOneMore(SettledOrder(k), db.reports, report);
      ReportedOneMore(ChargedBy(k), db.reports, report);
    }
  }

  lemma CommitOrder(db: Db, t: Tx, o: nat)
    requires OrderOk(db, o) && StagedOk(db, t.w) && Finished(t) && Adds(t, View(db, t.w))
    ensures OrderOk(Merge(db, t), o)
  {
    MergeCounts(db, t, o);
  }

  /** A confirmed payment of a finished transaction has had its effect once it commits. */
  lemma FinishedEffect(db: Db, t: Tx, p: nat)
    requires TxOk(db, t) && Finished(t) && p in t.w.payments && t.w.payments[p].status.Confirmed?
    ensures t.pc.Done? && p == t.pc.p
    ensures match t.w.payments[p].orderId
            case Some(o) => CompletedOrder(t, View(db, t.w)) == Some(o) || db.Provisions(o) == 1
            case None => ChargedPayment(t, View(db, t.w)) == Some(p) || db.Sum(KeyedBy(p)) == 1
    ensures ChargedPayment(t, View(db, t.w)) == Some(p) && p in db.payments ==> db.payments[p].orderId.None?
  {
  }

  /** A payment is charged by a commit only when it was not charged before. */
  lemma FinishedFresh(db: Db, t: Tx, p: nat)
    requires DbOk(db) && TxOk(db, t) && Finished(t) && ChargedPayment(t, View(db, t.w)) == Some(p)
    ensures db.Sum(KeyedBy(p)) == 0
  {
    assert PaymentOk(db, p);
  }

  lemma CommitPayment(db: Db, t: Tx, p: nat)
    requires DbOk(db) && TxOk(db, t) && Finished(t) && Adds(t, View(db, t.w))
    ensures PaymentOk(Merge(db, t), p)
  {
    assert PaymentOk(db, p);
    MergeCounts(db, t, p);
    if ChargedPayment(t, View(db, t.w)) == Some(p) {
      FinishedFresh(db, t, p);
    }
    if p in t.w.payments && t.w.payments[p].status.Confirmed? {
      FinishedEffect(db, t, p);
    }
    if p in View(db, t.w).payments && View(db, t.w).payments[p].orderId.Some? {
      var o := View(db, t.w).payments[p].orderId.value;
      MergeCounts(db, t, o);
      assert OrderOk(db, o);
      CommitOrder(db, t, o);
    }
  }

  lemma CommitWallet(db: Db, t: Tx, u: nat)
    requires WalletOk(db, u) && StagedOk(db, t.w) && Finished(t)
    ensures WalletOk(Merge(db, t), u)
  {
    assert StagedWalletOk(db, t.w, u);
    TotalAppend(NetOf(u), db.ledger, t.w.ledger);
    MergedWallets(db, t);
  }

  lemma MergedWallets(db: Db, t: Tx)
    requires Finished(t)
    ensures Merge(db, t).wallets == db.wallets + t.w.wallets && Merge(db, t).ledger == db.ledger + t.w.ledger
  {
  }

  lemma CommitKeepsDb(db: Db, t: Tx)
    requires DbOk(db) && TxOk(db, t) && Finished(t)
    ensures DbOk(Merge(db, t))
  {
    var db' := Merge(db, t);
    FinishedAdds(db, t);
    forall o: nat ensures OrderOk(db', o) { CommitOrder(db, t, o); }
    forall p: nat ensures PaymentOk(db', p) { CommitPayment(db, t, p); }
    forall u: nat ensures WalletOk(db', u) { CommitWallet(db, t, u); }
    forall r <- db'.ledger ensures RowOk(db', r) {
      if r in db.ledger {
        RowStays(db, db', r);
      } else {
        RowStays(View(db, t.w), db', r);
      }
    }
  }

  lemma CommitDisturbsNoRow(db: Db, t: Tx, w: Writes)
    requires StagedOk(db, t.w) && Finished(t) && w.DisjointFrom(t.w)
    ensures forall o <- db.orders :: o in Merge(db, t).orders && Merge(db, t).orders[o].SameInvoice(db.orders[o])
    ensures forall p <- db.payments ::
      p in Merge(db, t).payments && Merge(db, t).payments[p].SameInvoice(db.payments[p])
    ensures forall o <- w.orders :: o in db.orders ==> Merge(db, t).orders[o] == db.orders[o]
    ensures forall p <- w.payments :: p in Merge(db, t).payments ==> p in db.payments
    ensures forall u <- w.wallets :: Merge(db, t).Balance(u) == db.Balance(u)
  {
  }

  lemma CommitDisturbsNoOther(db: Db, t: Tx, w: Writes)
    requires StagedOk(db, t.w) && Adds(t, View(db, t.w)) && Finished(t) && w.DisjointFrom(t.w)
    ensures Undisturbed(db, Merge(db, t), w)
  {
    var db' := Merge(db, t);
    CommitDisturbsNoRow(db, t, w);
    forall k: nat ensures db.Provisions(k) <= db'.Provisions(k) {
      MergeCounts(db, t, k);
    }
    forall k: nat ensures db.Sum(KeyedBy(k)) <= db'.Sum(KeyedBy(k)) {
      TotalAppend(KeyedBy(k), db.ledger, t.w.ledger);
    }
    forall k <- w.payments ensures db'.Sum(KeyedBy(k)) == db.Sum(KeyedBy(k)) {
      TotalAppend(KeyedBy(k), db.ledger, t.w.ledger);
    }
  }

  // ---- single-statement updates ----

  /** `db'` differs from `db` in order and payment rows only: rows are added pending, orders may
      be cancelled, and no payment becomes confirmed. */
  ghost predicate RowsFollow(db: Db, db': Db) {
    && db'.wallets == db.wallets && db'.ledger == db.ledger
    && db'.provisions == db.provisions && db'.reports == db.reports
    && (forall o <- db.orders :: o in db'.orders && db'.orders[o].SameInvoice(db.orders[o])
          && (db'.orders[o].status == db.orders[o].status || db'.orders[o].status.Cancelled?))
    && (forall o <- db'.orders :: o !in db.orders ==> db'.orders[o].status.Pending?)
    && (forall p <- db.payments :: p in db'.payments && db'.payments[p].SameInvoice(db.payments[p])
          && (db'.payments[p].status.Confirmed? ==> db.payments[p].status.Confirmed?))
    && (forall p <- db'.payments :: p !in db.payments ==> !db'.payments[p].status.Confirmed?)
    && (forall p <- db'.payments ::
          p !in db.payments && db'.payments[p].orderId.Some? ==> db'.payments[p].orderId.value in db'.orders)
  }

  lemma RowsKeepDb(db: Db, db': Db)
    requires DbOk(db) && RowsFollow(db, db')
    ensures DbOk(db')
  {
    forall o: nat ensures OrderOk(db', o) { assert OrderOk(db, o); }
    forall p: nat ensures PaymentOk(db', p) { assert PaymentOk(db, p); }
    forall u: nat ensures WalletOk(db', u) { assert WalletOk(db, u); }
    forall r <- db'.ledger ensures RowOk(db', r) { RowStays(db, db', r); }
  }

  lemma RowsDisturbNone(db: Db, db': Db, w: Writes)
    requires RowsFollow(db, db')
    requires forall o <- w.orders :: o in db.orders ==> db'.orders[o] == db.orders[o]
    requires forall p <- w.payments :: p in db'.payments ==> p in db.payments
    ensures Undisturbed(db, db', w)
  {
  }

  lemma AdjustKeepsDb(db: Db, u: nat, kind: TxnKind, amount: int, credit: bool)
    requires DbOk(db) && (kind.Bonus? || kind.Refund?)
    ensures DbOk(Adjusted(db, u, kind, amount, credit))
    ensures forall k: nat :: Adjusted(db, u, kind, amount, credit).Sum(KeyedBy(k)) == db.Sum(KeyedBy(k))
  {
    var db' := Adjusted(db, u, kind, amount, credit);
    var r := db'.ledger[|db.ledger|];
    forall q: Query ensures db'.Sum(q) == db.Sum(q) + Weight(q, r) {
      TotalSnoc(q, db.ledger, r);
    }
    forall o: nat ensures OrderOk(db', o) { assert OrderOk(db, o); }
    forall p: nat ensures PaymentOk(db', p) { assert PaymentOk(db, p); }
    forall x: nat ensures WalletOk(db', x) { assert WalletOk(db, x); }
    forall x <- db'.ledger ensures RowOk(db', x) {
      if x in db.ledger { RowStays(db, db', x); }
    }
  }

  // ---- every action ----

  lemma ReplaceTx(db: Db, txs: map<nat, Tx>, tid: nat, t: Tx)
    requires Sound(db, txs) && TxOk(db, t)
    requires forall i <- txs :: i != tid ==> t.w.DisjointFrom(txs[i].w)
    ensures Sound(db, txs[tid := t])
  {
  }

  lemma StepKeeps(s: State, tid: nat, c: Choice)
    requires Inv(s) && Enabled(s, Step(tid, c))
    ensures Inv(Apply(s, Step(tid, c)))
  {
    var out := Exec(s.db, s.txs[tid], c);
    if out.Go? {
      StepKeepsTx(s.db, s.txs[tid], c);
      ReplaceTx(s.db, s.txs, tid, out.tx);
    }
  }

  lemma ReplaceDb(db: Db, txs: map<nat, Tx>, db': Db, txs': map<nat, Tx>)
    requires Sound(db, txs) && DbOk(db')
    requires forall i <- txs' :: i in txs && txs'[i] == txs[i]
    requires forall i <- txs' :: Undisturbed(db, db', txs[i].w)
    ensures Sound(db', txs')
  {
    forall i <- txs' ensures TxOk(db', txs'[i]) {
      TxStays(db, db', txs[i]);
    }
  }

  lemma CommitKeeps(s: State, tid: nat)
    requires Inv(s) && tid in s.txs && Finished(s.txs[tid])
    ensures Sound(Merge(s.db, s.txs[tid]), s.txs - {tid})
  {
    var t := s.txs[tid];
    CommitKeepsDb(s.db, t);
    FinishedAdds(s.db, t);
    forall i <- s.txs | i != tid ensures Undisturbed(s.db, Merge(s.db, t), s.txs[i].w) {
      CommitDisturbsNoOther(s.db, t, s.txs[i].w);
    }
    ReplaceDb(s.db, s.txs, Merge(s.db, t), s.txs - {tid});
  }

  predicate IsUpdate(a: Action) {
    !a.Begin? && !a.Step? && !a.Commit? && !a.Abort? && !a.Adjust?
  }

  lemma OrderUpdateFollows(s: State, a: Action)
    requires (a.CreateOrder? || a.WriteCancel?) && Enabled(s, a)
    ensures Apply(s, a).txs == s.txs && RowsFollow(s.db, Apply(s, a).db)
  {
  }

  lemma PaymentInsertFollows(s: State, a: Action)
    requires (a.Initiate? || a.InitiateDeposit?) && Enabled(s, a)
    ensures Apply(s, a).txs == s.txs && RowsFollow(s.db, Apply(s, a).db)
  {
  }

  lemma StatusFollows(db: Db, p: nat, status: PaymentStatus)
    requires p in db.payments && !status.Confirmed?
    ensures RowsFollow(db, db.(payments := db.payments[p := db.payments[p].(status := status)]))
  {
  }

  lemma PaymentUpdateFollows(s: State, a: Action)
    requires (a.FinishUpload? || a.ClosePayment?) && Enabled(s, a)
    ensures Apply(s, a).txs == s.txs && RowsFollow(s.db, Apply(s, a).db)
  {
    if a.FinishUpload? {
      StatusFollows(s.db, s.uploads[a.call], AwaitingVerify);
    } else {
      StatusFollows(s.db, a.paymentId, a.status);
    }
  }

  lemma UpdateFollows(s: State, a: Action)
    requires IsUpdate(a) && Enabled(s, a)
    ensures Apply(s, a).txs == s.txs && RowsFollow(s.db, Apply(s, a).db)
  {
    if a.CreateOrder? || a.WriteCancel? {
      OrderUpdateFollows(s, a);
    } else if a.Initiate? || a.InitiateDeposit? {
      PaymentInsertFollows(s, a);
    } else if a.FinishUpload? || a.ClosePayment? {
      PaymentUpdateFollows(s, a);
    }
  }

  lemma UpdateSparesLocks(s: State, a: Action, i: nat)
    requires IsUpdate(a) && Enabled(s, a) && i in s.txs
    ensures var db' := Apply(s, a).db;
            && (forall o <- s.txs[i].w.orders ::
                  o in s.db.orders ==> o in db'.orders && db'.orders[o] == s.db.orders[o])
            && forall p <- s.txs[i].w.payments :: p in db'.payments ==> p in s.db.payments
  {
  }

  lemma UpdateKeeps(s: State, a: Action)
    requires Inv(s) && IsUpdate(a) && Enabled(s, a)
    ensures Inv(Apply(s, a))
  {
    UpdateFollows(s, a);
    var db' := Apply(s, a).db;
    RowsKeepDb(s.db, db');
    forall i <- s.txs ensures Undisturbed(s.db, db', s.txs[i].w) {
      UpdateSparesLocks(s, a, i);
      RowsDisturbNone(s.db, db', s.txs[i].w);
    }
    ReplaceDb(s.db, s.txs, db', s.txs);
  }

  lemma AdjustKeeps(s: State, u: nat, kind: TxnKind, amount: int, credit: bool)
    requires Inv(s) && (kind.Bonus? || kind.Refund?) && WalletFree(s, u)
    ensures Sound(Adjusted(s.db, u, kind, amount, credit), s.txs)
  {
    AdjustKeepsDb(s.db, u, kind, amount, credit);
    ReplaceDb(s.db, s.txs, Adjusted(s.db, u, kind, amount, credit), s.txs);
  }

  lemma ApplyKeeps(s: State, a: Action)
    requires Inv(s)
    ensures Inv(Apply(s, a))
  {
    if Enabled(s, a) {
      if a.Begin? {
        ReplaceTx(s.db, s.txs, a.tid, Tx(a.request, Start, NO_WRITES));
      } else if a.Step? {
        StepKeeps(s, a.tid, a.choice);
      } else if a.Commit? {
        CommitKeeps(s, a.tid);
      } else if a.Adjust? {
        AdjustKeeps(s, a.userId, a.kind, a.amount, a.credit);
      } else if IsUpdate(a) {
        UpdateKeeps(s, a);
      }
    }
  }

  lemma {:induction false} RunKeeps(s: State, actions: seq<Action>)
    requires Inv(s)
    ensures Inv(Run(s, actions))
  {
    if actions != [] {
      RunKeeps(s, actions[..|actions| - 1]);
      ApplyKeeps(Run(s, actions[..|actions| - 1]), actions[|actions| - 1]);
    }
  }
}
