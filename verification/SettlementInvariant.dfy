/** The invariant of the interleaved settlement machine, and its preservation by every action. */
module SettlementInvariant {
  import opened Options
  import opened Tables
  import opened SettlementSteps
  import opened SettlementMachine

  // ---- the committed rows ----

  /** An order is provisioned at most once, never before it is claimed, and everything that
      provisioning brings with it happens no more often. */
  ghost predicate OrderOk(db: Db, o: nat) {
    var n := db.Provisions(o);
    && n <= 1
    && (o !in db.orders ==> n == 0)
    && (o in db.orders && db.orders[o].status.Pending? ==> n == 0)
    && (o in db.orders && db.orders[o].status.Completed? ==> n == 1)
    && db.Sum(CommissionsFor(o)) <= n
    && db.Sum(PurchasesFor(o)) <= n
    && Reported(SettledOrder(o), db.reports) == n
  }

  /** A payment moves money at most once, exactly as often as a settlement reports it, and a
      confirmed payment has had its effect. */
  ghost predicate PaymentOk(db: Db, p: nat) {
    var k := db.Sum(KeyedBy(p));
    && k <= 1
    && k == Reported(ChargedBy(p), db.reports)
    && (p !in db.payments ==> k == 0)
    && (p in db.payments ==>
          match db.payments[p].orderId
          case Some(o) => o in db.orders && (db.payments[p].status.Confirmed? ==> db.Provisions(o) == 1)
          case None => db.payments[p].status.Confirmed? ==> k == 1)
  }

  ghost predicate WalletOk(db: Db, u: nat) {
    db.Balance(u) == db.Sum(NetOf(u))
  }

  /** What each kind of ledger row says about the payment or order it names. */
  ghost predicate RowOk(db: Db, r: LedgerRow) {
    match r.kind
    case Deposit =>
      && r.paymentId.Some? && r.paymentId.value in db.payments
      && (var payment := db.payments[r.paymentId.value];
          && payment.orderId.None? && r.userId == payment.userId
          && r.amount == payment.amount == r.balanceAfter - r.balanceBefore)
    case Purchase =>
      && r.paymentId.Some? && r.paymentId.value in db.payments
      && r.orderId.Some? && r.orderId.value in db.orders && db.payments[r.paymentId.value].orderId == r.orderId
      && (var order := db.orders[r.orderId.value];
          && r.userId == order.userId && r.balanceAfter >= 0
          && r.amount == order.total == r.balanceBefore - r.balanceAfter)
    case ReferralReward =>
      && r.paymentId.None? && r.orderId.Some? && r.orderId.value in db.orders
      && r.balanceAfter - r.balanceBefore == r.amount
      && 0 < r.terms.rate <= 100
      && 0 < r.amount <= db.orders[r.orderId.value].total * r.terms.rate / 100
    case _ => r.paymentId.None? && r.orderId.None?
  }

  ghost predicate DbOk(db: Db) {
    && (forall o: nat :: OrderOk(db, o))
    && (forall p: nat :: PaymentOk(db, p))
    && (forall u: nat :: WalletOk(db, u))
    && (forall r <- db.ledger :: RowOk(db, r))
  }

  // ---- one live transaction ----

  predicate IsPurchase(r: LedgerRow, p: nat, o: nat) {
    r.kind.Purchase? && r.paymentId == Some(p) && r.orderId == Some(o)
  }

  predicate IsReward(r: LedgerRow, o: nat) {
    r.kind.ReferralReward? && r.paymentId == None && r.orderId == Some(o)
  }

  /** Locked orders are pending in the committed rows; locked rows keep their identity; staged
      balances are the committed ones moved by the staged ledger rows. */
  ghost predicate StagedOk(db: Db, w: Writes) {
    && (forall o <- w.orders :: o in db.orders && db.orders[o].status.Pending? && w.orders[o].SameInvoice(db.orders[o]))
    && (forall p <- w.payments :: p in db.payments ==> w.payments[p].SameInvoice(db.payments[p]))
    && (forall p <- w.payments :: w.payments[p].orderId.Some? ==> w.payments[p].orderId.value in db.orders)
    && (forall u: nat :: StagedWalletOk(db, w, u))
    && (forall r <- w.ledger :: RowOk(View(db, w), r))
  }

  ghost predicate StagedWalletOk(db: Db, w: Writes, u: nat) {
    if u in w.wallets then w.wallets[u] == db.Balance(u) + Total(NetOf(u), w.ledger)
    else Total(NetOf(u), w.ledger) == 0
  }

  /** No order or wallet is touched yet, and no payment but possibly `p`. */
  predicate Fresh(w: Writes, p: nat) {
    w.payments.Keys <= {p} && w.orders == map[] && w.wallets == map[] && w.ledger == [] && w.provisions == []
  }

  predicate Names(v: Db, p: nat, o: nat) {
    p in v.payments && v.payments[p].orderId == Some(o)
  }

  /** The transaction still has to provision order `o` of payment `p`: paid already when it pays
      from the wallet, and then the order is locked; otherwise nothing but `p` is written. */
  ghost predicate Unprovisioned(db: Db, t: Tx, p: nat, o: nat) {
    && Names(View(db, t.w), p, o) && t.w.payments.Keys <= {p} && t.w.provisions == []
    && if t.request.PayFromWallet? then
         && o == t.request.orderId
         && p in t.w.payments && p !in db.payments && t.w.orders.Keys == {o} && t.w.orders[o].status.Pending?
         && |t.w.ledger| == 1 && IsPurchase(t.w.ledger[0], p, o)
       else
         Fresh(t.w, p)
  }

  /** The order has been claimed and, when `provisioned`, its subscription has been written. */
  ghost predicate Claimed(db: Db, t: Tx, p: nat, o: nat, provisioned: bool, rewarded: bool) {
    var paid := if t.request.PayFromWallet? then 1 else 0;
    && Names(View(db, t.w), p, o) && t.w.payments.Keys <= {p}
    && t.w.orders.Keys == {o} && t.w.orders[o].status.Completed?
    && t.w.provisions == (if provisioned then [o] else [])
    && |t.w.ledger| == paid + (if rewarded then 1 else 0)
    && (t.request.PayFromWallet? ==>
          o == t.request.orderId && p in t.w.payments && p !in db.payments && IsPurchase(t.w.ledger[0], p, o))
    && (rewarded ==> IsReward(t.w.ledger[paid], o))
  }

  /** A top-up under way: either this transaction holds the payment row, or the payment was
      credited before. */
  ghost predicate ToppingUp(db: Db, t: Tx, p: nat) {
    && !t.request.PayFromWallet? && p in View(db, t.w).payments && View(db, t.w).payments[p].orderId.None?
    && Fresh(t.w, p)
    && (p in t.w.payments || db.Sum(KeyedBy(p)) == 1)
  }

  /** A purchase that found its order completed by an earlier commit. */
  ghost predicate AlreadyProvisioned(db: Db, t: Tx, p: nat, o: nat) {
    && !t.request.PayFromWallet? && Names(View(db, t.w), p, o) && Fresh(t.w, p) && db.Provisions(o) == 1
  }

  ghost predicate ToppedUp(db: Db, t: Tx, p: nat, settled: bool) {
    && !t.request.PayFromWallet? && p in View(db, t.w).payments && View(db, t.w).payments[p].orderId.None?
    && t.w.payments.Keys <= {p} && t.w.orders == map[] && t.w.provisions == []
    && if settled then
         && p in t.w.payments && db.Sum(KeyedBy(p)) == 0
         && |t.w.ledger| == 1 && t.w.ledger[0].kind.Deposit? && t.w.ledger[0].paymentId == Some(p)
       else
         t.w.ledger == [] && db.Sum(KeyedBy(p)) == 1
  }

  ghost predicate StageOk(db: Db, t: Tx) {
    var v := View(db, t.w);
    match t.pc
    case Start => t.w == NO_WRITES
    case ClaimReceipt(p) => t.w == NO_WRITES && !t.request.PayFromWallet?
    case RejectPayment(p) => Fresh(t.w, p) && t.w.payments == map[] && !t.request.PayFromWallet?
    case Debit(p) =>
      && t.request.PayFromWallet? && t.w.payments.Keys == {p} && p !in db.payments
      && t.w.payments[p].orderId == Some(t.request.orderId)
      && t.w.orders.Keys == {t.request.orderId} && t.w.orders[t.request.orderId].status.Pending?
      && t.w.payments[p].amount == t.w.orders[t.request.orderId].total
      && t.w.payments[p].userId == t.w.orders[t.request.orderId].userId
      && t.w.payments[p].status == PaymentStatus.Pending
      && t.w.wallets == map[] && t.w.ledger == [] && t.w.provisions == []
    case ReadPayment(p) => Unsettled(db, t, p)
    case ClaimPayment(p) => Unsettled(db, t, p)
    case ReadOrder(p) =>
      p in v.payments && v.payments[p].orderId.Some? && Unprovisioned(db, t, p, v.payments[p].orderId.value)
    case ClaimOrder(p) =>
      p in v.payments && v.payments[p].orderId.Some? && Unprovisioned(db, t, p, v.payments[p].orderId.value)
    case Provision(p) =>
      p in v.payments && v.payments[p].orderId.Some? && Claimed(db, t, p, v.payments[p].orderId.value, false, false)
    case ReadEarned(p) =>
      p in v.payments && v.payments[p].orderId.Some? && Claimed(db, t, p, v.payments[p].orderId.value, true, false)
    case Credit(p, _, commission, terms) =>
      && p in v.payments && v.payments[p].orderId.Some? && Claimed(db, t, p, v.payments[p].orderId.value, true, false)
      && 0 < terms.rate <= 100 && 0 < commission <= v.orders[v.payments[p].orderId.value].total * terms.rate / 100
    case ReadTopUp(p) => ToppingUp(db, t, p)
    case TopUp(p, existing) =>
      ToppingUp(db, t, p) && if existing then db.Sum(KeyedBy(p)) == 1 else p in t.w.payments && db.Sum(KeyedBy(p)) == 0
    case Done(p, settled) =>
      && p in v.payments
      && (match v.payments[p].orderId
          case Some(o) =>
            if settled then Claimed(db, t, p, o, true, false) || Claimed(db, t, p, o, true, true)
            else AlreadyProvisioned(db, t, p, o)
          case None => ToppedUp(db, t, p, settled))
    case Declined =>
      && t.w.orders == map[] && t.w.wallets == map[] && t.w.ledger == [] && t.w.provisions == []
      && !t.request.PayFromWallet?
      && forall p <- t.w.payments :: t.w.payments[p].status.Rejected? && p in db.payments
  }

  /** Before the payment is confirmed: nothing is written yet, unless the wallet was debited. */
  ghost predicate Unsettled(db: Db, t: Tx, p: nat) {
    if t.request.PayFromWallet? then
      Unprovisioned(db, t, p, t.request.orderId)
    else
      Fresh(t.w, p) && t.w.payments == map[]
  }

  ghost predicate TxOk(db: Db, t: Tx) {
    StagedOk(db, t.w) && StageOk(db, t)
  }

  ghost predicate Sound(db: Db, txs: map<nat, Tx>) {
    && DbOk(db)
    && (forall i, j :: i in txs && j in txs && i != j ==> txs[i].w.DisjointFrom(txs[j].w))
    && (forall i <- txs :: TxOk(db, txs[i]))
  }

  ghost predicate Inv(s: State) {
    Sound(s.db, s.txs)
  }

  // ---- a live transaction is not disturbed by commits of rows it has not locked ----

  /** `db'` follows `db` by writes to rows that `w` has not locked. */
  ghost predicate Undisturbed(db: Db, db': Db, w: Writes) {
    && (forall o <- db.orders :: o in db'.orders && db'.orders[o].SameInvoice(db.orders[o]))
    && (forall p <- db.payments :: p in db'.payments && db'.payments[p].SameInvoice(db.payments[p]))
    && (forall o <- w.orders :: o in db.orders ==> db'.orders[o] == db.orders[o])
    && (forall p <- w.payments :: p in db'.payments ==> p in db.payments)
    && (forall u <- w.wallets :: db'.Balance(u) == db.Balance(u))
    && (forall o: nat :: db.Provisions(o) <= db'.Provisions(o))
    && (forall p: nat :: db.Sum(KeyedBy(p)) <= db'.Sum(KeyedBy(p)))
    && (forall p <- w.payments :: db'.Sum(KeyedBy(p)) == db.Sum(KeyedBy(p)))
  }

  lemma RowStays(db: Db, db': Db, r: LedgerRow)
    requires RowOk(db, r)
    requires forall o <- db.orders :: o in db'.orders && db'.orders[o].SameInvoice(db.orders[o])
    requires forall p <- db.payments :: p in db'.payments && db'.payments[p].SameInvoice(db.payments[p])
    ensures RowOk(db', r)
  {
  }

  lemma ViewStays(db: Db, db': Db, w: Writes, p: nat)
    requires Undisturbed(db, db', w) && StagedOk(db, w) && p in View(db, w).payments
    ensures p in View(db', w).payments && View(db', w).payments[p].SameInvoice(View(db, w).payments[p])
  {
  }

  lemma StagedStays(db: Db, db': Db, w: Writes)
    requires StagedOk(db, w) && Undisturbed(db, db', w)
    ensures StagedOk(db', w)
  {
    forall u: nat ensures StagedWalletOk(db', w, u) {
      assert StagedWalletOk(db, w, u);
    }
    var v, v' := View(db, w), View(db', w);
    forall r <- w.ledger ensures RowOk(v', r) {
      RowStays(v, v', r);
    }
  }

  lemma UnprovisionedStays(db: Db, db': Db, t: Tx, p: nat, o: nat)
    requires Undisturbed(db, db', t.w) && StagedOk(db, t.w) && Unprovisioned(db, t, p, o)
    ensures Unprovisioned(db', t, p, o)
  {
    ViewStays(db, db', t.w, p);
  }

  lemma ClaimedStays(db: Db, db': Db, t: Tx, p: nat, o: nat, provisioned: bool, rewarded: bool)
    requires Undisturbed(db, db', t.w) && StagedOk(db, t.w) && Claimed(db, t, p, o, provisioned, rewarded)
    ensures Claimed(db', t, p, o, provisioned, rewarded)
  {
    ViewStays(db, db', t.w, p);
  }

  lemma TopUpStays(db: Db, db': Db, t: Tx, p: nat)
    requires Undisturbed(db, db', t.w) && StagedOk(db, t.w) && PaymentOk(db', p)
    ensures ToppingUp(db, t, p) ==> ToppingUp(db', t, p)
    ensures forall settled :: ToppedUp(db, t, p, settled) ==> ToppedUp(db', t, p, settled)
    ensures db.Sum(KeyedBy(p)) == 1 ==> db'.Sum(KeyedBy(p)) == 1
  {
    if p in View(db, t.w).payments {
      ViewStays(db, db', t.w, p);
    }
  }

  lemma PurchaseStageStays(db: Db, db': Db, t: Tx)
    requires StagedOk(db, t.w) && StageOk(db, t) && Undisturbed(db, db', t.w)
    requires t.pc.ReadOrder? || t.pc.ClaimOrder? || t.pc.Provision? || t.pc.ReadEarned? || t.pc.Credit?
    ensures StageOk(db', t)
  {
    var p := t.pc.p;
    var o := View(db, t.w).payments[p].orderId.value;
    ViewStays(db, db', t.w, p);
    if t.pc.ReadOrder? || t.pc.ClaimOrder? {
      UnprovisionedStays(db, db', t, p, o);
    } else {
      ClaimedStays(db, db', t, p, o, !t.pc.Provision?, false);
    }
  }

  lemma DoneStays(db: Db, db': Db, t: Tx)
    requires StagedOk(db, t.w) && StageOk(db, t) && DbOk(db') && Undisturbed(db, db', t.w)
    requires t.pc.Done?
    ensures StageOk(db', t)
  {
    var p := t.pc.p;
    ViewStays(db, db', t.w, p);
    match View(db, t.w).payments[p].orderId
    case None => TopUpStays(db, db', t, p);
    case Some(o) =>
      assert OrderOk(db', o);
      if t.pc.settled {
        ClaimedStays(db, db', t, p, o, true, Claimed(db, t, p, o, true, true));
      }
  }

  lemma StageStays(db: Db, db': Db, t: Tx)
    requires StagedOk(db, t.w) && StageOk(db, t) && DbOk(db') && Undisturbed(db, db', t.w)
    ensures StageOk(db', t)
  {
    if t.pc.ReadPayment? || t.pc.ClaimPayment? {
      if t.request.PayFromWallet? {
        UnprovisionedStays(db, db', t, t.pc.p, t.request.orderId);
      }
    } else if t.pc.ReadTopUp? || t.pc.TopUp? {
      TopUpStays(db, db', t, t.pc.p);
    } else if t.pc.Done? {
      DoneStays(db, db', t);
    } else if t.pc.ReadOrder? || t.pc.ClaimOrder? || t.pc.Provision? || t.pc.ReadEarned? || t.pc.Credit? {
      PurchaseStageStays(db, db', t);
    }
  }

  lemma TxStays(db: Db, db': Db, t: Tx)
    requires TxOk(db, t) && DbOk(db') && Undisturbed(db, db', t.w)
    ensures TxOk(db', t)
  {
    StagedStays(db, db', t.w);
    StageStays(db, db', t);
  }
}
