/** What the entry points of the settlement promise about the rows before and after a call, without
    saying how they compute it. */
module SettlementPromises {
  import opened Options
  import opened Tables

  // ---- wallets ----

  /** A ledger row carries the payment. */
  predicate IsKeyed(ledger: seq<LedgerRow>, p: nat) {
    exists r <- ledger :: r.paymentId == Some(p)
  }

  /** A wallet change keyed by a payment: nothing moves when the payment has moved money before. */
  predicate MovesOnce(db: Db, db': Db, user: nat, kind: TxnKind, change: int, amount: int, p: nat, order: Option<nat>) {
    var before := db.Balance(user);
    && db' == db.(wallets := db'.wallets, ledger := db'.ledger)
    && if IsKeyed(db.ledger, p) then
         db'.ledger == db.ledger && db'.wallets == db.wallets[user := before]
       else
         && db'.wallets == db.wallets[user := before + change]
         && db'.ledger ==
              db.ledger + [LedgerRow(user, kind, amount, before, before + change, Some(p), order, NO_TERMS)]
  }

  // ---- commissions ----

  /** Whether an order of this total, by this user, earns somebody a commission at all. */
  predicate EarnsCommission(db: Db, user: nat, total: int) {
    && db.settings.referralEnabled && 0 < db.settings.commissionPercent <= 100
    && total > 0 && user in db.referrers
  }

  /** A commission of `amount` is within the percentage, and within the cap if there is one. */
  predicate MayEarn(db: Db, referrer: nat, total: int, amount: int) {
    && amount * 100 <= total * db.settings.commissionPercent
    && (db.settings.maxBonus > 0 ==> db.Sum(EarnedBy(referrer)) + amount <= db.settings.maxBonus)
  }

  predicate IsGreatestCommission(db: Db, referrer: nat, total: int, amount: int) {
    MayEarn(db, referrer, total, amount) && !MayEarn(db, referrer, total, amount + 1)
  }

  /** The referrer of the user gets the greatest commission there may be, with one row; where not even
      one unit may be earned, nothing moves. Nothing else changes either way. */
  predicate PaysCommission(db: Db, db': Db, o: nat, user: nat, total: int) {
    && db' == db.(wallets := db'.wallets, ledger := db'.ledger)
    && if EarnsCommission(db, user, total) && MayEarn(db, db.referrers[user], total, 1) then
         var referrer := db.referrers[user];
         var before := db.Balance(referrer);
         && |db'.ledger| == |db.ledger| + 1
         && var row := db'.ledger[|db.ledger|];
            && row.amount > 0 && IsGreatestCommission(db, referrer, total, row.amount)
            && row == LedgerRow(referrer, ReferralReward, row.amount, before, before + row.amount, None, Some(o),
                 Terms(db.settings.commissionPercent, db.Sum(EarnedBy(referrer)), db.settings.maxBonus))
            && db'.ledger == db.ledger + [row] && db'.wallets == db.wallets[referrer := before + row.amount]
       else
         db' == db
  }

  // ---- orders ----

  /** An order that settling may complete, or find completed. */
  predicate IsPayable(db: Db, o: nat, subscription: Option<nat>) {
    && o in db.orders
    && match db.orders[o].status
       case Completed => true
       case Pending => subscription.Some?
       case _ => false
  }

  /** A pending order is completed with its subscription, provisioned once more and rewarded; a
      completed one stays. */
  predicate CompletesOrder(db: Db, db': Db, o: nat, subscription: Option<nat>)
    requires o in db.orders
  {
    var order := db.orders[o];
    if order.status == OrderStatus.Pending then
      var completed := db.orders[o := Order(order.userId, order.total, OrderStatus.Completed, subscription)];
      PaysCommission(db.(orders := completed, provisions := db.provisions + [o]), db', o, order.userId, order.total)
    else db' == db
  }

  // ---- payments ----

  /** Neither confirmed nor closed. */
  predicate IsUndecided(status: PaymentStatus) {
    status == Initiated || status == PaymentStatus.Pending || status == AwaitingVerify
  }

  /** Settling the payment does not throw. */
  predicate MaySettle(db: Db, p: nat, subscription: Option<nat>) {
    && p in db.payments
    && (IsUndecided(db.payments[p].status) || db.payments[p].status == Confirmed)
    && (db.payments[p].orderId.Some? ==> IsPayable(db, db.payments[p].orderId.value, subscription))
  }

  /** Settling the payment moves something. */
  predicate Moves(db: Db, p: nat) {
    && p in db.payments
    && match db.payments[p].orderId
       case Some(o) => o in db.orders && db.orders[o].status == OrderStatus.Pending
       case None => !IsKeyed(db.ledger, p)
  }

  /** The payment is confirmed; its order is completed, or the amount is added to its user's balance. */
  predicate Settles(db: Db, db': Db, p: nat, subscription: Option<nat>)
    requires p in db.payments
    requires db.payments[p].orderId.Some? ==> db.payments[p].orderId.value in db.orders
  {
    var payment := db.payments[p];
    var confirmed := db.(payments := db.payments[p := payment.(status := Confirmed)]);
    match payment.orderId
    case Some(o) => CompletesOrder(confirmed, db', o, subscription)
    case None => MovesOnce(confirmed, db', payment.userId, Deposit, payment.amount, payment.amount, p, None)
  }

  /** The same with the report of a settlement that moved something. */
  predicate SettlesAndReports(db: Db, db': Db, p: nat, subscription: Option<nat>, fromWallet: bool)
    requires p in db.payments
    requires db.payments[p].orderId.Some? ==> db.payments[p].orderId.value in db.orders
  {
    && Settles(db, db'.(reports := db.reports), p, subscription)
    && db'.reports == db.reports + if Moves(db, p) then [Report(p, db.payments[p].orderId, fromWallet)] else []
  }

  // ---- receipts ----

  predicate MayApprove(db: Db, p: nat, subscription: Option<nat>) {
    && p in db.receipts && (db.receipts[p] == ReceiptStatus.Pending || db.receipts[p] == Approved)
    && MaySettle(db, p, subscription)
  }

  predicate Approves(db: Db, db': Db, p: nat, subscription: Option<nat>)
    requires p in db.receipts && MaySettle(db, p, subscription)
  {
    SettlesAndReports(db.(receipts := db.receipts[p := Approved]), db', p, subscription, false)
  }

  /** A rejection repeated is accepted and changes nothing. */
  predicate MayReject(db: Db, p: nat) {
    && p in db.receipts
    && (db.receipts[p] == ReceiptStatus.Rejected ||
        (db.receipts[p] == ReceiptStatus.Pending && p in db.payments && IsUndecided(db.payments[p].status)))
  }

  predicate Rejects(db: Db, db': Db, p: nat)
    requires MayReject(db, p)
  {
    if db.receipts[p] == ReceiptStatus.Rejected then db' == db
    else
      db' == db.(receipts := db.receipts[p := ReceiptStatus.Rejected],
                 payments := db.payments[p := db.payments[p].(status := PaymentStatus.Rejected)])
  }

  // ---- paying from the wallet ----

  /** The wallet covers the order, to the last unit. A key that was used before is not charged again. */
  predicate MayPay(db: Db, o: nat, user: nat, newPayment: nat, subscription: Option<nat>) {
    && o in db.orders && db.orders[o].userId == user && db.orders[o].status == OrderStatus.Pending
    && subscription.Some?
    && (IsKeyed(db.ledger, newPayment) || db.orders[o].total <= db.Balance(user))
  }

  /** The rows after the debit and before the settlement of its payment. */
  function Debited(db: Db, o: nat, user: nat, newPayment: nat): Db
    requires o in db.orders
  {
    var total, before := db.orders[o].total, db.Balance(user);
    var paid := db.(payments := db.payments[newPayment := Payment(Some(o), user, Wallet, total, Confirmed)]);
    if IsKeyed(db.ledger, newPayment) then paid.(wallets := db.wallets[user := before])
    else paid.(wallets := db.wallets[user := before - total],
               ledger := db.ledger +
                 [LedgerRow(user, Purchase, total, before, before - total, Some(newPayment), Some(o), NO_TERMS)])
  }

  /** The total leaves the wallet with one row, and the order is completed and reported. */
  predicate PaysOrder(db: Db, db': Db, o: nat, user: nat, newPayment: nat, subscription: Option<nat>)
    requires o in db.orders
  {
    && CompletesOrder(Debited(db, o, user, newPayment), db'.(reports := db.reports), o, subscription)
    && db'.reports == db.reports + [Report(newPayment, Some(o), true)]
  }
}
