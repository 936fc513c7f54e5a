/** One transaction of the settlement protocol, statement by statement. */
module SettlementSteps {
  import opened Options
  import opened Tables

  datatype Request =
    | Confirm(paymentId: nat)                  // gateway verification, crypto, retry
    | Approve(receiptOf: nat)                  // admin accepts the receipt of this payment
    | Reject(receiptOf: nat)                   // admin rejects it
    | PayFromWallet(orderId: nat, userId: nat)

  /** The statement a transaction executes next, with what it has read so far. */
  datatype Pc =
    | Start
    | ClaimReceipt(p: nat)
    | RejectPayment(p: nat)
    | Debit(p: nat)
    | ReadPayment(p: nat)
    | ClaimPayment(p: nat)
    | ReadOrder(p: nat)
    | ClaimOrder(p: nat)
    | Provision(p: nat)
    | ReadEarned(p: nat)
    | Credit(p: nat, referrer: nat, commission: int, terms: Terms)
    | ReadTopUp(p: nat)
    | TopUp(p: nat, existing: bool)
    | Done(p: nat, settled: bool)
    | Declined

  /** The uncommitted row versions of one transaction. A row that occurs here is locked. */
  datatype Writes = Writes(
    payments: map<nat, Payment>,
    orders: map<nat, Order>,
    receipts: map<nat, ReceiptStatus>,
    wallets: map<nat, int>,
    ledger: seq<LedgerRow>,
    provisions: seq<nat>)
  {
    predicate DisjointFrom(that: Writes) {
      && payments.Keys !! that.payments.Keys
      && orders.Keys !! that.orders.Keys
      && receipts.Keys !! that.receipts.Keys
      && wallets.Keys !! that.wallets.Keys
    }
  }

  const NO_WRITES := Writes(map[], map[], map[], map[], [], [])

  datatype Tx = Tx(request: Request, pc: Pc, w: Writes)

  /** Choices made outside the code: the identifier drawn for a new payment row, and the
      subscription that provisioning returns (`None` when provisioning throws). */
  datatype Choice = Choice(newPayment: nat, subscription: Option<nat>)

  datatype Outcome = Go(tx: Tx) | Throw

  /** What a transaction reads: the committed rows, under its own writes. */
  function View(db: Db, w: Writes): Db {
    db.(payments := db.payments + w.payments,
        orders := db.orders + w.orders,
        receipts := db.receipts + w.receipts,
        wallets := db.wallets + w.wallets,
        ledger := db.ledger + w.ledger,
        provisions := db.provisions + w.provisions)
  }

  /** Wallet change keyed by a payment: locks the wallet, and changes nothing when the key is
      already in the ledger. `None` when a debit is not covered. */
  function MutateKeyed(db: Db, w: Writes, user: nat, kind: TxnKind, amount: int, credit: bool,
                       p: nat, order: Option<nat>): Option<Writes>
  {
    var v := View(db, w);
    var before := v.Balance(user);
    var locked := w.(wallets := w.wallets[user := before]);
    if v.Sum(KeyedBy(p)) > 0 then
      Some(locked)
    else if !credit && before < amount then
      None
    else
      var after := if credit then before + amount else before - amount;
      Some(locked.(wallets := w.wallets[user := after],
                   ledger := w.ledger + [LedgerRow(user, kind, amount, before, after, Some(p), order, NO_TERMS)]))
  }

  /** The commission on an order, capped by what the referrer may still earn;
      not positive when nothing is credited. */
  function Commission(total: int, s: Settings, earned: int): int {
    if !s.referralEnabled || s.commissionPercent <= 0 || s.commissionPercent > 100 then 0
    else
      var commission := total * s.commissionPercent / 100;
      if s.maxBonus > 0 && s.maxBonus - earned < commission then s.maxBonus - earned else commission
  }

  function AfterClaim(payment: Payment, p: nat): Pc {
    if payment.orderId.Some? then ReadOrder(p) else ReadTopUp(p)
  }

  /** Executes the next statement of a transaction over the committed rows `db`. */
  function Exec(db: Db, t: Tx, c: Choice): Outcome {
    var v := View(db, t.w);
    match t.pc
    case Start =>
      (match t.request
       case Confirm(p) => Go(t.(pc := ReadPayment(p)))
       case Approve(p) =>
         if p !in v.receipts then Throw
         else if v.receipts[p].Pending? then Go(t.(pc := ClaimReceipt(p)))
         else if v.receipts[p].Approved? then Go(t.(pc := ReadPayment(p)))
         else Throw
       case Reject(p) =>
         if p !in v.receipts then Throw
         else if v.receipts[p].Pending? then Go(t.(pc := ClaimReceipt(p)))
         else if v.receipts[p].Rejected? then Go(t.(pc := Declined))
         else Throw
       case PayFromWallet(o, user) =>
         if o !in v.orders || v.orders[o].userId != user || !v.orders[o].status.Pending? then Throw
         else
           var payment := Payment(Some(o), user, Wallet, v.orders[o].total, PaymentStatus.Pending);
           Go(t.(pc := Debit(c.newPayment),
                 w := t.w.(orders := t.w.orders[o := v.orders[o]],
                           payments := t.w.payments[c.newPayment := payment]))))
    case ClaimReceipt(p) =>
      if p in v.receipts && v.receipts[p].Pending? then
        var decision := if t.request.Reject? then ReceiptStatus.Rejected else Approved;
        Go(t.(pc := if t.request.Reject? then RejectPayment(p) else ReadPayment(p),
              w := t.w.(receipts := t.w.receipts[p := decision])))
      else Throw
    case RejectPayment(p) =>
      if p in v.payments && v.payments[p].status.Open() then
        Go(t.(pc := Declined,
              w := t.w.(payments := t.w.payments[p := v.payments[p].(status := PaymentStatus.Rejected)])))
      else Throw
    case Debit(p) =>
      if p !in v.payments then Throw
      else
        var payment := v.payments[p];
        var w' := MutateKeyed(db, t.w, payment.userId, Purchase, payment.amount, false, p, payment.orderId);
        if w'.None? then Throw else Go(t.(pc := ReadPayment(p), w := w'.value))
    case ReadPayment(p) =>
      if p !in v.payments then Throw
      else if v.payments[p].status.Confirmed? then Go(t.(pc := AfterClaim(v.payments[p], p)))
      else Go(t.(pc := ClaimPayment(p)))
    case ClaimPayment(p) =>
      if p !in v.payments then Throw
      else if v.payments[p].status.Open() then
        Go(t.(pc := AfterClaim(v.payments[p], p),
              w := t.w.(payments := t.w.payments[p := v.payments[p].(status := Confirmed)])))
      else if v.payments[p].status.Confirmed? then Go(t.(pc := AfterClaim(v.payments[p], p)))
      else Throw
    case ReadOrder(p) =>
      if p !in v.payments || v.payments[p].orderId.None? || v.payments[p].orderId.value !in v.orders then Throw
      else if v.orders[v.payments[p].orderId.value].status.Completed? then Go(t.(pc := Done(p, false)))
      else Go(t.(pc := ClaimOrder(p)))
    case ClaimOrder(p) =>
      if p !in v.payments || v.payments[p].orderId.None? || v.payments[p].orderId.value !in v.orders then Throw
      else
        var o := v.payments[p].orderId.value;
        if v.orders[o].status.Pending? then
          Go(t.(pc := Provision(p),
                w := t.w.(orders := t.w.orders[o := v.orders[o].(status := Completed)])))
        else if v.orders[o].status.Completed? then Go(t.(pc := Done(p, false)))
        else Throw
    case Provision(p) =>
      if c.subscription.None? || p !in v.payments || v.payments[p].orderId.None?
         || v.payments[p].orderId.value !in v.orders then Throw
      else
        var o := v.payments[p].orderId.value;
        Go(t.(pc := ReadEarned(p),
              w := t.w.(orders := t.w.orders[o := v.orders[o].(subscriptionId := c.subscription)],
                        provisions := t.w.provisions + [o])))
    case ReadEarned(p) =>
      if p !in v.payments || v.payments[p].orderId.None? || v.payments[p].orderId.value !in v.orders then Throw
      else
        var order := v.orders[v.payments[p].orderId.value];
        if order.total <= 0 || order.userId !in v.referrers then Go(t.(pc := Done(p, true)))
        else
          var referrer := v.referrers[order.userId];
          var earned := v.Sum(EarnedBy(referrer));
          var commission := Commission(order.total, v.settings, earned);
          if commission <= 0 then Go(t.(pc := Done(p, true)))
          else
            var terms := Terms(v.settings.commissionPercent, earned, v.settings.maxBonus);
            Go(t.(pc := Credit(p, referrer, commission, terms)))
    case Credit(p, referrer, commission, terms) =>
      if p !in v.payments then Throw
      else
        var before := v.Balance(referrer);
        var row := LedgerRow(referrer, ReferralReward, commission, before, before + commission,
                             None, v.payments[p].orderId, terms);
        Go(t.(pc := Done(p, true),
              w := t.w.(wallets := t.w.wallets[referrer := before + commission], ledger := t.w.ledger + [row])))
    case ReadTopUp(p) =>
      Go(t.(pc := TopUp(p, v.Sum(KeyedBy(p)) > 0)))
    case TopUp(p, existing) =>
      if p !in v.payments then Throw
      else
        var payment := v.payments[p];
        var w' := MutateKeyed(db, t.w, payment.userId, Deposit, payment.amount, true, p, None);
        if w'.None? then Throw else Go(t.(pc := Done(p, !existing), w := w'.value))
    case Done(_, _) => Go(t)
    case Declined => Go(t)
  }

  predicate Finished(t: Tx) {
    t.pc.Done? || t.pc.Declined?
  }

  /** The committed rows after a finished transaction, with the report it writes. */
  function Merge(db: Db, t: Tx): Db
    requires Finished(t)
  {
    var v := View(db, t.w);
    if t.pc.Done? && t.pc.settled && t.pc.p in v.payments then
      v.(reports := v.reports + [Report(t.pc.p, v.payments[t.pc.p].orderId, t.request.PayFromWallet?)])
    else v
  }
}
