/** What the settlement code computes on the rows it sees, and its agreement with the interleaved
    machine: each entry point is one transaction of that machine run alone. */
module SettlementAlone {
  import opened Options
  import opened Tables
  import opened SettlementSteps
  import opened SettlementMachine

  /** The rows after a part of a transaction, and whether it moved something; `None` when it threw. */
  datatype Result = Result(db: Db, settled: bool)

  // ---- what each method computes, on the rows the transaction sees ----

  function Mutate(v: Db, user: nat, kind: TxnKind, amount: int, credit: bool, p: nat, order: Option<nat>): Option<Db> {
    var before := v.Balance(user);
    if v.Sum(KeyedBy(p)) > 0 then Some(v.(wallets := v.wallets[user := before]))
    else if !credit && before < amount then None
    else
      var after := if credit then before + amount else before - amount;
      Some(v.(wallets := v.wallets[user := after],
              ledger := v.ledger + [LedgerRow(user, kind, amount, before, after, Some(p), order, NO_TERMS)]))
  }

  function Credited(v: Db, o: nat, referrer: nat, commission: int, terms: Terms): Db {
    var before := v.Balance(referrer);
    v.(wallets := v.wallets[referrer := before + commission],
       ledger := v.ledger +
         [LedgerRow(referrer, ReferralReward, commission, before, before + commission, None, Some(o), terms)])
  }

  function Rewarded(v: Db, o: nat): Db
    requires o in v.orders
  {
    var order := v.orders[o];
    if order.total <= 0 || order.userId !in v.referrers then v
    else
      var referrer := v.referrers[order.userId];
      var earned := v.Sum(EarnedBy(referrer));
      var commission := Commission(order.total, v.settings, earned);
      var terms := Terms(v.settings.commissionPercent, earned, v.settings.maxBonus);
      if commission <= 0 then v else Credited(v, o, referrer, commission, terms)
  }

  function Provisioned(v: Db, o: nat, subscription: Option<nat>): Option<Db>
    requires o in v.orders
  {
    if subscription.None? then None
    else Some(Rewarded(v.(orders := v.orders[o := v.orders[o].(subscriptionId := subscription)],
                          provisions := v.provisions + [o]), o))
  }

  function OrderCompleted(v: Db, o: nat, subscription: Option<nat>): Option<Result> {
    if o !in v.orders then None
    else if v.orders[o].status.Completed? then Some(Result(v, false))
    else if !v.orders[o].status.Pending? then None
    else
      var claimed := v.(orders := v.orders[o := v.orders[o].(status := OrderStatus.Completed)]);
      var out := Provisioned(claimed, o, subscription);
      if out.None? then None else Some(Result(out.value, true))
  }

  function ToppedUp(v: Db, p: nat): Result
    requires p in v.payments
  {
    var out := Mutate(v, v.payments[p].userId, Deposit, v.payments[p].amount, true, p, None);
    Result(out.value, !(v.Sum(KeyedBy(p)) > 0))
  }

  function Effected(v: Db, p: nat, subscription: Option<nat>): Option<Result>
    requires p in v.payments
  {
    match v.payments[p].orderId
    case Some(o) => OrderCompleted(v, o, subscription)
    case None => Some(ToppedUp(v, p))
  }

  function Confirmation(v: Db, p: nat): Option<Db> {
    if p !in v.payments then None
    else if v.payments[p].status.Confirmed? then Some(v)
    else if v.payments[p].status.Open() then Some(v.(payments := v.payments[p := v.payments[p].(status := Confirmed)]))
    else None
  }

  function Settled(v: Db, p: nat, subscription: Option<nat>): Option<Result> {
    var v' := Confirmation(v, p);
    if v'.None? then None else Effected(v'.value, p, subscription)
  }

  function Reports(r: Result, p: nat, fromWallet: bool): Result {
    if r.settled && p in r.db.payments then
      r.(db := r.db.(reports := r.db.reports + [Report(p, r.db.payments[p].orderId, fromWallet)]))
    else r
  }

  // ---- the same, as a transaction of the machine that nothing interleaves with ----

  /** An upper bound on the statements a transaction still has to execute. */
  function Remaining(pc: Pc): nat {
    match pc
    case Start => 11
    case ClaimReceipt(_) => 10
    case RejectPayment(_) => 1
    case Debit(_) => 9
    case ReadPayment(_) => 8
    case ClaimPayment(_) => 7
    case ReadOrder(_) => 6
    case ClaimOrder(_) => 5
    case Provision(_) => 4
    case ReadEarned(_) => 3
    case Credit(_, _, _, _) => 1
    case ReadTopUp(_) => 2
    case TopUp(_, _) => 1
    case Done(_, _) => 0
    case Declined => 0
  }

  lemma ExecProgresses(db: Db, t: Tx, c: Choice)
    requires !Finished(t) && Exec(db, t, c).Go?
    ensures Remaining(Exec(db, t, c).tx.pc) < Remaining(t.pc)
  {
  }

  /** The ending of a transaction run alone over the committed rows `db`. */
  function Alone(db: Db, t: Tx, c: Choice): Option<Result>
    decreases Remaining(t.pc)
  {
    if Finished(t) then Some(Result(Merge(db, t), t.pc.Done? && t.pc.settled))
    else
      match Exec(db, t, c)
      case Throw => None
      case Go(t') => ExecProgresses(db, t, c); Alone(db, t', c)
  }

  /** `out` as it ends the transaction `t`. */
  function Ending(t: Tx, p: nat, out: Option<Result>): Option<Result> {
    if out.None? then None else Some(Reports(out.value, p, t.request.PayFromWallet?))
  }

  lemma MapPut<K, V>(a: map<K, V>, b: map<K, V>, k: K, x: V)
    ensures a + b[k := x] == (a + b)[k := x]
  {
  }

  lemma SeqPut<T>(a: seq<T>, b: seq<T>, x: T)
    ensures a + (b + [x]) == a + b + [x]
  {
  }

  lemma AloneGoes(db: Db, t: Tx, c: Choice, t': Tx)
    requires !Finished(t) && Exec(db, t, c) == Go(t')
    ensures Alone(db, t, c) == Alone(db, t', c)
  {
  }

  lemma AloneThrows(db: Db, t: Tx, c: Choice)
    requires !Finished(t) && Exec(db, t, c) == Throw
    ensures Alone(db, t, c) == None
  {
  }

  lemma AloneEnds(db: Db, t: Tx, c: Choice, p: nat, v: Db, settled: bool)
    requires t.pc == Done(p, settled) && View(db, t.w) == v
    ensures Alone(db, t, c) == Ending(t, p, Some(Result(v, settled)))
  {
  }

  /** A change of the rows a transaction sees. */
  function Seen(db: Db, out: Option<Writes>): Option<Db> {
    if out.None? then None else Some(View(db, out.value))
  }

  lemma KeptView(db: Db, w: Writes, user: nat, kind: TxnKind, amount: int, credit: bool, p: nat, order: Option<nat>)
    requires View(db, w).Sum(KeyedBy(p)) > 0
    ensures Mutate(View(db, w), user, kind, amount, credit, p, order)
      == Seen(db, MutateKeyed(db, w, user, kind, amount, credit, p, order))
  {
    MapPut(db.wallets, w.wallets, user, View(db, w).Balance(user));
  }

  lemma MutatesView(db: Db, w: Writes, user: nat, kind: TxnKind, amount: int, credit: bool, p: nat, order: Option<nat>)
    ensures Mutate(View(db, w), user, kind, amount, credit, p, order)
      == Seen(db, MutateKeyed(db, w, user, kind, amount, credit, p, order))
  {
    var out := MutateKeyed(db, w, user, kind, amount, credit, p, order);
    if View(db, w).Sum(KeyedBy(p)) > 0 {
      KeptView(db, w, user, kind, amount, credit, p, order);
    } else if out.Some? {
      MapPut(db.wallets, w.wallets, user, out.value.wallets[user]);
      SeqPut(db.ledger, w.ledger, out.value.ledger[|w.ledger|]);
    }
  }

  lemma ExecTopUp(db: Db, t: Tx, c: Choice, p: nat)
    requires p in View(db, t.w).payments && t.pc == TopUp(p, View(db, t.w).Sum(KeyedBy(p)) > 0)
    ensures Exec(db, t, c).Go?
    ensures var t' := Exec(db, t, c).tx;
            && t' == t.(pc := Done(p, ToppedUp(View(db, t.w), p).settled), w := t'.w)
            && View(db, t'.w) == ToppedUp(View(db, t.w), p).db
  {
    var payment := View(db, t.w).payments[p];
    MutatesView(db, t.w, payment.userId, Deposit, payment.amount, true, p, None);
  }

  lemma AloneTopUp(db: Db, t: Tx, c: Choice, p: nat)
    requires t.pc == ReadTopUp(p) && p in View(db, t.w).payments
    ensures Alone(db, t, c) == Ending(t, p, Some(ToppedUp(View(db, t.w), p)))
  {
    var v := View(db, t.w);
    var t1 := t.(pc := TopUp(p, v.Sum(KeyedBy(p)) > 0));
    AloneGoes(db, t, c, t1);
    ExecTopUp(db, t1, c, p);
    var t2 := Exec(db, t1, c).tx;
    AloneGoes(db, t1, c, t2);
    AloneEnds(db, t2, c, p, ToppedUp(v, p).db, ToppedUp(v, p).settled);
  }

  lemma ExecCredit(db: Db, t: Tx, c: Choice, o: nat)
    requires t.pc.Credit? && t.pc.p in View(db, t.w).payments && View(db, t.w).payments[t.pc.p].orderId == Some(o)
    ensures Exec(db, t, c).Go?
    ensures var t' := Exec(db, t, c).tx;
            && t' == t.(pc := Done(t.pc.p, true), w := t'.w)
            && View(db, t'.w) == Credited(View(db, t.w), o, t.pc.referrer, t.pc.commission, t.pc.terms)
  {
    ExecCreditGoes(db, t, c, o);
    var after := View(db, t.w).Balance(t.pc.referrer) + t.pc.commission;
    ViewCredited(db, t.w, t.pc.referrer, after, RewardRow(db, t, o));
  }

  /** The row that crediting writes. */
  function RewardRow(db: Db, t: Tx, o: nat): LedgerRow
    requires t.pc.Credit?
  {
    var before := View(db, t.w).Balance(t.pc.referrer);
    LedgerRow(t.pc.referrer, ReferralReward, t.pc.commission, before, before + t.pc.commission,
              None, Some(o), t.pc.terms)
  }

  lemma ExecCreditGoes(db: Db, t: Tx, c: Choice, o: nat)
    requires t.pc.Credit? && t.pc.p in View(db, t.w).payments && View(db, t.w).payments[t.pc.p].orderId == Some(o)
    ensures var after := View(db, t.w).Balance(t.pc.referrer) + t.pc.commission;
            Exec(db, t, c) == Go(t.(pc := Done(t.pc.p, true),
              w := t.w.(wallets := t.w.wallets[t.pc.referrer := after], ledger := t.w.ledger + [RewardRow(db, t, o)])))
  {
  }

  lemma ViewCredited(db: Db, w: Writes, user: nat, after: int, row: LedgerRow)
    ensures View(db, w.(wallets := w.wallets[user := after], ledger := w.ledger + [row]))
      == var v := View(db, w); v.(wallets := v.wallets[user := after], ledger := v.ledger + [row])
  {
    MapPut(db.wallets, w.wallets, user, after);
    SeqPut(db.ledger, w.ledger, row);
  }

  lemma AloneReward(db: Db, t: Tx, c: Choice, p: nat, o: nat)
    requires t.pc == ReadEarned(p) && p in View(db, t.w).payments && View(db, t.w).payments[p].orderId == Some(o)
    requires o in View(db, t.w).orders
    ensures Alone(db, t, c) == Ending(t, p, Some(Result(Rewarded(View(db, t.w), o), true)))
  {
    var v := View(db, t.w);
    var t' := Exec(db, t, c).tx;
    AloneGoes(db, t, c, t');
    if t'.pc.Credit? {
      ExecCredit(db, t', c, o);
      AloneGoes(db, t', c, Exec(db, t', c).tx);
      AloneEnds(db, Exec(db, t', c).tx, c, p, Rewarded(v, o), true);
    } else {
      AloneEnds(db, t', c, p, v, true);
    }
  }

  lemma ExecProvision(db: Db, t: Tx, c: Choice, o: nat)
    requires t.pc.Provision? && t.pc.p in View(db, t.w).payments && View(db, t.w).payments[t.pc.p].orderId == Some(o)
    requires o in View(db, t.w).orders && c.subscription.Some?
    ensures Exec(db, t, c).Go?
    ensures var v, t' := View(db, t.w), Exec(db, t, c).tx;
            && t' == t.(pc := ReadEarned(t.pc.p), w := t'.w)
            && View(db, t'.w) == v.(orders := v.orders[o := v.orders[o].(subscriptionId := c.subscription)],
                                    provisions := v.provisions + [o])
  {
    var t' := Exec(db, t, c).tx;
    MapPut(db.orders, t.w.orders, o, t'.w.orders[o]);
    SeqPut(db.provisions, t.w.provisions, o);
  }

  lemma AloneProvision(db: Db, t: Tx, c: Choice, p: nat, o: nat)
    requires t.pc == Provision(p) && p in View(db, t.w).payments && View(db, t.w).payments[p].orderId == Some(o)
    requires o in View(db, t.w).orders
    ensures var out := Provisioned(View(db, t.w), o, c.subscription);
            Alone(db, t, c) == Ending(t, p, if out.None? then None else Some(Result(out.value, true)))
  {
    if c.subscription.Some? {
      ExecProvision(db, t, c, o);
      var t' := Exec(db, t, c).tx;
      AloneGoes(db, t, c, t');
      AloneReward(db, t', c, p, o);
    } else {
      AloneThrows(db, t, c);
    }
  }

  lemma ExecClaimOrder(db: Db, t: Tx, c: Choice, o: nat)
    requires t.pc.ClaimOrder? && t.pc.p in View(db, t.w).payments && View(db, t.w).payments[t.pc.p].orderId == Some(o)
    requires o in View(db, t.w).orders && View(db, t.w).orders[o].status.Pending?
    ensures Exec(db, t, c).Go?
    ensures var v, t' := View(db, t.w), Exec(db, t, c).tx;
            && t' == t.(pc := Provision(t.pc.p), w := t'.w)
            && View(db, t'.w) == v.(orders := v.orders[o := v.orders[o].(status := OrderStatus.Completed)])
  {
    MapPut(db.orders, t.w.orders, o, Exec(db, t, c).tx.w.orders[o]);
  }

  lemma AloneComplete(db: Db, t: Tx, c: Choice, p: nat, o: nat)
    requires t.pc == ReadOrder(p) && p in View(db, t.w).payments && View(db, t.w).payments[p].orderId == Some(o)
    ensures Alone(db, t, c) == Ending(t, p, OrderCompleted(View(db, t.w), o, c.subscription))
  {
    var v := View(db, t.w);
    if o !in v.orders {
      AloneThrows(db, t, c);
    } else if v.orders[o].status.Completed? {
      AloneGoes(db, t, c, t.(pc := Done(p, false)));
      AloneEnds(db, t.(pc := Done(p, false)), c, p, v, false);
    } else {
      var t1 := t.(pc := ClaimOrder(p));
      AloneGoes(db, t, c, t1);
      if v.orders[o].status.Pending? {
        ExecClaimOrder(db, t1, c, o);
        AloneGoes(db, t1, c, Exec(db, t1, c).tx);
        AloneProvision(db, Exec(db, t1, c).tx, c, p, o);
      } else {
        AloneThrows(db, t1, c);
      }
    }
  }

  lemma AloneEffect(db: Db, t: Tx, c: Choice, p: nat)
    requires p in View(db, t.w).payments && t.pc == AfterClaim(View(db, t.w).payments[p], p)
    ensures Alone(db, t, c) == Ending(t, p, Effected(View(db, t.w), p, c.subscription))
  {
    match View(db, t.w).payments[p].orderId
    case Some(o) => AloneComplete(db, t, c, p, o);
    case None => AloneTopUp(db, t, c, p);
  }

  lemma ExecClaimPayment(db: Db, t: Tx, c: Choice, p: nat)
    requires t.pc == ClaimPayment(p) && p in View(db, t.w).payments && View(db, t.w).payments[p].status.Open()
    ensures Exec(db, t, c).Go?
    ensures var v, t' := View(db, t.w), Exec(db, t, c).tx;
            && t' == t.(pc := AfterClaim(v.payments[p], p), w := t'.w)
            && View(db, t'.w) == v.(payments := v.payments[p := v.payments[p].(status := Confirmed)])
  {
    MapPut(db.payments, t.w.payments, p, Exec(db, t, c).tx.w.payments[p]);
  }

  /** The statements from reading the payment on are `settlePaymentInTransaction`. */
  lemma AloneSettles(db: Db, t: Tx, c: Choice, p: nat)
    requires t.pc == ReadPayment(p)
    ensures Alone(db, t, c) == Ending(t, p, Settled(View(db, t.w), p, c.subscription))
  {
    var v := View(db, t.w);
    if p !in v.payments {
      AloneThrows(db, t, c);
    } else if v.payments[p].status.Confirmed? {
      var t1 := t.(pc := AfterClaim(v.payments[p], p));
      AloneGoes(db, t, c, t1);
      AloneEffect(db, t1, c, p);
    } else {
      var t1 := t.(pc := ClaimPayment(p));
      AloneGoes(db, t, c, t1);
      if v.payments[p].status.Open() {
        ExecClaimPayment(db, t1, c, p);
        AloneGoes(db, t1, c, Exec(db, t1, c).tx);
        AloneEffect(db, Exec(db, t1, c).tx, c, p);
      } else {
        AloneThrows(db, t1, c);
      }
    }
  }

  // ---- whole requests ----

  function Filed(out: Option<Result>, p: nat, fromWallet: bool): Option<Result> {
    if out.None? then None else Some(Reports(out.value, p, fromWallet))
  }

  function Decided(db: Db, p: nat, approve: bool, subscription: Option<nat>): Option<Result> {
    var decision := if approve then Approved else ReceiptStatus.Rejected;
    if p !in db.receipts then None
    else if db.receipts[p].Pending? then
      var v := db.(receipts := db.receipts[p := decision]);
      if approve then Filed(Settled(v, p, subscription), p, false)
      else if p in v.payments && v.payments[p].status.Open() then
        Some(Result(v.(payments := v.payments[p := v.payments[p].(status := PaymentStatus.Rejected)]), false))
      else None
    else if db.receipts[p] != decision then None
    else if approve then Filed(Settled(db, p, subscription), p, false)
    else Some(Result(db, false))
  }

  function PaidFromWallet(db: Db, o: nat, user: nat, newPayment: nat, subscription: Option<nat>): Option<Result> {
    if o !in db.orders || db.orders[o].userId != user || !db.orders[o].status.Pending? then None
    else
      var total := db.orders[o].total;
      var v := db.(payments := db.payments[newPayment := Payment(Some(o), user, Wallet, total, PaymentStatus.Pending)]);
      var debited := Mutate(v, user, Purchase, total, false, newPayment, Some(o));
      if debited.None? then None else Filed(Settled(debited.value, newPayment, subscription), newPayment, true)
  }

  function Handled(db: Db, request: Request, c: Choice): Option<Result> {
    match request
    case Confirm(p) => Filed(Settled(db, p, c.subscription), p, false)
    case Approve(p) => Decided(db, p, true, c.subscription)
    case Reject(p) => Decided(db, p, false, c.subscription)
    case PayFromWallet(o, user) => PaidFromWallet(db, o, user, c.newPayment, c.subscription)
  }

  lemma ViewOfNothing(db: Db)
    ensures View(db, NO_WRITES) == db
  {
    assert db.ledger + [] == db.ledger && db.provisions + [] == db.provisions;
  }

  lemma AloneDecides(db: Db, t: Tx, c: Choice, p: nat)
    requires t.pc == Start && t.w == NO_WRITES && (t.request == Approve(p) || t.request == Reject(p))
    ensures Alone(db, t, c) == Decided(db, p, t.request.Approve?, c.subscription)
  {
    ViewOfNothing(db);
    if p !in db.receipts {
      AloneThrows(db, t, c);
    } else if db.receipts[p].Pending? {
      var t1 := t.(pc := ClaimReceipt(p));
      AloneGoes(db, t, c, t1);
      AloneClaimsReceipt(db, t1, c, p);
    } else if t.request.Approve? && db.receipts[p].Approved? {
      AloneGoes(db, t, c, t.(pc := ReadPayment(p)));
      AloneSettles(db, t.(pc := ReadPayment(p)), c, p);
    } else if t.request.Reject? && db.receipts[p].Rejected? {
      AloneGoes(db, t, c, t.(pc := Declined));
    } else {
      AloneThrows(db, t, c);
    }
  }

  lemma AloneClaimsReceipt(db: Db, t: Tx, c: Choice, p: nat)
    requires t.pc == ClaimReceipt(p) && t.w == NO_WRITES && (t.request == Approve(p) || t.request == Reject(p))
    requires p in db.receipts && db.receipts[p].Pending?
    ensures Alone(db, t, c) == Decided(db, p, t.request.Approve?, c.subscription)
  {
    ViewOfNothing(db);
    var t2 := Exec(db, t, c).tx;
    AloneGoes(db, t, c, t2);
    var v := db.(receipts := db.receipts[p := if t.request.Approve? then Approved else ReceiptStatus.Rejected]);
    assert View(db, t2.w) == v;
    if t.request.Approve? {
      AloneSettles(db, t2, c, p);
    } else if p in v.payments && v.payments[p].status.Open() {
      var t3 := Exec(db, t2, c).tx;
      AloneGoes(db, t2, c, t3);
      assert View(db, t3.w) == v.(payments := v.payments[p := v.payments[p].(status := PaymentStatus.Rejected)]);
    } else {
      AloneThrows(db, t2, c);
    }
  }

  lemma ExecStartsWalletPayment(db: Db, t: Tx, c: Choice, o: nat, user: nat)
    requires t == Tx(PayFromWallet(o, user), Start, NO_WRITES)
    requires o in db.orders && db.orders[o].userId == user && db.orders[o].status.Pending?
    ensures Exec(db, t, c).Go?
    ensures var t' := Exec(db, t, c).tx;
            && t' == t.(pc := Debit(c.newPayment), w := t'.w)
            && View(db, t'.w) == db.(payments := db.payments[c.newPayment :=
                 Payment(Some(o), user, Wallet, db.orders[o].total, PaymentStatus.Pending)])
  {
    ViewOfNothing(db);
  }

  lemma ExecDebits(db: Db, t: Tx, c: Choice, p: nat)
    requires t.pc == Debit(p) && p in View(db, t.w).payments
    ensures var payment := View(db, t.w).payments[p];
            var out := Mutate(View(db, t.w), payment.userId, Purchase, payment.amount, false, p, payment.orderId);
            if out.None? then Exec(db, t, c) == Throw
            else
              && Exec(db, t, c).Go?
              && var t' := Exec(db, t, c).tx;
                 t' == t.(pc := ReadPayment(p), w := t'.w) && View(db, t'.w) == out.value
  {
    var payment := View(db, t.w).payments[p];
    MutatesView(db, t.w, payment.userId, Purchase, payment.amount, false, p, payment.orderId);
  }

  lemma AlonePaysFromWallet(db: Db, t: Tx, c: Choice, o: nat, user: nat)
    requires t == Tx(PayFromWallet(o, user), Start, NO_WRITES)
    ensures Alone(db, t, c) == PaidFromWallet(db, o, user, c.newPayment, c.subscription)
  {
    ViewOfNothing(db);
    if o !in db.orders || db.orders[o].userId != user || !db.orders[o].status.Pending? {
      AloneThrows(db, t, c);
    } else {
      ExecStartsWalletPayment(db, t, c, o, user);
      var t1 := Exec(db, t, c).tx;
      AloneGoes(db, t, c, t1);
      ExecDebits(db, t1, c, c.newPayment);
      if Exec(db, t1, c).Throw? {
        AloneThrows(db, t1, c);
      } else {
        var t2 := Exec(db, t1, c).tx;
        AloneGoes(db, t1, c, t2);
        AloneSettles(db, t2, c, c.newPayment);
      }
    }
  }

  /** Each entry point is the machine's transaction for that request, run alone. */
  lemma AloneHandles(db: Db, request: Request, c: Choice)
    ensures Alone(db, Tx(request, Start, NO_WRITES), c) == Handled(db, request, c)
  {
    var t := Tx(request, Start, NO_WRITES);
    match request
    case Confirm(p) =>
      ViewOfNothing(db);
      AloneGoes(db, t, c, t.(pc := ReadPayment(p)));
      AloneSettles(db, t.(pc := ReadPayment(p)), c, p);
    case Approve(p) => AloneDecides(db, t, c, p);
    case Reject(p) => AloneDecides(db, t, c, p);
    case PayFromWallet(o, user) => AlonePaysFromWallet(db, t, c, o, user);
  }

  // ---- claims that come late ----

  /** A transaction whose claim finds the payment changed since it was read ends as one that reads it
      only now: settled by somebody else counts as settled. */
  lemma LateClaimRereads(db: Db, t: Tx, c: Choice, p: nat)
    requires t.pc == ClaimPayment(p)
    ensures Alone(db, t, c) == Ending(t, p, Settled(View(db, t.w), p, c.subscription))
  {
    var v, early := View(db, t.w), t.(pc := ReadPayment(p));
    AloneSettles(db, early, c, p);
    if p !in v.payments {
      AloneThrows(db, t, c);
    } else if v.payments[p].status.Confirmed? {
      AloneGoes(db, t, c, t.(pc := AfterClaim(v.payments[p], p)));
      AloneGoes(db, early, c, t.(pc := AfterClaim(v.payments[p], p)));
    } else {
      AloneGoes(db, early, c, t);
    }
  }

  /** So it is with the claim of the order. */
  lemma LateOrderClaimRereads(db: Db, t: Tx, c: Choice, p: nat, o: nat)
    requires t.pc == ClaimOrder(p) && p in View(db, t.w).payments && View(db, t.w).payments[p].orderId == Some(o)
    ensures Alone(db, t, c) == Ending(t, p, OrderCompleted(View(db, t.w), o, c.subscription))
  {
    var v, early := View(db, t.w), t.(pc := ReadOrder(p));
    AloneComplete(db, early, c, p, o);
    if o !in v.orders {
      AloneThrows(db, t, c);
    } else if v.orders[o].status.Completed? {
      AloneGoes(db, t, c, t.(pc := Done(p, false)));
      AloneGoes(db, early, c, t.(pc := Done(p, false)));
    } else {
      AloneGoes(db, early, c, t);
    }
  }
}
