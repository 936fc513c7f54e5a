/** The settlement code as it is written, over tables updated in place. */
module SettlementService {
  import opened Options
  import opened Tables
  import opened SettlementSteps
  import opened SettlementMachine
  import opened SettlementAlone
  import opened SettlementPromises
  import opened SettlementOutcomes
  import Money
  import Plans

  // ---- the services ----

  /** The tables between transactions. */
  function Quiet(db: Db): State {
    State(db, map[], map[], map[])
  }

  /** What a gateway answers: the status of the callback, and then of its verification. */
  datatype Answer = NotOk | Verified | Refused | Undecided

  /** The payments service, with the parts of the orders and wallet services it works with, over the
      tables they share. */
  class PaymentsService {
    var payments: map<nat, Payment>
    var orders: map<nat, Order>
    var receipts: map<nat, ReceiptStatus>
    var wallets: map<nat, int>
    var ledger: seq<LedgerRow>
    var provisions: seq<nat>
    var reports: seq<Report>
    const referrers: map<nat, nat>
    const settings: Settings

    constructor (referrers: map<nat, nat>, settings: Settings)
      ensures Rows() == EMPTY_DB.(referrers := referrers, settings := settings)
    {
      payments, orders, receipts, wallets := map[], map[], map[], map[];
      ledger, provisions, reports := [], [], [];
      this.referrers, this.settings := referrers, settings;
    }

    function Rows(): Db
      reads this
    {
      Db(payments, orders, receipts, wallets, ledger, provisions, reports, referrers, settings)
    }

    /** Puts back the rows that a transaction started from. */
    method Rollback(before: Db)
      requires before.referrers == referrers && before.settings == settings
      modifies this
      ensures Rows() == before
    {
      payments, orders, receipts, wallets := before.payments, before.orders, before.receipts, before.wallets;
      ledger, provisions, reports := before.ledger, before.provisions, before.reports;
    }

    method MutateBalance(user: nat, kind: TxnKind, amount: int, credit: bool, p: nat, order: Option<nat>)
      returns (ok: bool)
      modifies this
      ensures var out := Mutate(old(Rows()), user, kind, amount, credit, p, order);
              if ok then out == Some(Rows()) else out == None
      ensures ok == (credit || amount <= old(Rows()).Balance(user) || IsKeyed(old(ledger), p))
      ensures ok ==>
        MovesOnce(old(Rows()), Rows(), user, kind, if credit then amount else -amount, amount, p, order)
      ensures !ok ==> Rows() == old(Rows()).(wallets := old(wallets)[user := old(Rows()).Balance(user)])
    {
      MutateOutcome(Rows(), user, kind, amount, credit, p, order);
      if user !in wallets {
        wallets := wallets[user := 0];
      }
      ok := true;
      var current := wallets[user];
      var existing := Total(KeyedBy(p), ledger);
      if existing > 0 {
        assert wallets == old(wallets)[user := current];
        return;
      }
      var after := current;
      if credit {
        after := current + amount;
      } else {
        if current < amount {
          ok := false;
          return;
        }
        after := current - amount;
      }
      ledger := ledger + [LedgerRow(user, kind, amount, current, after, Some(p), order, NO_TERMS)];
      wallets := wallets[user := after];
      assert wallets == old(wallets)[user := after];
    }

    method CreditReferralCommission(o: nat)
      requires o in orders
      modifies this
      ensures Rows() == Rewarded(old(Rows()), o)
      ensures PaysCommission(old(Rows()), Rows(), o, old(orders)[o].userId, old(orders)[o].total)
    {
      RewardOutcome(Rows(), o);
      var order := orders[o];
      if order.total <= 0 || order.userId !in referrers {
        return;
      }
      var referrer := referrers[order.userId];
      if !settings.referralEnabled {
        return;
      }
      var percent := settings.commissionPercent;
      if percent <= 0 || percent > 100 {
        return;
      }
      var commission := order.total * percent / 100;
      if settings.maxBonus > 0 {
        var earned := Total(EarnedBy(referrer), ledger);
        if settings.maxBonus - earned < commission {
          commission := settings.maxBonus - earned;
        }
      }
      if commission <= 0 {
        return;
      }
      if referrer !in wallets {
        wallets := wallets[referrer := 0];
      }
      wallets := wallets[referrer := wallets[referrer] + commission];
      assert wallets == old(wallets)[referrer := wallets[referrer]];
      var after := wallets[referrer];
      var terms := Terms(percent, Total(EarnedBy(referrer), ledger), settings.maxBonus);
      ledger := ledger +
        [LedgerRow(referrer, ReferralReward, commission, after - commission, after, None, Some(o), terms)];
    }

    /** `subscription` is what provisioning returns, `None` when it throws. */
    method CompleteOrder(o: nat, subscription: Option<nat>) returns (ok: bool, provisioningRequired: bool)
      modifies this
      ensures var out := OrderCompleted(old(Rows()), o, subscription);
              if ok then out == Some(Result(Rows(), provisioningRequired)) else out == None
      ensures ok == IsPayable(old(Rows()), o, subscription)
      ensures ok ==> CompletesOrder(old(Rows()), Rows(), o, subscription)
      ensures ok ==> provisioningRequired == (old(orders)[o].status == OrderStatus.Pending)
    {
      OrderOutcome(Rows(), o, subscription);
      ok, provisioningRequired := false, false;
      if o !in orders {
        return;
      }
      if orders[o].status.Completed? {
        ok := true;
        return;
      }
      var count := 0;
      if orders[o].status.Pending? {
        orders := orders[o := orders[o].(status := OrderStatus.Completed)];
        count := 1;
      }
      if count == 0 {
        ok := orders[o].status.Completed?;
        return;
      }
      if subscription.None? {
        return;
      }
      provisions := provisions + [o];
      orders := orders[o := orders[o].(subscriptionId := subscription)];
      CreditReferralCommission(o);
      ok, provisioningRequired := true, true;
    }

    method SettlePayment(p: nat, subscription: Option<nat>) returns (ok: bool, settled: bool)
      modifies this
      ensures var out := Settled(old(Rows()), p, subscription);
              if ok then out == Some(Result(Rows(), settled)) else out == None
      ensures ok ==> p in payments
      ensures ok == MaySettle(old(Rows()), p, subscription)
      ensures ok ==> Settles(old(Rows()), Rows(), p, subscription) && settled == Moves(old(Rows()), p)
    {
      SettleOutcome(Rows(), p, subscription);
      ok, settled := false, false;
      if p !in payments {
        return;
      }
      if !payments[p].status.Confirmed? {
        var count := 0;
        if payments[p].status.Open() {
          payments := payments[p := payments[p].(status := Confirmed)];
          count := 1;
        }
        if count != 1 {
          return;
        }
      }
      match payments[p].orderId {
        case Some(o) =>
          ok, settled := CompleteOrder(o, subscription);
        case None =>
          var existing := Total(KeyedBy(p), ledger);
          ok := MutateBalance(payments[p].userId, Deposit, payments[p].amount, true, p, None);
          settled := !(existing > 0);
      }
    }

    /** The audit row of a settlement that moved something. */
    method FinishSettlement(p: nat, settled: bool, fromWallet: bool)
      requires settled ==> p in payments
      modifies `reports
      ensures Result(Rows(), settled) == Reports(Result(old(Rows()), settled), p, fromWallet)
    {
      if settled {
        reports := reports + [Report(p, payments[p].orderId, fromWallet)];
      }
    }

    method ConfirmPayment(p: nat, subscription: Option<nat>) returns (ok: bool, settled: bool)
      modifies this
      ensures var ending := Alone(old(Rows()), Tx(Confirm(p), Start, NO_WRITES), Choice(0, subscription));
              if ok then ending == Some(Result(Rows(), settled)) else ending == None && Rows() == old(Rows())
      ensures ok == MaySettle(old(Rows()), p, subscription)
      ensures ok ==>
        SettlesAndReports(old(Rows()), Rows(), p, subscription, false) && settled == Moves(old(Rows()), p)
    {
      ConfirmOutcome(Rows(), p, Choice(0, subscription));
      var before := Rows();
      ok, settled := SettlePayment(p, subscription);
      if ok {
        FinishSettlement(p, settled, false);
      } else {
        Rollback(before);
      }
      AloneHandles(before, Confirm(p), Choice(0, subscription));
    }

    method VerifyReceipt(p: nat, approve: bool, subscription: Option<nat>) returns (ok: bool, settled: bool)
      modifies this
      ensures var request := if approve then Approve(p) else Reject(p);
              var ending := Alone(old(Rows()), Tx(request, Start, NO_WRITES), Choice(0, subscription));
              if ok then ending == Some(Result(Rows(), settled)) else ending == None && Rows() == old(Rows())
      ensures ok == if approve then MayApprove(old(Rows()), p, subscription) else MayReject(old(Rows()), p)
      ensures ok && approve ==>
        Approves(old(Rows()), Rows(), p, subscription) && settled == Moves(old(Rows()), p)
      ensures ok && !approve ==> Rejects(old(Rows()), Rows(), p) && !settled
    {
      ApproveOutcome(Rows(), p, Choice(0, subscription));
      RejectOutcome(Rows(), p, Choice(0, subscription));
      var before := Rows();
      ok, settled := Decide(p, approve, subscription);
      if ok {
        FinishSettlement(p, settled, false);
      } else {
        Rollback(before);
      }
      AloneHandles(before, if approve then Approve(p) else Reject(p), Choice(0, subscription));
    }

    /** The transaction of `VerifyReceipt`. */
    method Decide(p: nat, approve: bool, subscription: Option<nat>) returns (ok: bool, settled: bool)
      modifies this
      ensures ok && settled ==> p in payments
      ensures var out := Decided(old(Rows()), p, approve, subscription);
              if ok then out == Some(Reports(Result(Rows(), settled), p, false)) else out == None
    {
      ok, settled := false, false;
      if p !in receipts {
        return;
      }
      var decision := if approve then Approved else ReceiptStatus.Rejected;
      if !receipts[p].Pending? {
        if receipts[p] != decision {
          return;
        }
        ok := true;
        if approve {
          ok, settled := SettlePayment(p, subscription);
        }
        return;
      }
      receipts := receipts[p := decision];
      if approve {
        ok, settled := SettlePayment(p, subscription);
      } else if p in payments && payments[p].status.Open() {
        payments := payments[p := payments[p].(status := PaymentStatus.Rejected)];
        ok := true;
      }
    }

    method PayOrderWithWallet(o: nat, user: nat, newPayment: nat, subscription: Option<nat>)
      returns (ok: bool, settled: bool)
      requires newPayment !in payments
      modifies this
      ensures var t := Tx(PayFromWallet(o, user), Start, NO_WRITES);
              var ending := Alone(old(Rows()), t, Choice(newPayment, subscription));
              if ok then ending == Some(Result(Rows(), settled)) else ending == None && Rows() == old(Rows())
      ensures ok == MayPay(old(Rows()), o, user, newPayment, subscription)
      ensures ok ==> PaysOrder(old(Rows()), Rows(), o, user, newPayment, subscription) && settled
    {
      var before := Rows();
      ok, settled := Charge(o, user, newPayment, subscription);
      if ok {
        FinishSettlement(newPayment, settled, true);
      } else {
        Rollback(before);
      }
      AloneHandles(before, PayFromWallet(o, user), Choice(newPayment, subscription));
      WalletOutcome(before, o, user, Choice(newPayment, subscription));
    }

    /** The transaction of `PayOrderWithWallet`. */
    method Charge(o: nat, user: nat, newPayment: nat, subscription: Option<nat>) returns (ok: bool, settled: bool)
      modifies this
      ensures ok && settled ==> newPayment in payments
      ensures var out := PaidFromWallet(old(Rows()), o, user, newPayment, subscription);
              if ok then out == Some(Reports(Result(Rows(), settled), newPayment, true)) else out == None
    {
      ok, settled := false, false;
      if o !in orders || orders[o].userId != user || !orders[o].status.Pending? {
        return;
      }
      var total := orders[o].total;
      payments := payments[newPayment := Payment(Some(o), user, Wallet, total, PaymentStatus.Pending)];
      ok := MutateBalance(user, Purchase, total, false, newPayment, Some(o));
      if ok {
        ok, settled := SettlePayment(newPayment, subscription);
      }
    }

    // ---- the entry points that make single updates ----

    /** An order at the plan's price; `factor` is the discount in thousandths of a percent. */
    method CreateOrder(o: nat, user: nat, price: nat, factor: int, quantity: nat)
      requires o !in orders
      modifies `orders
      ensures Quiet(Rows()) ==
        Apply(old(Quiet(Rows())), Action.CreateOrder(o, user, Plans.Price(price, factor, quantity).totalAmount))
      ensures var total := Plans.PriceMinor(price, factor) * quantity;
              orders == old(orders)[o := Order(user, total, OrderStatus.Pending, None)]
    {
      var unitPrice := Plans.PriceMinor(price, factor);
      orders := orders[o := Order(user, unitPrice * quantity, OrderStatus.Pending, None)];
    }

    /** The digits of the printed total, read as an amount. */
    static method PrintedAmount(total: int) returns (amount: int)
      ensures amount == if total < 0 then -total else total
    {
      amount := Money.Amount(Money.FromMinor(total, 2));
      Money.AmountOfPrinted(total, 2);
    }

    method InitiateWalletDeposit(p: nat, user: nat, amount: string, via: Method)
      requires p !in payments
      modifies `payments
      ensures Quiet(Rows()) == Apply(old(Quiet(Rows())), InitiateDeposit(p, user, Money.Amount(amount), via))
      ensures payments == old(payments)[p := Payment(None, user, via, Money.Amount(amount), PaymentStatus.Pending)]
    {
      payments := payments[p := Payment(None, user, via, Money.Amount(amount), PaymentStatus.Pending)];
    }

    method Initiate(p: nat, o: nat, user: nat, via: Method) returns (ok: bool)
      requires p !in payments
      modifies `payments
      ensures ok == (o in orders && orders[o].userId == user && orders[o].status.Pending?)
      ensures Quiet(Rows()) == if ok then Apply(old(Quiet(Rows())), Action.Initiate(p, o, via)) else old(Quiet(Rows()))
      ensures !ok ==> payments == old(payments)
      ensures ok ==>
        var amount := if orders[o].total < 0 then -orders[o].total else orders[o].total;
        payments == old(payments)[p := Payment(Some(o), user, via, amount, PaymentStatus.Pending)]
    {
      if o !in orders || orders[o].userId != user || !orders[o].status.Pending? {
        return false;
      }
      var amount := PrintedAmount(orders[o].total);
      payments := payments[p := Payment(Some(o), user, via, amount, PaymentStatus.Pending)];
      return true;
    }

    /** Inserts the receipt, which the unique key refuses a second time, and then moves the payment,
        whatever its status is. */
    method SubmitReceipt(p: nat, user: nat) returns (ok: bool)
      modifies `receipts, `payments
      ensures ok == old(p in payments && payments[p].userId == user && payments[p].via.CardToCard? && p !in receipts)
      ensures Quiet(Rows()) == Apply(Apply(old(Quiet(Rows())), UploadReceipt(0, p, user)), FinishUpload(0))
      ensures !ok ==> Rows() == old(Rows())
      ensures ok ==>
        && receipts == old(receipts)[p := ReceiptStatus.Pending]
        && payments == old(payments)[p := old(payments)[p].(status := AwaitingVerify)]
    {
      if p !in payments || payments[p].userId != user || !payments[p].via.CardToCard? || p in receipts {
        return false;
      }
      receipts := receipts[p := ReceiptStatus.Pending];
      payments := payments[p := payments[p].(status := AwaitingVerify)];
      return true;
    }

    /** Closes a payment that is still open; returns how many rows changed. */
    method Close(p: nat, status: PaymentStatus) returns (count: nat)
      requires status == PaymentStatus.Cancelled || status == PaymentStatus.Rejected
      modifies `payments
      ensures Quiet(Rows()) == Apply(old(Quiet(Rows())), ClosePayment(p, status))
      ensures count == if old(p in payments && IsUndecided(payments[p].status)) then 1 else 0
      ensures payments ==
        if count == 1 then old(payments)[p := old(payments)[p].(status := status)] else old(payments)
    {
      count := 0;
      if p in payments && payments[p].status.Open() {
        payments := payments[p := payments[p].(status := status)];
        count := 1;
      }
    }

    method HandleOnlineCallback(p: nat, answer: Answer, subscription: Option<nat>) returns (ok: bool)
      modifies this
      ensures old(p !in payments) ==> !ok
      ensures answer.Verified? && old(p in payments) ==>
        var ending := Alone(old(Rows()), Tx(Confirm(p), Start, NO_WRITES), Choice(0, subscription));
        ok == ending.Some? && Rows() == (if ending.Some? then ending.value.db else old(Rows()))
      ensures answer.Verified? ==> ok == MaySettle(old(Rows()), p, subscription)
      ensures answer.Verified? && ok ==> SettlesAndReports(old(Rows()), Rows(), p, subscription, false)
      ensures !answer.Verified? ==> ok == (p in old(payments))
      ensures !answer.Verified? ==>
        Rows() == old(Rows()).(payments :=
          if answer.Undecided? || p !in old(payments) || !IsUndecided(old(payments)[p].status) then old(payments)
          else
            var status := if answer.NotOk? then PaymentStatus.Cancelled else PaymentStatus.Rejected;
            old(payments)[p := old(payments)[p].(status := status)])
      ensures answer.NotOk? ==> Quiet(Rows()) == Apply(old(Quiet(Rows())), ClosePayment(p, PaymentStatus.Cancelled))
      ensures answer.Refused? ==> Quiet(Rows()) == Apply(old(Quiet(Rows())), ClosePayment(p, PaymentStatus.Rejected))
      ensures answer.Undecided? ==> Rows() == old(Rows())
    {
      if p !in payments {
        return false;
      }
      ok := true;
      match answer {
        case NotOk => var _ := Close(p, PaymentStatus.Cancelled);
        case Refused => var _ := Close(p, PaymentStatus.Rejected);
        case Verified =>
          var settled;
          ok, settled := ConfirmPayment(p, subscription);
        case Undecided =>
      }
    }

    /** Reads the order and then writes it without a guard. */
    method Cancel(o: nat, user: nat) returns (ok: bool)
      modifies `orders
      ensures ok == old(o in orders && orders[o].userId == user && !orders[o].status.Completed?)
      ensures Quiet(Rows()) == Apply(Apply(old(Quiet(Rows())), ReadForCancel(0, o, user)), WriteCancel(0))
      ensures orders ==
        if ok then old(orders)[o := old(orders)[o].(status := OrderStatus.Cancelled)] else old(orders)
    {
      if o !in orders || orders[o].userId != user || orders[o].status.Completed? {
        return false;
      }
      if !orders[o].status.Cancelled? {
        orders := orders[o := orders[o].(status := OrderStatus.Cancelled)];
      }
      return true;
    }
  }
}
