/** The code keeps its promises: when each entry point succeeds, and what it leaves then. */
module SettlementOutcomes {
  import opened Options
  import opened Tables
  import opened SettlementSteps
  import opened SettlementAlone
  import opened SettlementPromises

  // ---- wallets ----

  lemma KeyedIff(ledger: seq<LedgerRow>, p: nat)
    ensures Total(KeyedBy(p), ledger) > 0 <==> IsKeyed(ledger, p)
  {
    CountedRowExists(KeyedBy(p), ledger);
    forall r <- ledger ensures Weight(KeyedBy(p), r) > 0 <==> r.paymentId == Some(p) {}
  }

  /** A wallet change is refused exactly if it is an uncovered debit with a new key. */
  lemma MutateOutcome(v: Db, user: nat, kind: TxnKind, amount: int, credit: bool, p: nat, order: Option<nat>)
    ensures var out := Mutate(v, user, kind, amount, credit, p, order);
            && (out.None? <==> !credit && v.Balance(user) < amount && !IsKeyed(v.ledger, p))
            && (out.Some? ==> MovesOnce(v, out.value, user, kind, if credit then amount else -amount, amount, p, order))
  {
    KeyedIff(v.ledger, p);
  }

  // ---- commissions ----

  /** There is one greatest commission, and it is positive if a single unit may be earned. */
  lemma GreatestIsUnique(db: Db, referrer: nat, total: int, a: int, b: int)
    requires IsGreatestCommission(db, referrer, total, a) && IsGreatestCommission(db, referrer, total, b)
    ensures a == b && (a > 0 <==> MayEarn(db, referrer, total, 1))
  {
  }

  lemma CommissionIsGreatest(db: Db, referrer: nat, total: int)
    requires db.settings.referralEnabled && 0 < db.settings.commissionPercent <= 100
    ensures IsGreatestCommission(db, referrer, total, Commission(total, db.settings, db.Sum(EarnedBy(referrer))))
  {
    ShareIsGreatest(total, db.settings.commissionPercent);
  }

  lemma ShareIsGreatest(total: int, percent: int)
    ensures var share := total * percent / 100;
            share * 100 <= total * percent < (share + 1) * 100
  {
  }

  /** What is credited for an order is the greatest commission allowed. */
  lemma RewardOutcome(v: Db, o: nat)
    requires o in v.orders
    ensures PaysCommission(v, Rewarded(v, o), o, v.orders[o].userId, v.orders[o].total)
  {
    var user, total := v.orders[o].userId, v.orders[o].total;
    if EarnsCommission(v, user, total) {
      var referrer := v.referrers[user];
      CommissionIsGreatest(v, referrer, total);
      var commission := Commission(total, v.settings, v.Sum(EarnedBy(referrer)));
      GreatestIsUnique(v, referrer, total, commission, commission);
    }
  }

  // ---- orders ----

  lemma OrderOutcome(v: Db, o: nat, subscription: Option<nat>)
    ensures var out := OrderCompleted(v, o, subscription);
            && (out.Some? <==> IsPayable(v, o, subscription))
            && (out.Some? ==> CompletesOrder(v, out.value.db, o, subscription)
                              && out.value.settled == (v.orders[o].status == OrderStatus.Pending))
  {
    if o in v.orders && v.orders[o].status.Pending? && subscription.Some? {
      var order := v.orders[o];
      var claimed := v.orders[o := order.(status := OrderStatus.Completed)];
      var completed := v.orders[o := Order(order.userId, order.total, OrderStatus.Completed, subscription)];
      assert claimed[o := claimed[o].(subscriptionId := subscription)] == completed;
      RewardOutcome(v.(orders := completed, provisions := v.provisions + [o]), o);
    }
  }

  // ---- payments ----

  lemma SettleOutcome(v: Db, p: nat, subscription: Option<nat>)
    ensures var out := Settled(v, p, subscription);
            && (out.Some? <==> MaySettle(v, p, subscription))
            && (out.Some? ==> Settles(v, out.value.db, p, subscription) && out.value.settled == Moves(v, p))
  {
    if p in v.payments {
      var payment := v.payments[p];
      var confirmed := v.(payments := v.payments[p := payment.(status := Confirmed)]);
      assert payment.status == Confirmed ==> confirmed == v by {
        assert payment.status == Confirmed ==> confirmed.payments == v.payments;
      }
      match payment.orderId
      case Some(o) =>
        OrderOutcome(confirmed, o, subscription);
      case None =>
        KeyedIff(v.ledger, p);
        MutateOutcome(confirmed, payment.userId, Deposit, payment.amount, true, p, None);
    }
  }

  lemma FiledOutcome(v: Db, p: nat, subscription: Option<nat>)
    ensures var out := Filed(Settled(v, p, subscription), p, false);
            && (out.Some? <==> MaySettle(v, p, subscription))
            && (out.Some? ==> SettlesAndReports(v, out.value.db, p, subscription, false)
                              && out.value.settled == Moves(v, p))
  {
    SettleOutcome(v, p, subscription);
  }

  /** A confirmation succeeds exactly for a payment that is undecided or confirmed, whose order, if it
      has one, is completed or is pending and gets a subscription. */
  lemma ConfirmOutcome(db: Db, p: nat, c: Choice)
    ensures var out := Handled(db, Confirm(p), c);
            && (out.Some? <==> MaySettle(db, p, c.subscription))
            && (out.Some? ==> SettlesAndReports(db, out.value.db, p, c.subscription, false)
                              && out.value.settled == Moves(db, p))
  {
    FiledOutcome(db, p, c.subscription);
  }

  // ---- receipts ----

  lemma ApproveOutcome(db: Db, p: nat, c: Choice)
    ensures var out := Handled(db, Approve(p), c);
            && (out.Some? <==> MayApprove(db, p, c.subscription))
            && (out.Some? ==> Approves(db, out.value.db, p, c.subscription) && out.value.settled == Moves(db, p))
  {
    if p in db.receipts {
      var v := db.(receipts := db.receipts[p := Approved]);
      assert db.receipts[p] == Approved ==> v.receipts == db.receipts;
      FiledOutcome(v, p, c.subscription);
    }
  }

  lemma RejectOutcome(db: Db, p: nat, c: Choice)
    ensures var out := Handled(db, Reject(p), c);
            && (out.Some? <==> MayReject(db, p))
            && (out.Some? ==> Rejects(db, out.value.db, p) && !out.value.settled)
  {
  }

  // ---- paying from the wallet ----

  lemma ConfirmedIsDebited(db: Db, o: nat, user: nat, p: nat, payment: Payment, d: Db)
    requires o in db.orders && payment == Payment(Some(o), user, Wallet, db.orders[o].total, PaymentStatus.Pending)
    requires Mutate(db.(payments := db.payments[p := payment]), user, Purchase, payment.amount, false, p, Some(o))
      == Some(d)
    ensures p in d.payments && d.payments[p] == payment
    ensures d.(payments := d.payments[p := payment.(status := Confirmed)]) == Debited(db, o, user, p)
  {
    KeyedIff(db.ledger, p);
    assert db.payments[p := payment][p := payment.(status := Confirmed)]
      == db.payments[p := payment.(status := Confirmed)];
  }

  /** Paying from the wallet succeeds exactly for a pending order of the caller that the balance covers
      and that gets a subscription. */
  lemma WalletOutcome(db: Db, o: nat, user: nat, c: Choice)
    requires c.newPayment !in db.payments
    ensures var out := Handled(db, PayFromWallet(o, user), c);
            && (out.Some? <==> MayPay(db, o, user, c.newPayment, c.subscription))
            && (out.Some? ==> PaysOrder(db, out.value.db, o, user, c.newPayment, c.subscription)
                              && out.value.settled)
  {
    if o in db.orders && db.orders[o].userId == user && db.orders[o].status.Pending? {
      var total := db.orders[o].total;
      var payment := Payment(Some(o), user, Wallet, total, PaymentStatus.Pending);
      var v := db.(payments := db.payments[c.newPayment := payment]);
      MutateOutcome(v, user, Purchase, total, false, c.newPayment, Some(o));
      var debited := Mutate(v, user, Purchase, total, false, c.newPayment, Some(o));
      if debited.Some? {
        SettleOutcome(debited.value, c.newPayment, c.subscription);
        ConfirmedIsDebited(db, o, user, c.newPayment, payment, debited.value);
      }
    }
  }
}
