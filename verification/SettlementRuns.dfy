/** Runs that exist: every entry point as its own run, and what a stale cancellation does. */
module SettlementRuns {
  import opened Options
  import opened Tables
  import opened SettlementSteps
  import opened SettlementMachine
  import opened SettlementAlone
  import opened SettlementPromises
  import opened SettlementOutcomes
  import opened SettlementInvariant
  import SettlementTheorems

  lemma RunSnoc(s: State, actions: seq<Action>, a: Action)
    ensures Run(s, actions + [a]) == Apply(Run(s, actions), a)
  {
    assert (actions + [a])[..|actions|] == actions;
  }

  lemma {:induction false} RunAppend(s: State, a: seq<Action>, b: seq<Action>)
    ensures Run(s, a + b) == Run(Run(s, a), b)
  {
    if b == [] {
      assert a + b == a;
    } else {
      assert (a + b)[..|a + b| - 1] == a + b[..|b| - 1];
      RunAppend(s, a, b[..|b| - 1]);
    }
  }

  lemma RunCons(s: State, a: Action, actions: seq<Action>)
    ensures Run(s, [a] + actions) == Run(Apply(s, a), actions)
  {
    RunAppend(s, [a], actions);
    RunSnoc(s, [], a);
    assert [] + [a] == [a];
  }

  /** A live transaction that has the tables to itself can run to its ending. */
  lemma {:induction false} RunsToEnding(s: State, tid: nat, t: Tx, c: Choice) returns (actions: seq<Action>)
    requires s.txs == map[tid := t]
    requires t.pc.Start? ==> c.newPayment !in s.db.payments && t.w == NO_WRITES
    ensures var ending := Alone(s.db, t, c);
            Run(s, actions) == s.(txs := map[], db := if ending.None? then s.db else ending.value.db)
    decreases Remaining(t.pc)
  {
    if Finished(t) {
      actions := [Commit(tid)];
      RunCons(s, Commit(tid), []);
    } else {
      var s' := Apply(s, Step(tid, c));
      match Exec(s.db, t, c)
      case Throw =>
        actions := [Step(tid, c)];
        assert s'.txs == map[];
        RunCons(s, Step(tid, c), []);
      case Go(t') =>
        ExecProgresses(s.db, t, c);
        assert s'.txs == map[tid := t'];
        var rest := RunsToEnding(s', tid, t', c);
        actions := [Step(tid, c)] + rest;
        RunCons(s, Step(tid, c), rest);
        AloneGoes(s.db, t, c, t');
    }
  }

  /** What each entry point does in place, the machine can do between other transactions. */
  lemma RequestIsARun(s: State, tid: nat, request: Request, c: Choice) returns (actions: seq<Action>)
    requires s.txs == map[] && c.newPayment !in s.db.payments
    ensures var out := Handled(s.db, request, c);
            Run(s, actions) == s.(db := if out.None? then s.db else out.value.db)
  {
    AloneHandles(s.db, request, c);
    var t := Tx(request, Start, NO_WRITES);
    assert Apply(s, Begin(tid, request)).txs == map[tid := t];
    var rest := RunsToEnding(Apply(s, Begin(tid, request)), tid, t, c);
    actions := [Begin(tid, request)] + rest;
    RunCons(s, Begin(tid, request), rest);
  }

  // ---- settling again ----

  /** Nothing but possibly a row for an empty wallet. */
  ghost predicate SameRows(db: Db, db': Db) {
    db' == db.(wallets := db'.wallets) && forall u: nat :: db'.Balance(u) == db.Balance(u)
  }

  /** Settling a confirmed payment again moves nothing and reports nothing to do, in every reachable
      state; it throws exactly when a cancellation overwrote the completed order, and then that order
      was provisioned all the same. */
  lemma SettledAgain(actions: seq<Action>, p: nat, subscription: Option<nat>)
    requires var db := Run(INIT, actions).db; p in db.payments && db.payments[p].status.Confirmed?
    ensures var db := Run(INIT, actions).db;
            var payment, again := db.payments[p], Settled(db, p, subscription);
            && (again.Some? ==> !again.value.settled && SameRows(db, again.value.db))
            && (payment.orderId.Some? ==> payment.orderId.value in db.orders)
            && (again.None? <==> payment.orderId.Some? && !db.orders[payment.orderId.value].status.Completed?)
            && (again.None? ==> db.Provisions(payment.orderId.value) == 1)
            && (SettlementTheorems.CleanRun(INIT, actions) ==> again.Some?)
  {
    SettlementTheorems.Reachable(actions);
    SettlementTheorems.ConfirmedPaymentHasEffect(actions, p);
    var db := Run(INIT, actions).db;
    assert PaymentOk(db, p);
    if db.payments[p].orderId.Some? {
      assert OrderOk(db, db.payments[p].orderId.value);
    }
  }

  // ---- paying from the wallet ----

  /** The identifier of a payment that does not exist yet carries no money. */
  lemma FreshPaymentIsUnused(actions: seq<Action>, p: nat)
    requires p !in Run(INIT, actions).db.payments
    ensures !IsKeyed(Run(INIT, actions).db.ledger, p)
  {
    SettlementTheorems.Reachable(actions);
    assert PaymentOk(Run(INIT, actions).db, p);
    KeyedIff(Run(INIT, actions).db.ledger, p);
  }

  /** In every reachable state a wallet pays for an order exactly if the order is its owner's and
      pending, gets a subscription, and its total does not exceed the balance. The purchase row takes
      exactly the total; what the owner earns as their own referrer, if so, comes on top. */
  lemma WalletPaysIffCovered(actions: seq<Action>, o: nat, user: nat, c: Choice)
    requires c.newPayment !in Run(INIT, actions).db.payments
    ensures var db := Run(INIT, actions).db;
            var out := Handled(db, PayFromWallet(o, user), c);
            && (out.Some? <==>
                  && o in db.orders && db.orders[o].userId == user && db.orders[o].status == OrderStatus.Pending
                  && c.subscription.Some? && db.orders[o].total <= db.Balance(user))
            && (out.Some? ==>
                  var before, after, total := db.Balance(user), out.value.db, db.orders[o].total;
                  && |db.ledger| < |after.ledger| && after.ledger[|db.ledger|] ==
                       LedgerRow(user, Purchase, total, before, before - total, Some(c.newPayment), Some(o), NO_TERMS)
                  && after.orders == db.orders[o := Order(user, total, OrderStatus.Completed, c.subscription)]
                  && after.provisions == db.provisions + [o]
                  && ((user in db.referrers && db.referrers[user] == user) || after.Balance(user) == before - total))
  {
    FreshPaymentIsUnused(actions, c.newPayment);
    WalletOutcome(Run(INIT, actions).db, o, user, c);
  }

  // ---- bonuses and refunds ----

  /** A bonus or refund moves the balance of its user by its amount, with one row without a payment, unless
      it is a debit that the balance does not cover. */
  lemma AdjustOutcome(s: State, u: nat, kind: TxnKind, amount: int, credit: bool)
    requires (kind.Bonus? || kind.Refund?) && forall i <- s.txs :: u !in s.txs[i].w.wallets
    ensures var s' := Apply(s, Adjust(u, kind, amount, credit));
            var before, change := s.db.Balance(u), if credit then amount else -amount;
            if credit || amount <= before then
              && s'.db.ledger ==
                   s.db.ledger + [LedgerRow(u, kind, amount, before, before + change, None, None, NO_TERMS)]
              && s' == s.(db := s.db.(wallets := s.db.wallets[u := before + change], ledger := s'.db.ledger))
            else s' == s
  {
  }

  // ---- a cancellation that comes too late ----

  /** One pending order and one pending payment for it. */
  const SHOP := EMPTY_DB.(orders := map[1 := Order(7, 100, OrderStatus.Pending, None)],
                          payments := map[5 := Payment(Some(1), 7, Online, 100, PaymentStatus.Pending)])

  /** An order, a payment, and a cancellation that has read the order. */
  lemma SetsUp()
    ensures Run(INIT, [CreateOrder(1, 7, 100), Initiate(5, 1, Online), ReadForCancel(0, 1, 7)])
      == State(SHOP, map[], map[0 := 1], map[])
  {
    var a, b, c := CreateOrder(1, 7, 100), Initiate(5, 1, Online), ReadForCancel(0, 1, 7);
    var s1 := INIT.(db := EMPTY_DB.(orders := SHOP.orders));
    var s2 := INIT.(db := SHOP);
    assert Apply(INIT, a) == s1;
    assert Apply(s1, b) == s2;
    assert Apply(s2, c) == s2.(cancels := map[0 := 1]);
    RunCons(INIT, a, [b, c]);
    RunCons(s1, b, [c]);
    RunCons(s2, c, []);
    assert [a] + [b, c] == [a, b, c] && [b] + [c] == [b, c] && [c] + [] == [c];
  }

  /** A cancellation that reads its order while it is pending, and writes it after a payment was
      settled, leaves a confirmed payment and a provisioned order that is cancelled. */
  lemma StaleCancelOverwrites() returns (actions: seq<Action>)
    ensures var db := Run(INIT, actions).db;
            && 5 in db.payments && db.payments[5].status.Confirmed? && db.payments[5].orderId == Some(1)
            && 1 in db.orders && db.orders[1].status.Cancelled? && db.Provisions(1) == 1
  {
    var setup := [CreateOrder(1, 7, 100), Initiate(5, 1, Online), ReadForCancel(0, 1, 7)];
    var s := State(SHOP, map[], map[0 := 1], map[]);
    SetsUp();
    var settle := RequestIsARun(s, 9, Confirm(5), Choice(0, Some(77)));
    RunAppend(INIT, setup, settle);
    actions := setup + settle + [WriteCancel(0)];
    RunSnoc(INIT, setup + settle, WriteCancel(0));
    var settled := Run(INIT, setup + settle);
    assert settled.db.payments == map[5 := SHOP.payments[5].(status := Confirmed)];
    assert settled.db.orders == map[1 := Order(7, 100, OrderStatus.Completed, Some(77))];
    assert settled.db.provisions == [1];
  }
}
