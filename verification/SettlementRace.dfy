/** Why the cap on rewards holds only for transactions that run one after the other. */
module SettlementRace {
  import opened Options
  import opened Tables
  import opened SettlementSteps
  import opened SettlementMachine
  import opened SettlementRuns

  /** Provisioning returns a subscription. */
  const CHOICE := Choice(0, Some(0))

  /** A pending payment for a pending order of a user who was referred. */
  predicate Payable(db: Db, p: nat, o: nat) {
    && p in db.payments && db.payments[p].orderId == Some(o) && db.payments[p].status.Pending?
    && o in db.orders && db.orders[o].status.Pending? && db.orders[o].total > 0 && db.orders[o].userId in db.referrers
    && CommissionOf(db, o) > 0
  }

  function CommissionOf(db: Db, o: nat): int
    requires o in db.orders && db.orders[o].userId in db.referrers
  {
    Commission(db.orders[o].total, db.settings, db.Sum(EarnedBy(db.referrers[db.orders[o].userId])))
  }

  /** What a confirmation has written after `k` statements. */
  function Written(k: nat, db: Db, p: nat, o: nat): Writes
    requires Payable(db, p, o)
  {
    var completed := db.orders[o].(status := OrderStatus.Completed);
    NO_WRITES.(payments := if k < 2 then map[] else map[p := db.payments[p].(status := Confirmed)],
               orders :=
                 if k < 4 then map[]
                 else map[o := if k < 5 then completed else completed.(subscriptionId := Some(0))],
               provisions := if k < 5 then [] else [o])
  }

  function Next(k: nat, db: Db, p: nat, o: nat): Pc
    requires Payable(db, p, o) && k <= 6
  {
    match k
    case 0 => ReadPayment(p)
    case 1 => ClaimPayment(p)
    case 2 => ReadOrder(p)
    case 3 => ClaimOrder(p)
    case 4 => Provision(p)
    case 5 => ReadEarned(p)
    case 6 =>
      var referrer := db.referrers[db.orders[o].userId];
      var terms := Terms(db.settings.commissionPercent, db.Sum(EarnedBy(referrer)), db.settings.maxBonus);
      Credit(p, referrer, CommissionOf(db, o), terms)
  }

  function Stage(k: nat, db: Db, p: nat, o: nat): Tx
    requires Payable(db, p, o) && k <= 6
  {
    Tx(Confirm(p), Next(k, db, p, o), Written(k, db, p, o))
  }

  lemma StageClaims(k: nat, db: Db, p: nat, o: nat)
    requires Payable(db, p, o) && k < 4
    ensures Exec(db, Stage(k, db, p, o), CHOICE) == Go(Stage(k + 1, db, p, o))
  {
  }

  lemma StageDelivers(db: Db, p: nat, o: nat)
    requires Payable(db, p, o)
    ensures Exec(db, Stage(4, db, p, o), CHOICE) == Go(Stage(5, db, p, o))
  {
  }

  lemma StageReads(db: Db, p: nat, o: nat)
    requires Payable(db, p, o)
    ensures Exec(db, Stage(5, db, p, o), CHOICE) == Go(Stage(6, db, p, o))
  {
    assert db.ledger + [] == db.ledger;
  }

  lemma StageSteps(k: nat, db: Db, p: nat, o: nat)
    requires Payable(db, p, o) && k < 6
    ensures Exec(db, Stage(k, db, p, o), CHOICE) == Go(Stage(k + 1, db, p, o))
  {
    if k < 4 {
      StageClaims(k, db, p, o);
    } else if k == 4 {
      StageDelivers(db, p, o);
    } else {
      StageReads(db, p, o);
    }
  }

  lemma OneStep(s: State, tid: nat, t: Tx, t': Tx)
    requires tid in s.txs && s.txs[tid] == t && Exec(s.db, t, CHOICE) == Go(t')
    requires t.pc.Start? ==> 0 !in s.db.payments && PaymentFree(s, 0)
    requires forall i <- s.txs :: i != tid ==> t'.w.DisjointFrom(s.txs[i].w)
    ensures Apply(s, Step(tid, CHOICE)) == s.(txs := s.txs[tid := t'])
  {
  }

  lemma Then(s: State, actions: seq<Action>, s1: State, a: Action, s2: State)
    requires Run(s, actions) == s1 && Apply(s1, a) == s2
    ensures Run(s, actions + [a]) == s2
  {
    RunSnoc(s, actions, a);
  }

  /** With only other rows locked, a confirmation gets as far as knowing its commission. */
  lemma {:induction false} ReachesCredit(k: nat, s: State, tid: nat, p: nat, o: nat) returns (actions: seq<Action>)
    requires Payable(s.db, p, o) && k <= 6 && tid in s.txs && s.txs[tid] == Stage(0, s.db, p, o)
    requires forall i <- s.txs :: i != tid ==> Written(6, s.db, p, o).DisjointFrom(s.txs[i].w)
    ensures Run(s, actions) == s.(txs := s.txs[tid := Stage(k, s.db, p, o)])
  {
    if k == 0 {
      actions := [];
    } else {
      var t, t' := Stage(k - 1, s.db, p, o), Stage(k, s.db, p, o);
      var before := s.(txs := s.txs[tid := t]);
      actions := ReachesCredit(k - 1, s, tid, p, o);
      StageSteps(k - 1, s.db, p, o);
      WritesLess(k, s.db, p, o);
      OneStep(before, tid, t, t');
      assert before.txs[tid := t'] == s.txs[tid := t'];
      Then(s, actions, before, Step(tid, CHOICE), s.(txs := s.txs[tid := t']));
      actions := actions + [Step(tid, CHOICE)];
    }
  }

  lemma WritesLess(k: nat, db: Db, p: nat, o: nat)
    requires Payable(db, p, o) && k <= 6
    ensures forall w: Writes :: Written(6, db, p, o).DisjointFrom(w) ==> Written(k, db, p, o).DisjointFrom(w)
  {
  }

  // ---- two confirmations at once ----

  const RULES := Settings(true, 100, 10)

  /** Two orders of a referred user, each with a payment; the referrer may earn ten in all. */
  const FAIR := EMPTY_DB.(
    orders := map[1 := Order(7, 10, OrderStatus.Pending, None), 2 := Order(7, 10, OrderStatus.Pending, None)],
    payments := map[5 := Payment(Some(1), 7, Online, 10, PaymentStatus.Pending),
                    6 := Payment(Some(2), 7, Online, 10, PaymentStatus.Pending)],
    referrers := map[7 := 3], settings := RULES)

  lemma FairIsPayable()
    ensures Payable(FAIR, 5, 1) && Payable(FAIR, 6, 2)
    ensures CommissionOf(FAIR, 1) == 10 && CommissionOf(FAIR, 2) == 10
  {
  }

  lemma SetsRules() returns (actions: seq<Action>)
    ensures Run(INIT, actions) == INIT.(db := EMPTY_DB.(referrers := map[7 := 3], settings := RULES))
  {
    var s1 := INIT.(db := EMPTY_DB.(referrers := map[7 := 3]));
    Then(INIT, [], INIT, SetReferrer(7, 3), s1);
    actions := [] + [SetReferrer(7, 3)];
    Then(INIT, actions, s1, SetSettings(RULES), INIT.(db := s1.db.(settings := RULES)));
    actions := actions + [SetSettings(RULES)];
  }

  lemma Orders() returns (actions: seq<Action>)
    ensures Run(INIT, actions) == INIT.(db := FAIR.(payments := map[]))
  {
    actions := SetsRules();
    var s := INIT.(db := EMPTY_DB.(referrers := map[7 := 3], settings := RULES));
    var s1 := INIT.(db := s.db.(orders := map[1 := FAIR.orders[1]]));
    Then(INIT, actions, s, CreateOrder(1, 7, 10), s1);
    actions := actions + [CreateOrder(1, 7, 10)];
    var s2 := INIT.(db := FAIR.(payments := map[]));
    assert s1.db.orders[2 := FAIR.orders[2]] == FAIR.orders;
    Then(INIT, actions, s1, CreateOrder(2, 7, 10), s2);
    actions := actions + [CreateOrder(2, 7, 10)];
  }

  lemma Initiates(s: State, p: nat, o: nat)
    requires p !in s.db.payments && s.txs == map[] && o in s.db.orders && s.db.orders[o].total >= 0
    ensures Apply(s, Initiate(p, o, Online)) == s.(db := s.db.(payments := s.db.payments[p :=
      Payment(Some(o), s.db.orders[o].userId, Online, s.db.orders[o].total, PaymentStatus.Pending)]))
  {
  }

  lemma SetsUpFair() returns (actions: seq<Action>)
    ensures Run(INIT, actions) == State(FAIR, map[], map[], map[])
  {
    actions := Orders();
    var s := INIT.(db := FAIR.(payments := map[]));
    var s1 := INIT.(db := FAIR.(payments := map[5 := FAIR.payments[5]]));
    Initiates(s, 5, 1);
    Then(INIT, actions, s, Initiate(5, 1, Online), s1);
    actions := actions + [Initiate(5, 1, Online)];
    Initiates(s1, 6, 2);
    assert s1.db.payments[6 := FAIR.payments[6]] == FAIR.payments;
    Then(INIT, actions, s1, Initiate(6, 2, Online), State(FAIR, map[], map[], map[]));
    actions := actions + [Initiate(6, 2, Online)];
  }

  /** A confirmation begins and gets as far as knowing its commission, beside `others`. */
  lemma ComesToCredit(s: State, tid: nat, p: nat, o: nat) returns (actions: seq<Action>)
    requires Payable(s.db, p, o) && tid !in s.txs && 0 !in s.db.payments && PaymentFree(s, 0)
    requires forall i <- s.txs :: Written(6, s.db, p, o).DisjointFrom(s.txs[i].w)
    ensures Run(s, actions) == s.(txs := s.txs[tid := Stage(6, s.db, p, o)])
  {
    var t := Tx(Confirm(p), Start, NO_WRITES);
    var s1 := s.(txs := s.txs[tid := t]);
    var s2 := s.(txs := s.txs[tid := Stage(0, s.db, p, o)]);
    Then(s, [], s, Begin(tid, Confirm(p)), s1);
    actions := [] + [Begin(tid, Confirm(p))];
    OneStep(s1, tid, t, Stage(0, s.db, p, o));
    assert s1.txs[tid := Stage(0, s.db, p, o)] == s2.txs;
    Then(s, actions, s1, Step(tid, CHOICE), s2);
    actions := actions + [Step(tid, CHOICE)];
    var rest := ReachesCredit(6, s2, tid, p, o);
    RunAppend(s, actions, rest);
    assert s2.txs[tid := Stage(6, s.db, p, o)] == s.txs[tid := Stage(6, s.db, p, o)];
    actions := actions + rest;
  }

  lemma BothComeToCredit() returns (actions: seq<Action>)
    ensures Payable(FAIR, 5, 1) && Payable(FAIR, 6, 2)
    ensures Run(INIT, actions) == State(FAIR, map[1 := Stage(6, FAIR, 5, 1), 2 := Stage(6, FAIR, 6, 2)], map[], map[])
  {
    FairIsPayable();
    var setup := SetsUpFair();
    var s := State(FAIR, map[], map[], map[]);
    var first := ComesToCredit(s, 1, 5, 1);
    var s1 := State(FAIR, map[1 := Stage(6, FAIR, 5, 1)], map[], map[]);
    var second := ComesToCredit(s1, 2, 6, 2);
    RunAppend(INIT, setup, first);
    RunAppend(INIT, setup + first, second);
    actions := setup + first + second;
  }

  // ---- both credit ----

  function Reward(o: nat, before: int): LedgerRow {
    LedgerRow(3, ReferralReward, 10, before, before + 10, None, Some(o), Terms(100, 0, 10))
  }

  /** The transaction after crediting, in tables in which the referrer has `before`. */
  function Credited(p: nat, o: nat, before: int): Tx
    requires Payable(FAIR, p, o)
  {
    var credited := Written(6, FAIR, p, o).(wallets := map[3 := before + 10], ledger := [Reward(o, before)]);
    Tx(Confirm(p), Done(p, true), credited)
  }

  /** About to credit ten to the referrer, with nothing credited yet. */
  predicate CreditsTen(t: Tx, p: nat, o: nat) {
    && t.pc == Credit(p, 3, 10, Terms(100, 0, 10)) && t.w.wallets == map[] && t.w.ledger == []
    && p in t.w.payments && t.w.payments[p].orderId == Some(o)
  }

  lemma TenIsCredited(db: Db, t: Tx, p: nat, o: nat)
    requires CreditsTen(t, p, o)
    ensures Exec(db, t, CHOICE) == Go(t.(pc := Done(p, true),
              w := t.w.(wallets := map[3 := db.Balance(3) + 10], ledger := [Reward(o, db.Balance(3))])))
  {
    assert View(db, t.w).Balance(3) == db.Balance(3);
    assert [] + [Reward(o, db.Balance(3))] == [Reward(o, db.Balance(3))];
  }

  lemma StageCredits(db: Db, p: nat, o: nat)
    requires Payable(FAIR, p, o) && CommissionOf(FAIR, o) == 10 && FAIR.orders[o].userId == 7
    ensures Exec(db, Stage(6, FAIR, p, o), CHOICE) == Go(Credited(p, o, db.Balance(3)))
  {
    assert CreditsTen(Stage(6, FAIR, p, o), p, o);
    TenIsCredited(db, Stage(6, FAIR, p, o), p, o);
  }

  lemma MergesCredited(db: Db, p: nat, o: nat)
    requires Payable(FAIR, p, o)
    ensures var db' := Merge(db, Credited(p, o, db.Balance(3)));
            && db'.ledger == db.ledger + [Reward(o, db.Balance(3))]
            && db'.Balance(3) == db.Balance(3) + 10 && db'.settings == db.settings
  {
  }

  /** A confirmation credits the commission it computed, and commits. */
  lemma CreditsAndCommits(s: State, tid: nat, p: nat, o: nat) returns (actions: seq<Action>)
    requires tid in s.txs && Payable(FAIR, p, o) && CommissionOf(FAIR, o) == 10 && FAIR.orders[o].userId == 7
    requires s.txs[tid] == Stage(6, FAIR, p, o)
    requires forall i <- s.txs :: i != tid ==> s.txs[tid].w.DisjointFrom(s.txs[i].w) && 3 !in s.txs[i].w.wallets
    ensures var s' := Run(s, actions);
            && s'.db.ledger == s.db.ledger + [Reward(o, s.db.Balance(3))] && s'.txs == s.txs - {tid}
            && s'.db.Balance(3) == s.db.Balance(3) + 10 && s'.db.settings == s.db.settings
  {
    var t' := Credited(p, o, s.db.Balance(3));
    StageCredits(s.db, p, o);
    OneStep(s, tid, s.txs[tid], t');
    var s1 := s.(txs := s.txs[tid := t']);
    Then(s, [], s, Step(tid, CHOICE), s1);
    actions := [] + [Step(tid, CHOICE)];
    MergesCredited(s.db, p, o);
    assert s1.txs - {tid} == s.txs - {tid};
    Then(s, actions, s1, Commit(tid), s.(db := Merge(s.db, t'), txs := s.txs - {tid}));
    actions := actions + [Commit(tid)];
  }

  /** Two orders of one user confirmed at the same time: both read what the referrer has earned
      before either credits, and together they exceed the cap. */
  lemma RacingCommissionsExceedCap() returns (actions: seq<Action>)
    ensures var db := Run(INIT, actions).db;
            0 < db.settings.maxBonus < db.Sum(EarnedBy(3))
  {
    FairIsPayable();
    var both := BothComeToCredit();
    var s := State(FAIR, map[1 := Stage(6, FAIR, 5, 1), 2 := Stage(6, FAIR, 6, 2)], map[], map[]);
    var first := CreditsAndCommits(s, 1, 5, 1);
    var s1 := Run(s, first);
    assert s1.txs == map[2 := Stage(6, FAIR, 6, 2)];
    var second := CreditsAndCommits(s1, 2, 6, 2);
    RunAppend(INIT, both, first);
    RunAppend(INIT, both + first, second);
    actions := both + first + second;
    TwoRewards();
  }

  lemma TwoRewards()
    ensures Total(EarnedBy(3), [] + [Reward(1, 0)] + [Reward(2, 10)]) == 20
  {
    TotalOne(EarnedBy(3), Reward(1, 0));
    TotalOne(EarnedBy(3), Reward(2, 10));
    TotalAppend(EarnedBy(3), [Reward(1, 0)], [Reward(2, 10)]);
    assert [] + [Reward(1, 0)] + [Reward(2, 10)] == [Reward(1, 0)] + [Reward(2, 10)];
  }
}
