/** The cap on referral rewards: when a commit respects the cap its commission was computed under,
    and which runs always do. */
module SettlementCap {
  import opened Options
  import opened Tables
  import opened SettlementSteps
  import opened SettlementMachine
  import opened SettlementInvariant
  import opened SettlementPreservation

  // ---- what a commission is computed from ----

  /** The amount was read as the rewards of `u` in some committed ledger that this one extends. */
  ghost predicate WasRead(ledger: seq<LedgerRow>, u: nat, earned: int) {
    exists n | 0 <= n <= |ledger| :: Total(EarnedBy(u), ledger[..n]) == earned
  }

  /** What holds of a commission `amount` for `u`: with what was read it stays under the cap read. */
  ghost predicate TermsFit(ledger: seq<LedgerRow>, u: nat, amount: int, terms: Terms) {
    amount > 0 && WasRead(ledger, u, terms.earned) && (terms.cap > 0 ==> terms.earned + amount <= terms.cap)
  }

  /** The reward that a transaction has staged: the last row it writes. */
  function Reward(t: Tx): Option<LedgerRow> {
    if t.w.ledger != [] && t.w.ledger[|t.w.ledger| - 1].kind.ReferralReward?
    then Some(t.w.ledger[|t.w.ledger| - 1]) else None
  }

  ghost predicate TxTermsOk(ledger: seq<LedgerRow>, t: Tx) {
    && (forall i | 0 <= i < |t.w.ledger| - 1 :: !t.w.ledger[i].kind.ReferralReward?)
    && (t.pc.Credit? ==> TermsFit(ledger, t.pc.referrer, t.pc.commission, t.pc.terms))
    && (Reward(t).Some? ==>
          t.pc.Done? && TermsFit(ledger, Reward(t).value.userId, Reward(t).value.amount, Reward(t).value.terms))
  }

  ghost predicate LedgerTermsOk(ledger: seq<LedgerRow>) {
    forall i | 0 <= i < |ledger| && ledger[i].kind.ReferralReward? ::
      TermsFit(ledger[..i], ledger[i].userId, ledger[i].amount, ledger[i].terms)
  }

  ghost predicate TxsTermsOk(s: State) {
    forall i <- s.txs :: TxTermsOk(s.db.ledger, s.txs[i])
  }

  ghost predicate TermsOk(s: State) {
    LedgerTermsOk(s.db.ledger) && TxsTermsOk(s)
  }

  lemma FitsLonger(ledger: seq<LedgerRow>, more: seq<LedgerRow>, u: nat, amount: int, terms: Terms)
    requires TermsFit(ledger, u, amount, terms)
    ensures TermsFit(ledger + more, u, amount, terms)
  {
    var n :| 0 <= n <= |ledger| && Total(EarnedBy(u), ledger[..n]) == terms.earned;
    assert (ledger + more)[..n] == ledger[..n];
  }

  lemma {:induction false} NoRewards(u: nat, rows: seq<LedgerRow>)
    requires forall i | 0 <= i < |rows| :: !rows[i].kind.ReferralReward?
    ensures Total(EarnedBy(u), rows) == 0
  {
    if rows != [] {
      NoRewards(u, rows[..|rows| - 1]);
    }
  }

  /** The rewards of `u` that a transaction has staged. */
  lemma StagedRewards(ledger: seq<LedgerRow>, t: Tx, u: nat)
    requires TxTermsOk(ledger, t)
    ensures Total(EarnedBy(u), t.w.ledger) == if Reward(t).Some? then Weight(EarnedBy(u), Reward(t).value) else 0
  {
    if Reward(t).Some? {
      NoRewards(u, t.w.ledger[..|t.w.ledger| - 1]);
    } else {
      NoRewards(u, t.w.ledger);
    }
  }

  // ---- statements ----

  lemma StartLeavesLedger(db: Db, t: Tx, c: Choice)
    requires Exec(db, t, c).Go? && t.pc.Start?
    ensures Exec(db, t, c).tx.w.ledger == t.w.ledger && !Exec(db, t, c).tx.pc.Credit?
  {
  }

  predicate BeforeOrder(pc: Pc) {
    pc.ClaimReceipt? || pc.RejectPayment? || pc.ReadPayment? || pc.ClaimPayment?
  }

  lemma ClaimLeavesLedger(db: Db, t: Tx, c: Choice)
    requires Exec(db, t, c).Go? && BeforeOrder(t.pc)
    ensures Exec(db, t, c).tx.w.ledger == t.w.ledger && !Exec(db, t, c).tx.pc.Credit?
  {
  }

  lemma ExecLeavesLedger(db: Db, t: Tx, c: Choice)
    requires Exec(db, t, c).Go? && !BeforeOrder(t.pc)
    requires !t.pc.Start? && !t.pc.Debit? && !t.pc.TopUp? && !t.pc.Credit?
    ensures Exec(db, t, c).tx.w.ledger == t.w.ledger
    ensures Exec(db, t, c).tx.pc.Credit? ==> t.pc.ReadEarned?
    ensures t.pc.Done? ==> Exec(db, t, c).tx == t
  {
  }

  /** The wallet changes keyed by a payment write no reward. */
  lemma MutationKeepsTerms(db: Db, t: Tx, c: Choice)
    requires TxTermsOk(db.ledger, t) && (t.pc.Debit? || t.pc.TopUp?) && Exec(db, t, c).Go?
    ensures TxTermsOk(db.ledger, Exec(db, t, c).tx)
  {
  }

  lemma CreditKeepsTerms(db: Db, t: Tx, c: Choice)
    requires TxTermsOk(db.ledger, t) && t.pc.Credit? && Exec(db, t, c).Go?
    ensures var t' := Exec(db, t, c).tx;
            && TxTermsOk(db.ledger, t') && Reward(t').Some?
            && Reward(t').value.userId == t.pc.referrer && Reward(t').value.terms == t.pc.terms
  {
  }

  lemma ReadKeepsTerms(db: Db, t: Tx, c: Choice)
    requires TxTermsOk(db.ledger, t) && t.pc.ReadEarned? && Exec(db, t, c).Go?
    ensures var t' := Exec(db, t, c).tx;
            && TxTermsOk(db.ledger, t') && Reward(t').None?
            && (t'.pc.Credit? ==>
                  t'.pc.terms.earned == db.Sum(EarnedBy(t'.pc.referrer)) && t'.pc.terms.cap == db.settings.maxBonus)
  {
    ExecLeavesLedger(db, t, c);
    var v, t' := View(db, t.w), Exec(db, t, c).tx;
    if t'.pc.Credit? {
      CommissionBound(v.orders[v.payments[t.pc.p].orderId.value].total, v.settings, t'.pc.terms.earned);
      TotalAppend(EarnedBy(t'.pc.referrer), db.ledger, t.w.ledger);
      StagedRewards(db.ledger, t, t'.pc.referrer);
      assert db.ledger[..|db.ledger|] == db.ledger;
    }
  }

  lemma ExecKeepsTerms(db: Db, t: Tx, c: Choice)
    requires TxTermsOk(db.ledger, t) && Exec(db, t, c).Go?
    ensures TxTermsOk(db.ledger, Exec(db, t, c).tx)
  {
    if t.pc.Debit? || t.pc.TopUp? {
      MutationKeepsTerms(db, t, c);
    } else if t.pc.Credit? {
      CreditKeepsTerms(db, t, c);
    } else if t.pc.ReadEarned? {
      ReadKeepsTerms(db, t, c);
    } else if t.pc.Start? {
      StartLeavesLedger(db, t, c);
    } else if BeforeOrder(t.pc) {
      ClaimLeavesLedger(db, t, c);
    } else {
      ExecLeavesLedger(db, t, c);
    }
  }

  // ---- actions ----

  /** The rows an action adds to the ledger. */
  function Added(s: State, a: Action): seq<LedgerRow> {
    if Enabled(s, a) && a.Commit? then s.txs[a.tid].w.ledger
    else if Enabled(s, a) && a.Adjust? then Adjusted(s.db, a.userId, a.kind, a.amount, a.credit).ledger[|s.db.ledger|..]
    else []
  }

  lemma LedgerAfter(s: State, a: Action)
    ensures Apply(s, a).db.ledger == s.db.ledger + Added(s, a)
  {
  }

  /** A live transaction is what it was, was started, or has executed a statement. */
  lemma TxsAfter(s: State, a: Action, i: nat)
    requires i in Apply(s, a).txs
    ensures || (i in s.txs && Apply(s, a).txs[i] == s.txs[i])
            || (a.Begin? && i !in s.txs && Apply(s, a).txs[i] == Tx(a.request, Start, NO_WRITES))
            || (a.Step? && i == a.tid && Enabled(s, a) && Exec(s.db, s.txs[i], a.choice) == Go(Apply(s, a).txs[i]))
  {
  }

  lemma NewRowsFit(s: State, a: Action)
    requires TermsOk(s)
    ensures LedgerTermsOk(s.db.ledger + Added(s, a))
  {
    var ledger, added := s.db.ledger, Added(s, a);
    var all := ledger + added;
    forall i | 0 <= i < |all| && all[i].kind.ReferralReward?
      ensures TermsFit(all[..i], all[i].userId, all[i].amount, all[i].terms)
    {
      if i < |ledger| {
        assert all[..i] == ledger[..i];
      } else {
        var r := all[i];
        assert r == added[i - |ledger|] && Reward(s.txs[a.tid]) == Some(r);
        FitsLonger(ledger, added[..i - |ledger|], r.userId, r.amount, r.terms);
        assert all[..i] == ledger + added[..i - |ledger|];
      }
    }
  }

  lemma TxFitsLonger(ledger: seq<LedgerRow>, more: seq<LedgerRow>, t: Tx)
    requires TxTermsOk(ledger, t)
    ensures TxTermsOk(ledger + more, t)
  {
    if t.pc.Credit? {
      FitsLonger(ledger, more, t.pc.referrer, t.pc.commission, t.pc.terms);
    }
    if Reward(t).Some? {
      var r := Reward(t).value;
      FitsLonger(ledger, more, r.userId, r.amount, r.terms);
    }
  }

  lemma ApplyKeepsTxTerms(s: State, a: Action)
    requires TxsTermsOk(s)
    ensures TxsTermsOk(Apply(s, a))
  {
    var s' := Apply(s, a);
    LedgerAfter(s, a);
    forall i <- s'.txs ensures TxTermsOk(s'.db.ledger, s'.txs[i]) {
      TxsAfter(s, a, i);
      if i in s.txs && s'.txs[i] == s.txs[i] {
        TxFitsLonger(s.db.ledger, Added(s, a), s.txs[i]);
      } else if a.Step? {
        ExecKeepsTerms(s.db, s.txs[i], a.choice);
        TxFitsLonger(s.db.ledger, Added(s, a), s'.txs[i]);
      }
    }
  }

  lemma ApplyKeepsTerms(s: State, a: Action)
    requires TermsOk(s)
    ensures TermsOk(Apply(s, a))
  {
    ApplyKeepsTxTerms(s, a);
    LedgerAfter(s, a);
    NewRowsFit(s, a);
  }

  lemma {:induction false} RunKeepsTerms(actions: seq<Action>)
    ensures TermsOk(Run(INIT, actions))
  {
    if actions != [] {
      RunKeepsTerms(actions[..|actions| - 1]);
      ApplyKeepsTerms(Run(INIT, actions[..|actions| - 1]), actions[|actions| - 1]);
    }
  }

  // ---- when a commit keeps the cap ----

  /** The reward that an action commits. */
  function Commits(s: State, a: Action): Option<LedgerRow> {
    if a.Commit? && Enabled(s, a) then Reward(s.txs[a.tid]) else None
  }

  lemma EarnedAfter(s: State, a: Action, u: nat)
    requires TxsTermsOk(s)
    ensures Apply(s, a).db.Sum(EarnedBy(u)) ==
      s.db.Sum(EarnedBy(u)) + if Commits(s, a).Some? then Weight(EarnedBy(u), Commits(s, a).value) else 0
  {
    LedgerAfter(s, a);
    TotalAppend(EarnedBy(u), s.db.ledger, Added(s, a));
    if a.Commit? && Enabled(s, a) {
      StagedRewards(s.db.ledger, s.txs[a.tid], u);
    } else {
      NoRewards(u, Added(s, a));
    }
  }

  /** What the referrer has earned by other commits since the commission was computed. */
  function Since(ledger: seq<LedgerRow>, r: LedgerRow): int {
    Total(EarnedBy(r.userId), ledger) - r.terms.earned
  }

  /** The action commits a commission that was computed under a cap, and other rewards committed
      since then take up more than the cap had left. */
  predicate Overshoots(s: State, a: Action) {
    var r := Commits(s, a);
    r.Some? && r.value.terms.cap > 0
    && Since(s.db.ledger, r.value) > r.value.terms.cap - r.value.terms.earned - r.value.amount
  }

  /** What counts as earned since the read really was committed since then: there is a ledger, the one
      that was read, of which it is the rest. */
  lemma SinceIsCommittedSince(actions: seq<Action>, a: Action) returns (n: nat)
    requires Commits(Run(INIT, actions), a).Some?
    ensures var ledger, r := Run(INIT, actions).db.ledger, Commits(Run(INIT, actions), a).value;
            n <= |ledger| && r.terms.earned == Total(EarnedBy(r.userId), ledger[..n])
            && Since(ledger, r) == Total(EarnedBy(r.userId), ledger[n..]) >= 0
  {
    RunKeepsTerms(actions);
    var s := Run(INIT, actions);
    var r := Commits(s, a).value;
    var ledger := s.db.ledger;
    n :| 0 <= n <= |ledger| && Total(EarnedBy(r.userId), ledger[..n]) == r.terms.earned;
    assert ledger == ledger[..n] + ledger[n..];
    TotalAppend(EarnedBy(r.userId), ledger[..n], ledger[n..]);
    EarnedGrows(ledger, n, r.userId);
  }

  lemma {:induction false} EarnedGrows(ledger: seq<LedgerRow>, n: nat, u: nat)
    requires LedgerTermsOk(ledger) && n <= |ledger|
    ensures Total(EarnedBy(u), ledger[n..]) >= 0
  {
    if n < |ledger| {
      var front := ledger[..|ledger| - 1];
      assert forall i | 0 <= i < |front| :: front[..i] == ledger[..i];
      EarnedGrows(front, n, u);
      assert ledger[n..][..|ledger[n..]| - 1] == front[n..];
    }
  }

  /** Over all interleavings: after a commission is committed, the rewards of its referrer are within
      the cap it was computed under, exactly when the other rewards committed since the read do not
      exceed what the cap had left. */
  lemma CommitKeepsCapIff(actions: seq<Action>, a: Action)
    requires var r := Commits(Run(INIT, actions), a); r.Some? && r.value.terms.cap > 0
    ensures var s := Run(INIT, actions);
            var r := Commits(s, a).value;
            Apply(s, a).db.Sum(EarnedBy(r.userId)) <= r.terms.cap <==> !Overshoots(s, a)
  {
    RunKeepsTerms(actions);
    var s := Run(INIT, actions);
    EarnedAfter(s, a, Commits(s, a).value.userId);
  }
}
