/** Runs under the cap on referral rewards: exactly those in which no commit overshoots; among them
    are those in which the transactions that reward one referrer do not overlap. */
module SettlementCapRuns {
  import opened Options
  import opened Tables
  import opened SettlementSteps
  import opened SettlementMachine
  import opened SettlementInvariant
  import opened SettlementPreservation
  import opened SettlementCap

  // ---- every commit under its cap ----

  /** With every reward in the ledger, its referrer stayed within the cap it was computed under. */
  ghost predicate CapKept(ledger: seq<LedgerRow>) {
    forall i | 0 <= i < |ledger| :: KeptAt(ledger, i)
  }

  predicate NeverOvershoots(s: State, actions: seq<Action>) {
    forall k | 0 <= k < |actions| :: !OvershootsAt(s, actions, k)
  }

  predicate OvershootsAt(s: State, actions: seq<Action>, k: nat)
    requires k < |actions|
  {
    Overshoots(Run(s, actions[..k]), actions[k])
  }

  /** The reward at place `i` kept its cap. */
  predicate KeptAt(ledger: seq<LedgerRow>, i: nat)
    requires i < |ledger|
  {
    ledger[i].kind.ReferralReward? && ledger[i].terms.cap > 0 ==>
      Total(EarnedBy(ledger[i].userId), ledger[..i + 1]) <= ledger[i].terms.cap
  }

  lemma KeptAtPrefix(ledger: seq<LedgerRow>, more: seq<LedgerRow>, i: nat)
    requires i < |ledger|
    ensures KeptAt(ledger + more, i) == KeptAt(ledger, i)
  {
    assert (ledger + more)[..i + 1] == ledger[..i + 1];
  }

  /** Of the rows appended only the last can be a reward. */
  lemma CapKeptAppend(ledger: seq<LedgerRow>, added: seq<LedgerRow>)
    requires added != [] && forall i | 0 <= i < |added| - 1 :: !added[i].kind.ReferralReward?
    ensures CapKept(ledger + added) <==> CapKept(ledger) && KeptAt(ledger + added, |ledger + added| - 1)
  {
    var all := ledger + added;
    forall i | 0 <= i < |ledger| ensures KeptAt(all, i) == KeptAt(ledger, i) {
      KeptAtPrefix(ledger, added, i);
    }
    assert forall i | |ledger| <= i < |all| :: all[i] == added[i - |ledger|];
  }

  lemma CapKeptStep(s: State, a: Action)
    requires TermsOk(s)
    ensures CapKept(Apply(s, a).db.ledger) <==> CapKept(s.db.ledger) && !Overshoots(s, a)
  {
    var ledger, added := s.db.ledger, Added(s, a);
    LedgerAfter(s, a);
    AddedIsPlain(s, a);
    if added == [] {
      assert ledger + added == ledger;
    } else {
      CapKeptAppend(ledger, added);
      assert (ledger + added)[..|ledger + added|] == ledger + added;
      if Commits(s, a).Some? {
        EarnedAfter(s, a, Commits(s, a).value.userId);
      }
    }
  }

  /** Only the last row an action adds can be a reward, and it is the one that is committed. */
  lemma AddedIsPlain(s: State, a: Action)
    requires TermsOk(s)
    ensures var added := Added(s, a);
            && (forall i | 0 <= i < |added| - 1 :: !added[i].kind.ReferralReward?)
            && (Commits(s, a).Some? <==> added != [] && added[|added| - 1].kind.ReferralReward?)
            && (Commits(s, a).Some? ==> Commits(s, a).value == added[|added| - 1])
  {
  }

  lemma PrefixOvershoots(s: State, actions: seq<Action>, n: nat)
    requires n <= |actions|
    ensures forall k | 0 <= k < n :: OvershootsAt(s, actions[..n], k) == OvershootsAt(s, actions, k)
  {
    forall k | 0 <= k < n ensures OvershootsAt(s, actions[..n], k) == OvershootsAt(s, actions, k) {
      assert actions[..n][..k] == actions[..k];
    }
  }

  lemma NeverOvershootsSnoc(s: State, actions: seq<Action>)
    requires actions != []
    ensures var init := actions[..|actions| - 1];
            NeverOvershoots(s, actions) <==>
              NeverOvershoots(s, init) && !Overshoots(Run(s, init), actions[|actions| - 1])
  {
    var init := actions[..|actions| - 1];
    assert OvershootsAt(s, actions, |init|) == Overshoots(Run(s, init), actions[|init|]);
    PrefixOvershoots(s, actions, |init|);
  }

  /** A run keeps every referrer within the cap each reward was computed under, if and only if none of
      its commits overshoots. */
  lemma {:induction false} CapKeptIff(actions: seq<Action>)
    ensures CapKept(Run(INIT, actions).db.ledger) <==> NeverOvershoots(INIT, actions)
  {
    if actions != [] {
      var init := actions[..|actions| - 1];
      CapKeptIff(init);
      RunKeepsTerms(init);
      CapKeptStep(Run(INIT, init), actions[|actions| - 1]);
      NeverOvershootsSnoc(INIT, actions);
    }
  }

  // ---- a cap that stays ----

  predicate FixesCap(actions: seq<Action>, cap: int) {
    forall k | 0 <= k < |actions| && actions[k].SetSettings? :: actions[k].settings.maxBonus == cap
  }

  ghost predicate CapIs(s: State, cap: int) {
    && (s.db.settings.maxBonus == cap || s.db.settings.commissionPercent <= 0)
    && (forall i <- s.txs :: TxCapIs(s.txs[i], cap))
    && LedgerCapIs(s.db.ledger, cap)
  }

  ghost predicate TxCapIs(t: Tx, cap: int) {
    && (t.pc.Credit? ==> t.pc.terms.cap == cap)
    && (Reward(t).Some? ==> Reward(t).value.terms.cap == cap)
  }

  ghost predicate LedgerCapIs(ledger: seq<LedgerRow>, cap: int) {
    forall i | 0 <= i < |ledger| && ledger[i].kind.ReferralReward? :: ledger[i].terms.cap == cap
  }

  lemma ExecKeepsCap(db: Db, t: Tx, c: Choice, cap: int)
    requires TxTermsOk(db.ledger, t) && TxCapIs(t, cap) && Exec(db, t, c).Go?
    requires db.settings.maxBonus == cap || db.settings.commissionPercent <= 0
    ensures TxCapIs(Exec(db, t, c).tx, cap)
  {
    ExecKeepsTerms(db, t, c);
    if t.pc.Credit? {
      CreditKeepsTerms(db, t, c);
    } else if t.pc.ReadEarned? {
      ReadKeepsTerms(db, t, c);
    } else {
      OtherKeepsReward(db, t, c);
    }
  }

  /** Other statements neither stage a reward nor are about to. */
  lemma OtherKeepsReward(db: Db, t: Tx, c: Choice)
    requires TxTermsOk(db.ledger, t) && !t.pc.Credit? && !t.pc.ReadEarned? && Exec(db, t, c).Go?
    ensures Reward(Exec(db, t, c).tx) == Reward(t) || Reward(Exec(db, t, c).tx).None?
    ensures !Exec(db, t, c).tx.pc.Credit?
  {
    if t.pc.Start? {
      StartLeavesLedger(db, t, c);
    } else if BeforeOrder(t.pc) {
      ClaimLeavesLedger(db, t, c);
    } else if !t.pc.Debit? && !t.pc.TopUp? {
      ExecLeavesLedger(db, t, c);
    }
  }

  lemma SettingsAfter(s: State, a: Action)
    ensures Apply(s, a).db.settings == if a.SetSettings? then a.settings else s.db.settings
  {
  }

  lemma ApplyKeepsCap(s: State, a: Action, cap: int)
    requires TermsOk(s) && CapIs(s, cap) && (a.SetSettings? ==> a.settings.maxBonus == cap)
    ensures CapIs(Apply(s, a), cap)
  {
    var s' := Apply(s, a);
    SettingsAfter(s, a);
    LedgerAfter(s, a);
    AddedIsPlain(s, a);
    forall i <- s'.txs ensures TxCapIs(s'.txs[i], cap) {
      TxsAfter(s, a, i);
      if a.Step? && i == a.tid && i in s.txs && Enabled(s, a) {
        ExecKeepsCap(s.db, s.txs[i], a.choice, cap);
      }
    }
  }

  lemma {:induction false} RunKeepsCap(actions: seq<Action>, cap: int)
    requires FixesCap(actions, cap)
    ensures CapIs(Run(INIT, actions), cap)
  {
    if actions != [] {
      var init := actions[..|actions| - 1];
      assert FixesCap(init, cap);
      RunKeepsCap(init, cap);
      RunKeepsTerms(init);
      ApplyKeepsCap(Run(INIT, init), actions[|actions| - 1], cap);
    }
  }

  lemma {:induction false} TotalUnderCap(ledger: seq<LedgerRow>, u: nat, cap: int)
    requires CapKept(ledger) && LedgerCapIs(ledger, cap) && cap > 0
    ensures Total(EarnedBy(u), ledger) <= cap
  {
    if ledger != [] {
      var front, last := ledger[..|ledger| - 1], ledger[|ledger| - 1];
      assert ledger == front + [last];
      if last.kind.ReferralReward? && last.userId == u {
        assert KeptAt(ledger, |ledger| - 1) && ledger[..|ledger|] == ledger;
      } else {
        forall i | 0 <= i < |front| ensures KeptAt(front, i) { KeptAtPrefix(front, [last], i); }
        TotalUnderCap(front, u, cap);
      }
    }
  }

  /** Under a positive cap that stays the same, no referrer ever has more than the cap, if and only if
      no commit of the run overshoots. */
  lemma RewardsUnderFixedCapIff(actions: seq<Action>, cap: int)
    requires FixesCap(actions, cap) && cap > 0
    ensures (forall k, u: nat | 0 <= k <= |actions| :: Run(INIT, actions[..k]).db.Sum(EarnedBy(u)) <= cap)
      <==> NeverOvershoots(INIT, actions)
  {
    if NeverOvershoots(INIT, actions) {
      forall k, u: nat | 0 <= k <= |actions| ensures Run(INIT, actions[..k]).db.Sum(EarnedBy(u)) <= cap {
        var prefix := actions[..k];
        PrefixOvershoots(INIT, actions, k);
        CapKeptIff(prefix);
        RunKeepsCap(prefix, cap);
        TotalUnderCap(Run(INIT, prefix).db.ledger, u, cap);
      }
    } else {
      var k :| 0 <= k < |actions| && OvershootsAt(INIT, actions, k);
      OvershotCap(actions, k, cap);
    }
  }

  lemma OvershotCap(actions: seq<Action>, k: nat, cap: int)
    requires FixesCap(actions, cap) && k < |actions| && Overshoots(Run(INIT, actions[..k]), actions[k])
    ensures exists u: nat :: Run(INIT, actions[..k + 1]).db.Sum(EarnedBy(u)) > cap
  {
    var s := Run(INIT, actions[..k]);
    var r := Commits(s, actions[k]).value;
    assert FixesCap(actions[..k], cap);
    RunKeepsCap(actions[..k], cap);
    CommitKeepsCapIff(actions[..k], actions[k]);
    assert actions[..k + 1][..k] == actions[..k];
    assert Run(INIT, actions[..k + 1]).db.Sum(EarnedBy(r.userId)) > cap;
  }

  // ---- runs that keep the cap ----

  /** The referrer whose rewards a transaction has read and not yet committed, and what it read. */
  function Referrer(t: Tx): Option<nat> {
    if t.pc.Credit? then Some(t.pc.referrer)
    else if Reward(t).Some? then Some(Reward(t).value.userId) else None
  }

  function TermsOf(t: Tx): Terms {
    if t.pc.Credit? then t.pc.terms else if Reward(t).Some? then Reward(t).value.terms else NO_TERMS
  }

  /** What the live transactions have read is still so. */
  ghost predicate ReadsAreCurrent(s: State) {
    forall i <- s.txs :: Referrer(s.txs[i]).Some? ==>
      TermsOf(s.txs[i]).earned == s.db.Sum(EarnedBy(Referrer(s.txs[i]).value))
  }

  /** A commission computed from what is still so never overshoots. */
  lemma CurrentNeverOvershoots(s: State, a: Action)
    requires TxsTermsOk(s) && ReadsAreCurrent(s)
    ensures !Overshoots(s, a)
  {
    if Commits(s, a).Some? {
      assert TxTermsOk(s.db.ledger, s.txs[a.tid]) && Referrer(s.txs[a.tid]) == Some(Commits(s, a).value.userId);
    }
  }

  /** No two live transactions have read the rewards of the same referrer. */
  predicate ReferrersApart(s: State) {
    forall i, j | i in s.txs && j in s.txs && i != j ::
      Referrer(s.txs[i]).Some? ==> Referrer(s.txs[i]) != Referrer(s.txs[j])
  }

  /** A statement reads what is committed, or leaves what was read. */
  lemma StepReadsCurrent(db: Db, t: Tx, c: Choice)
    requires TxTermsOk(db.ledger, t) && Exec(db, t, c).Go?
    ensures var t' := Exec(db, t, c).tx;
            Referrer(t').Some? ==>
              || (Referrer(t') == Referrer(t) && TermsOf(t') == TermsOf(t))
              || (TermsOf(t').earned == db.Sum(EarnedBy(Referrer(t').value)) && TermsOf(t').cap == db.settings.maxBonus)
  {
    ExecKeepsTerms(db, t, c);
    if t.pc.Credit? {
      CreditKeepsTerms(db, t, c);
    } else if t.pc.ReadEarned? {
      ReadKeepsTerms(db, t, c);
    } else {
      OtherKeepsReward(db, t, c);
    }
  }

  lemma ApplyKeepsCurrent(s: State, a: Action)
    requires TxsTermsOk(s) && ReadsAreCurrent(s) && ReferrersApart(s)
    ensures ReadsAreCurrent(Apply(s, a))
  {
    var s' := Apply(s, a);
    forall i | i in s'.txs && Referrer(s'.txs[i]).Some?
      ensures TermsOf(s'.txs[i]).earned == s'.db.Sum(EarnedBy(Referrer(s'.txs[i]).value))
    {
      TxsAfter(s, a, i);
      EarnedAfter(s, a, Referrer(s'.txs[i]).value);
      if a.Step? && i == a.tid && Enabled(s, a) {
        StepReadsCurrent(s.db, s.txs[i], a.choice);
      } else if Commits(s, a).Some? {
        CommitterIsGone(s, a);
        assert Referrer(s.txs[a.tid]) == Some(Commits(s, a).value.userId);
      }
    }
  }

  lemma CommitterIsGone(s: State, a: Action)
    requires a.Commit? && Enabled(s, a)
    ensures a.tid !in Apply(s, a).txs
  {
  }

  lemma {:induction false} ApartReadsCurrent(actions: seq<Action>)
    requires forall k | 0 <= k < |actions| :: ReferrersApart(Run(INIT, actions[..k]))
    ensures ReadsAreCurrent(Run(INIT, actions))
  {
    if actions != [] {
      var init := actions[..|actions| - 1];
      assert forall k | 0 <= k < |init| :: init[..k] == actions[..k];
      ApartReadsCurrent(init);
      RunKeepsTerms(init);
      ApplyKeepsCurrent(Run(INIT, init), actions[|actions| - 1]);
    }
  }

  /** Transactions that reward different referrers may overlap freely: if no two that have read the
      rewards of the same referrer are live at once, no commit overshoots. */
  lemma ApartNeverOvershoots(actions: seq<Action>)
    requires forall k | 0 <= k < |actions| :: ReferrersApart(Run(INIT, actions[..k]))
    ensures NeverOvershoots(INIT, actions)
  {
    forall k | 0 <= k < |actions| ensures !Overshoots(Run(INIT, actions[..k]), actions[k]) {
      var prefix := actions[..k];
      assert forall j | 0 <= j < k :: prefix[..j] == actions[..j];
      ApartReadsCurrent(prefix);
      RunKeepsTerms(prefix);
      CurrentNeverOvershoots(Run(INIT, prefix), actions[k]);
    }
  }

  // ---- transactions one after the other ----

  /** No transaction begins, and no setting changes, while a transaction is live. */
  predicate Serial(s: State, actions: seq<Action>) {
    forall k | 0 <= k < |actions| && (actions[k].Begin? || actions[k].SetSettings?) :: Run(s, actions[..k]).txs == map[]
  }

  ghost predicate SerialOk(s: State) {
    && TxsTermsOk(s) && ReadsAreCurrent(s)
    && (forall i, j | i in s.txs && j in s.txs :: i == j)
    && (forall i <- s.txs :: Referrer(s.txs[i]).Some? ==> TermsOf(s.txs[i]).cap == s.db.settings.maxBonus)
  }

  lemma SerialStep(s: State, a: Action)
    requires SerialOk(s) && (a.Begin? || a.SetSettings? ==> s.txs == map[])
    ensures SerialOk(Apply(s, a))
  {
    ApplyKeepsTxTerms(s, a);
    ApplyKeepsCurrent(s, a);
    SettingsAfter(s, a);
    var s' := Apply(s, a);
    forall i, j | i in s'.txs && j in s'.txs ensures i == j {
      TxsAfter(s, a, i);
      TxsAfter(s, a, j);
    }
    forall i | i in s'.txs && Referrer(s'.txs[i]).Some? ensures TermsOf(s'.txs[i]).cap == s'.db.settings.maxBonus {
      TxsAfter(s, a, i);
      if a.Step? && i == a.tid && Enabled(s, a) {
        SerialRead(s.db, s.txs[i], a.choice);
      }
    }
  }

  lemma SerialRead(db: Db, t: Tx, c: Choice)
    requires TxTermsOk(db.ledger, t) && Exec(db, t, c).Go?
    requires Referrer(t).Some? ==> TermsOf(t).cap == db.settings.maxBonus
    ensures var t' := Exec(db, t, c).tx; Referrer(t').Some? ==> TermsOf(t').cap == db.settings.maxBonus
  {
    StepReadsCurrent(db, t, c);
  }

  lemma {:induction false} SerialPrefix(s: State, actions: seq<Action>, k: nat)
    requires s.txs == map[] && Serial(s, actions) && k <= |actions|
    ensures SerialOk(Run(s, actions[..k]))
  {
    if k > 0 {
      SerialPrefix(s, actions, k - 1);
      assert actions[..k][..k - 1] == actions[..k - 1];
      SerialStep(Run(s, actions[..k - 1]), actions[k - 1]);
    }
  }

  function Max(a: int, b: int): int {
    if a < b then b else a
  }

  /** Over transactions run one after the other, no step raises the rewards of a referrer above a
      positive cap in force at that step, whatever the settings were changed to before. */
  lemma RewardsStayUnderCap(s: State, actions: seq<Action>, u: nat, k: nat)
    requires s.txs == map[] && Serial(s, actions) && k < |actions|
    ensures var before, after := Run(s, actions[..k]).db, Run(s, actions[..k + 1]).db;
            before.settings.maxBonus > 0 ==>
              after.Sum(EarnedBy(u)) <= Max(before.Sum(EarnedBy(u)), before.settings.maxBonus)
  {
    var b := Run(s, actions[..k]);
    assert actions[..k + 1][..k] == actions[..k];
    SerialPrefix(s, actions, k);
    EarnedAfter(b, actions[k], u);
    if Commits(b, actions[k]).Some? {
      assert TxTermsOk(b.db.ledger, b.txs[actions[k].tid]);
    }
  }

  /** So under a cap that stays the same no such run exceeds it, or what was there at the start. */
  lemma {:induction false} RewardsStayUnderFixedCap(s: State, actions: seq<Action>, u: nat, cap: int)
    requires 0 < cap == s.db.settings.maxBonus && s.txs == map[] && Serial(s, actions) && FixesCap(actions, cap)
    ensures Run(s, actions).db.settings.maxBonus == cap
    ensures Run(s, actions).db.Sum(EarnedBy(u)) <= Max(s.db.Sum(EarnedBy(u)), cap)
  {
    if actions != [] {
      var init := actions[..|actions| - 1];
      assert forall k | 0 <= k < |init| :: init[..k] == actions[..k] && init[k] == actions[k];
      RewardsStayUnderFixedCap(s, init, u, cap);
      SettingsAfter(Run(s, init), actions[|actions| - 1]);
      RewardsStayUnderCap(s, actions, u, |actions| - 1);
      assert actions[..|actions|] == actions;
    }
  }

  /** Every commission is at most the floor of its percentage of the order. */
  lemma CommissionIsShareOfOrder(actions: seq<Action>, r: LedgerRow)
    requires r in Run(INIT, actions).db.ledger && r.kind.ReferralReward?
    ensures var db := Run(INIT, actions).db;
            && r.orderId.Some? && r.orderId.value in db.orders && 0 < r.terms.rate <= 100
            && 0 < r.amount <= db.orders[r.orderId.value].total * r.terms.rate / 100
  {
    assert Inv(INIT) by {
      forall u: nat ensures WalletOk(EMPTY_DB, u) {}
    }
    RunKeeps(INIT, actions);
    assert RowOk(Run(INIT, actions).db, r);
  }
}
