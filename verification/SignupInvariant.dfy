/** What the signup-referral machine keeps, and the proof that every action keeps it. */
module SignupInvariant {
  import opened Options
  import opened SignupReferral

  // ---- the invariant ----

  ghost predicate ReferralOk(s: State, r: nat) {
    if r !in s.referrals then
      r !in s.flipped && forall user: nat :: Sum(Times(r, user), s.grants) == 0
    else
      var row := s.referrals[r];
      && row.referrer != row.referred && row.referredReward == row.referrerReward
      && (row.status.Pending? ==> r !in s.flipped)
      && (forall user: nat :: Sum(Times(r, user), s.grants) ==
            if !row.status.Pending? && r !in s.flipped && row.Has(user) then 1 else 0)
      && (row.status.Rewarded? ==> (r, row.referrer) in s.provisioned && (r, row.referred) in s.provisioned)
  }

  /** What a granting call has seen is still so: a set quota stays set, an unlimited trial was opened
      as such, and an absent trial stays absent once its row is written. */
  ghost predicate SeenOk(s: State, c: Call, i: nat)
    requires c.Granting? && c.r in s.referrals && i < |c.seen|
  {
    var user := s.referrals[c.r].User(i);
    match c.seen[i]
    case Limited => user in s.trials && s.trials[user].Some?
    case Unlimited => user in s.trials && user in s.opening && s.opening[user].None?
    case Absent => i < c.writes ==> user !in s.trials
  }

  ghost predicate CallOk(s: State, c: Call) {
    && c.r in s.referrals
    && (c.Claiming? ==> s.referrals[c.r].referrerReward > 0)
    && (c.Granting? ==>
          && s.referrals[c.r].status.Pending? && s.referrals[c.r].referrerReward > 0
          && c.writes <= |c.seen| <= c.writes + 1 && c.writes <= 2 && |c.seen| <= 2
          && forall i | 0 <= i < |c.seen| :: SeenOk(s, c, i))
    && (c.Provisioning? ==>
          && c.done <= 2
          && (c.done >= 1 ==> (c.r, s.referrals[c.r].referrer) in s.provisioned)
          && (c.done == 2 ==> (c.r, s.referrals[c.r].referred) in s.provisioned))
  }

  /** The quota of a trial that was opened with one, or created by a grant, is its opening plus the
      bytes granted. An unlimited trial stays so until its first grant; from then on the quota is what
      was granted, unless more than one grant was blind: then it is less. */
  predicate QuotaFits(opening: Option<int>, quota: Option<int>, bytes: int, grants: int, blind: int) {
    if opening.Some? then blind == 0 && quota == Some(opening.value + bytes)
    else if grants == 0 then quota.None? && blind == 0 && bytes == 0
    else
      && grants > 0 && blind >= 1 && quota.Some? && 0 < quota.value <= bytes
      && (quota.value == bytes <==> blind == 1)
  }

  lemma GrantFits(opening: Option<int>, quota: Option<int>, bytes: int, grants: int, blind: int, seen: Seen, more: int)
    requires QuotaFits(opening, quota, bytes, grants, blind) && more > 0
    requires match seen
             case Limited => quota.Some?
             case Unlimited => opening.None?
             case Absent => quota == Some(0) && opening.Some?
    ensures QuotaFits(opening, Written(seen, quota, more), bytes + more, grants + 1,
                      blind + if seen.Unlimited? then 1 else 0)
  {
  }

  ghost predicate QuotaOk(s: State, user: nat) {
    && (QuotaIn(s.opening, user).None? ==> user in s.trials)
    && QuotaFits(QuotaIn(s.opening, user), QuotaIn(s.trials, user),
                 Sum(Bytes(user), s.grants), Sum(Grants(user), s.grants), Sum(Blind(user), s.grants))
  }

  ghost predicate TrialOk(s: State, user: nat) {
    user !in s.trials ==>
      user !in s.opening && Sum(Bytes(user), s.grants) == 0 && Sum(Grants(user), s.grants) == 0
  }

  ghost predicate CallsOk(s: State) {
    && (forall i <- s.calls :: CallOk(s, s.calls[i]))
    && (forall i, j | i in s.calls && j in s.calls && i != j ::
          s.calls[i].Granting? && s.calls[j].Granting? ==> s.calls[i].r != s.calls[j].r)
    && (forall i, j, user: nat | i in s.calls && j in s.calls && i != j ::
          !(Holds(s, s.calls[i], user) && Holds(s, s.calls[j], user)))
  }

  ghost predicate Inv(s: State) {
    && (forall r: nat :: ReferralOk(s, r))
    && CallsOk(s)
    && (forall user: nat :: QuotaOk(s, user) && TrialOk(s, user))
    && GrantsOk(s.grants)
  }

  // ---- a commit keeps it ----

  /** One grant to a user whose quota obeys the invariant. */
  lemma GrantWorks(s: State, c: Call, i: nat)
    requires c.Granting? && CallOk(s, c) && |c.seen| == c.writes == 2 && i < 2
    requires QuotaOk(s, s.referrals[c.r].User(i)) && TrialOk(s, s.referrals[c.r].User(i))
    ensures var g := GrantOf(s, c, i);
            && (g.IsRaise() <==> !g.sawUnlimited) && g.bytes > 0
            && (g.sawUnlimited ==> g.after == Some(g.bytes))
            && (!g.sawUnlimited ==> g.before.Some? && g.after == Some(g.before.value + g.bytes))
  {
    assert SeenOk(s, c, i);
  }

  lemma CommitKeepsReferrals(s: State, call: nat, x: nat)
    requires Inv(s) && Enabled(s, Commit(call))
    ensures ReferralOk(Committed(s, call), x)
  {
    var c := s.calls[call];
    assert CallOk(s, c) && ReferralOk(s, c.r) && ReferralOk(s, x);
    forall user: nat { TwoMore(Times(x, user), s.grants, GrantOf(s, c, 0), GrantOf(s, c, 1)); }
  }

  /** The sums of a user, with one more grant. */
  predicate Counted(s: State, s': State, user: nat, g: Grant) {
    && Sum(Bytes(user), s'.grants) == Sum(Bytes(user), s.grants) + g.bytes
    && Sum(Grants(user), s'.grants) == Sum(Grants(user), s.grants) + 1
    && Sum(Blind(user), s'.grants) == Sum(Blind(user), s.grants) + if g.sawUnlimited then 1 else 0
  }

  lemma CommitCounts(s: State, call: nat, i: nat)
    requires Enabled(s, Commit(call)) && s.referrals[s.calls[call].r].referrer != s.referrals[s.calls[call].r].referred
    requires i < 2
    ensures var g, s' := GrantOf(s, s.calls[call], i), Committed(s, call);
            Counted(s, s', g.user, g) && QuotaIn(s'.trials, g.user) == g.after && g.user in s'.trials
  {
    var a, b := GrantOf(s, s.calls[call], 0), GrantOf(s, s.calls[call], 1);
    var user := if i == 0 then a.user else b.user;
    TwoMore(Bytes(user), s.grants, a, b);
    TwoMore(Grants(user), s.grants, a, b);
    TwoMore(Blind(user), s.grants, a, b);
  }

  lemma CommitSpares(s: State, call: nat, user: nat)
    requires Enabled(s, Commit(call)) && !s.referrals[s.calls[call].r].Has(user)
    requires QuotaOk(s, user) && TrialOk(s, user)
    ensures QuotaOk(Committed(s, call), user) && TrialOk(Committed(s, call), user)
  {
    var a, b := GrantOf(s, s.calls[call], 0), GrantOf(s, s.calls[call], 1);
    TwoMore(Bytes(user), s.grants, a, b);
    TwoMore(Grants(user), s.grants, a, b);
    TwoMore(Blind(user), s.grants, a, b);
  }

  lemma CommitKeepsQuota(s: State, call: nat, user: nat)
    requires Inv(s) && Enabled(s, Commit(call))
    ensures QuotaOk(Committed(s, call), user) && TrialOk(Committed(s, call), user)
  {
    var c := s.calls[call];
    assert CallOk(s, c) && ReferralOk(s, c.r);
    assert QuotaOk(s, user) && TrialOk(s, user);
    if s.referrals[c.r].Has(user) {
      var i := if user == s.referrals[c.r].referrer then 0 else 1;
      OneGrantKeepsQuota(s, c, i);
      CommitCounts(s, call, i);
    } else {
      CommitSpares(s, call, user);
    }
  }

  lemma OneGrantKeepsQuota(s: State, c: Call, i: nat)
    requires c.Granting? && CallOk(s, c) && |c.seen| == c.writes == 2 && i < 2
    requires QuotaOk(s, s.referrals[c.r].User(i)) && TrialOk(s, s.referrals[c.r].User(i))
    ensures var g, user := GrantOf(s, c, i), s.referrals[c.r].User(i);
            QuotaFits(QuotaIn(s.opening, user), g.after, Sum(Bytes(user), s.grants) + g.bytes,
                      Sum(Grants(user), s.grants) + 1, Sum(Blind(user), s.grants) + if g.sawUnlimited then 1 else 0)
  {
    var user := s.referrals[c.r].User(i);
    assert SeenOk(s, c, i);
    GrantFits(QuotaIn(s.opening, user), QuotaIn(s.trials, user), Sum(Bytes(user), s.grants),
              Sum(Grants(user), s.grants), Sum(Blind(user), s.grants), c.seen[i], s.referrals[c.r].referrerReward);
  }

  lemma CommitKeepsCall(s: State, call: nat, i: nat)
    requires Inv(s) && Enabled(s, Commit(call)) && i in s.calls && i != call
    ensures CallOk(Committed(s, call), s.calls[i])
  {
    var c, d := s.calls[call], s.calls[i];
    var s' := Committed(s, call);
    assert CallOk(s, c) && CallOk(s, d) && ReferralOk(s, c.r);
    GrantWorks(s, c, 0);
    GrantWorks(s, c, 1);
    if d.Granting? {
      forall k | 0 <= k < |d.seen| ensures SeenOk(s', d, k) {
        assert SeenOk(s, d, k);
        var user := s.referrals[d.r].User(k);
        if k < d.writes {
          assert Holds(s, d, user) && !Holds(s, c, user);
        }
      }
    }
  }

  lemma CommitKeeps(s: State, call: nat)
    requires Inv(s) && Enabled(s, Commit(call))
    ensures Inv(Committed(s, call))
  {
    var c := s.calls[call];
    var s' := Committed(s, call);
    assert CallOk(s, c);
    GrantWorks(s, c, 0);
    GrantWorks(s, c, 1);
    forall r: nat ensures ReferralOk(s', r) { CommitKeepsReferrals(s, call, r); }
    forall user: nat ensures QuotaOk(s', user) && TrialOk(s', user) { CommitKeepsQuota(s, call, user); }
    forall i <- s'.calls ensures CallOk(s', s'.calls[i]) {
      if i != call { CommitKeepsCall(s, call, i); }
    }
    forall i, j, user: nat | i in s'.calls && j in s'.calls && i != j
      ensures !(Holds(s', s'.calls[i], user) && Holds(s', s'.calls[j], user))
    {
      assert Holds(s', s'.calls[i], user) ==> i != call && Holds(s, s.calls[i], user);
      assert Holds(s', s'.calls[j], user) ==> j != call && Holds(s, s.calls[j], user);
    }
  }

  // ---- every other action keeps it ----

  lemma ReferralStays(s: State, a: Action, r: nat)
    requires ReferralOk(s, r) && Enabled(s, a) && !a.Commit?
    requires a.Mark? ==> CallOk(s, s.calls[a.call])
    ensures ReferralOk(Apply(s, a), r)
  {
  }

  /** Only a user who opens a trial and a commit write quotas. */
  lemma TrialsStay(s: State, a: Action)
    requires !a.Commit? && !a.OpenTrial?
    ensures var s' := Apply(s, a);
            s'.trials == s.trials && s'.opening == s.opening && s'.grants == s.grants
  {
  }

  lemma OpenKeepsQuota(s: State, opener: nat, quota: Option<int>, user: nat)
    requires QuotaOk(s, user) && TrialOk(s, user) && Enabled(s, OpenTrial(opener, quota))
    ensures var s' := Apply(s, OpenTrial(opener, quota)); QuotaOk(s', user) && TrialOk(s', user)
  {
  }

  lemma QuotaStays(s: State, a: Action, user: nat)
    requires QuotaOk(s, user) && TrialOk(s, user) && Enabled(s, a) && !a.Commit?
    ensures QuotaOk(Apply(s, a), user) && TrialOk(Apply(s, a), user)
  {
    if a.OpenTrial? {
      OpenKeepsQuota(s, a.user, a.quota, user);
    } else {
      TrialsStay(s, a);
    }
  }

  /** Referrals keep their users and rewards, and a pending one leaves that status only when nobody
      holds it. */
  lemma ReferralsStay(s: State, a: Action, r: nat)
    requires Enabled(s, a) && !a.Commit? && r in s.referrals
    ensures var s' := Apply(s, a);
            && r in s'.referrals && s'.referrals[r].(status := s.referrals[r].status) == s.referrals[r]
            && (s.referrals[r].status.Pending? && !RowFree(s, r) ==> s'.referrals[r].status.Pending?)
    ensures s.provisioned <= Apply(s, a).provisioned
  {
  }

  /** What a call has seen stays so when another one acts. */
  lemma SeenStays(s: State, a: Action, i: nat, k: nat)
    requires CallsOk(s) && Enabled(s, a) && !a.Commit? && i in s.calls && s.calls[i].Granting?
    requires k < |s.calls[i].seen|
    ensures s.calls[i].r in Apply(s, a).referrals && SeenOk(Apply(s, a), s.calls[i], k)
  {
    var c := s.calls[i];
    assert CallOk(s, c) && SeenOk(s, c, k);
    ReferralsStay(s, a, c.r);
    if a.OpenTrial? {
      assert !Holds(s, c, a.user);
      OpensTrial(s, a.user, a.quota);
    } else {
      TrialsStay(s, a);
    }
  }

  lemma OpensTrial(s: State, user: nat, quota: Option<int>)
    requires Enabled(s, OpenTrial(user, quota))
    ensures Apply(s, OpenTrial(user, quota))
      == s.(trials := s.trials[user := quota], opening := s.opening[user := quota])
  {
  }

  lemma OtherCallStays(s: State, a: Action, i: nat)
    requires CallsOk(s) && Enabled(s, a) && !a.Commit? && i in s.calls
    ensures CallOk(Apply(s, a), s.calls[i])
  {
    var c := s.calls[i];
    assert CallOk(s, c);
    ReferralsStay(s, a, c.r);
    if c.Granting? {
      forall k | 0 <= k < |c.seen| ensures SeenOk(Apply(s, a), c, k) {
        SeenStays(s, a, i, k);
      }
    }
  }

  /** A granting call reads the next trial. */
  lemma ReadTrialStays(s: State, call: nat)
    requires CallsOk(s) && (forall user: nat :: QuotaOk(s, user)) && Enabled(s, ReadTrial(call))
    ensures CallOk(Apply(s, ReadTrial(call)), Apply(s, ReadTrial(call)).calls[call])
  {
    var c := s.calls[call];
    var s' := Apply(s, ReadTrial(call));
    var c' := s'.calls[call];
    assert CallOk(s, c) && QuotaOk(s, Next(s, c));
    forall k | 0 <= k < |c'.seen| ensures SeenOk(s', c', k) {
      if k < |c.seen| { assert SeenOk(s, c, k); }
    }
  }

  /** It writes it. */
  lemma WriteTrialStays(s: State, call: nat)
    requires CallsOk(s) && Enabled(s, WriteTrial(call)) && call in Apply(s, WriteTrial(call)).calls
    ensures CallOk(Apply(s, WriteTrial(call)), Apply(s, WriteTrial(call)).calls[call])
  {
    var c := s.calls[call];
    var s' := Apply(s, WriteTrial(call));
    var c' := s'.calls[call];
    assert CallOk(s, c);
    if c'.Granting? {
      forall k | 0 <= k < |c'.seen| ensures SeenOk(s', c', k) {
        assert SeenOk(s, c, k);
      }
    }
  }

  /** The steps up to the claim. */
  predicate IsEarly(a: Action) {
    a.SignUp? || a.OpenTrial? || a.Begin? || a.Read? || a.Claim?
  }

  lemma EarlyStepStays(s: State, a: Action, i: nat)
    requires CallsOk(s) && Enabled(s, a) && IsEarly(a)
    requires i in Apply(s, a).calls && (i in s.calls ==> Apply(s, a).calls[i] != s.calls[i])
    ensures CallOk(Apply(s, a), Apply(s, a).calls[i])
  {
    if i in s.calls { assert CallOk(s, s.calls[i]); }
  }

  lemma OtherStepStays(s: State, a: Action, i: nat)
    requires CallsOk(s) && Enabled(s, a) && !IsEarly(a) && !a.Commit? && !a.ReadTrial? && !a.WriteTrial?
    requires i in Apply(s, a).calls && (i in s.calls ==> Apply(s, a).calls[i] != s.calls[i])
    ensures CallOk(Apply(s, a), Apply(s, a).calls[i])
  {
    assert Apply(s, a).referrals == s.referrals;
    if i in s.calls { assert CallOk(s, s.calls[i]); }
  }

  /** The call that acts. */
  lemma OwnCallStays(s: State, a: Action, i: nat)
    requires CallsOk(s) && (forall user: nat :: QuotaOk(s, user)) && Enabled(s, a) && !a.Commit?
    requires i in Apply(s, a).calls && (i in s.calls ==> Apply(s, a).calls[i] != s.calls[i])
    ensures CallOk(Apply(s, a), Apply(s, a).calls[i])
  {
    if a.ReadTrial? {
      TrialStepIsOwn(s, a, i);
      ReadTrialStays(s, a.call);
    } else if a.WriteTrial? {
      TrialStepIsOwn(s, a, i);
      WriteTrialStays(s, a.call);
    } else if IsEarly(a) {
      EarlyStepStays(s, a, i);
    } else {
      OtherStepStays(s, a, i);
    }
  }

  lemma TrialStepIsOwn(s: State, a: Action, i: nat)
    requires Enabled(s, a) && (a.ReadTrial? || a.WriteTrial?)
    requires i in Apply(s, a).calls && (i in s.calls ==> Apply(s, a).calls[i] != s.calls[i])
    ensures i == a.call
  {
  }

  /** A call holds a trial that it did not hold before only by writing it, which nobody else holds. */
  lemma HoldersDiffer(s: State, a: Action, i: nat, j: nat, user: nat)
    requires CallsOk(s) && Enabled(s, a) && !a.Commit? && i != j
    requires i in Apply(s, a).calls && j in Apply(s, a).calls
    ensures !(Holds(Apply(s, a), Apply(s, a).calls[i], user) && Holds(Apply(s, a), Apply(s, a).calls[j], user))
  {
    var s' := Apply(s, a);
    if Holds(s', s'.calls[i], user) && Holds(s', s'.calls[j], user) {
      HeldBefore(s, a, i, user);
      HeldBefore(s, a, j, user);
    }
  }

  /** Only writing a trial makes a call hold more. */
  lemma WritesStay(s: State, a: Action, i: nat)
    requires Enabled(s, a) && !a.Commit? && i in Apply(s, a).calls
    requires Apply(s, a).calls[i].Granting? && Apply(s, a).calls[i].writes > 0
    ensures i in s.calls && s.calls[i].Granting? && s.calls[i].r == Apply(s, a).calls[i].r
    ensures Apply(s, a).calls[i].writes == s.calls[i].writes + if a == WriteTrial(i) then 1 else 0
  {
  }

  lemma HeldBefore(s: State, a: Action, i: nat, user: nat)
    requires CallsOk(s) && Enabled(s, a) && !a.Commit? && i in Apply(s, a).calls
    requires Holds(Apply(s, a), Apply(s, a).calls[i], user)
    ensures i in s.calls
    ensures Holds(s, s.calls[i], user) || (a == WriteTrial(i) && s.calls[i].Granting? && user == Next(s, s.calls[i]))
  {
    WritesStay(s, a, i);
    assert CallOk(s, s.calls[i]);
    ReferralsStay(s, a, s.calls[i].r);
  }

  /** At most one transaction holds a referral. */
  lemma ReferralsDiffer(s: State, a: Action, i: nat, j: nat)
    requires CallsOk(s) && Enabled(s, a) && i != j
    requires i in Apply(s, a).calls && Apply(s, a).calls[i].Granting?
    requires j in Apply(s, a).calls && Apply(s, a).calls[j].Granting?
    ensures Apply(s, a).calls[i].r != Apply(s, a).calls[j].r
  {
    GrantingBefore(s, a, i);
    GrantingBefore(s, a, j);
  }

  lemma GrantingBefore(s: State, a: Action, i: nat)
    requires Enabled(s, a) && i in Apply(s, a).calls && Apply(s, a).calls[i].Granting?
    ensures i in s.calls && s.calls[i].r == Apply(s, a).calls[i].r
    ensures s.calls[i].Granting? || (a == Claim(i) && RowFree(s, s.calls[i].r))
  {
  }

  lemma ApplyKeeps(s: State, a: Action)
    requires Inv(s)
    ensures Inv(Apply(s, a))
  {
    if Enabled(s, a) {
      if a.Commit? {
        CommitKeeps(s, a.call);
      } else {
        CallsStay(s, a);
        forall r: nat ensures ReferralOk(Apply(s, a), r) {
          ReferralStays(s, a, r);
        }
        forall user: nat ensures QuotaOk(Apply(s, a), user) && TrialOk(Apply(s, a), user) {
          QuotaStays(s, a, user);
        }
        assert GrantsOk(Apply(s, a).grants) by {
          if !a.OpenTrial? { TrialsStay(s, a); }
        }
      }
    }
  }

  lemma CallsStay(s: State, a: Action)
    requires CallsOk(s) && (forall user: nat :: QuotaOk(s, user)) && Enabled(s, a) && !a.Commit?
    ensures CallsOk(Apply(s, a))
  {
    var s' := Apply(s, a);
    forall i <- s'.calls ensures CallOk(s', s'.calls[i]) {
      if i in s.calls && s'.calls[i] == s.calls[i] {
        OtherCallStays(s, a, i);
      } else {
        OwnCallStays(s, a, i);
      }
    }
    forall i, j | i in s'.calls && j in s'.calls && i != j && s'.calls[i].Granting? && s'.calls[j].Granting?
      ensures s'.calls[i].r != s'.calls[j].r
    {
      ReferralsDiffer(s, a, i, j);
    }
    forall i, j, user: nat | i in s'.calls && j in s'.calls && i != j
      ensures !(Holds(s', s'.calls[i], user) && Holds(s', s'.calls[j], user))
    {
      HoldersDiffer(s, a, i, j, user);
    }
  }

  lemma {:induction false} RunKeeps(s: State, actions: seq<Action>)
    requires Inv(s)
    ensures Inv(Run(s, actions))
  {
    if actions != [] {
      RunKeeps(s, actions[..|actions| - 1]);
      ApplyKeeps(Run(s, actions[..|actions| - 1]), actions[|actions| - 1]);
    }
  }

  lemma Reachable(actions: seq<Action>)
    ensures Inv(Run(INIT, actions))
  {
    assert Inv(INIT);
    RunKeeps(INIT, actions);
  }
}
