/** What every run of the signup-referral machine guarantees. */
module SignupTheorems {
  import opened Options
  import opened SignupReferral
  import opened SignupInvariant

  /** A grant of the referral read one of its trials as unlimited. */
  predicate ReadUnlimited(grants: seq<Grant>, r: nat) {
    exists g <- grants :: g.r == r && g.sawUnlimited
  }

  predicate GrantedBoth(s: State, r: nat)
    requires r in s.referrals
  {
    Sum(Times(r, s.referrals[r].referrer), s.grants) == Sum(Times(r, s.referrals[r].referred), s.grants) == 1
  }

  predicate RaisedBoth(s: State, r: nat)
    requires r in s.referrals
  {
    Sum(Raises(r, s.referrals[r].referrer), s.grants) == Sum(Raises(r, s.referrals[r].referred), s.grants) == 1
  }

  /** Across any number of calls, retries and crashes a referral grants each of its users at most
      once and nobody else. Once it is no longer pending, it has granted both exactly once, if and
      only if no order's commission completed it first; and it has raised both quotas, if and only if
      besides neither trial was read as unlimited. It is marked rewarded only after both users were
      provisioned. */
  lemma RewardedOnce(actions: seq<Action>, r: nat)
    requires r in Run(INIT, actions).referrals
    ensures var s := Run(INIT, actions);
            var row := s.referrals[r];
            && (forall user: nat :: 0 <= Sum(Raises(r, user), s.grants) <= Sum(Times(r, user), s.grants))
            && (forall user: nat :: Sum(Times(r, user), s.grants) <= if row.Has(user) then 1 else 0)
            && (row.status.Pending? ==> forall user: nat :: Sum(Times(r, user), s.grants) == 0)
            && (!row.status.Pending? ==> (GrantedBoth(s, r) <==> r !in s.flipped))
            && (!row.status.Pending? ==> (RaisedBoth(s, r) <==> r !in s.flipped && !ReadUnlimited(s.grants, r)))
            && (row.status.Rewarded? ==> (r, row.referrer) in s.provisioned && (r, row.referred) in s.provisioned)
  {
    Reachable(actions);
    var s := Run(INIT, actions);
    var row := s.referrals[r];
    assert ReferralOk(s, r);
    forall user: nat { RaisesAreNotBlind(s.grants, r, user); }
    forall g | g in s.grants && g.r == r ensures row.Has(g.user) {
      CountedGrant(s.grants, g);
    }
  }

  /** A grant in the history counts. */
  lemma {:induction false} CountedGrant(grants: seq<Grant>, g: Grant)
    requires g in grants
    ensures Sum(Times(g.r, g.user), grants) > 0 && Sum(Grants(g.user), grants) > 0
    ensures g.sawUnlimited ==> Sum(Blind(g.user), grants) > 0
  {
    var before, last := grants[..|grants| - 1], grants[|grants| - 1];
    CountsAreNonNegative(before, g.r, g.user);
    if g in before {
      CountedGrant(before, g);
    } else {
      assert grants == before + [last];
    }
  }

  lemma {:induction false} CountsAreNonNegative(grants: seq<Grant>, r: nat, user: nat)
    ensures Sum(Times(r, user), grants) >= 0 && Sum(Grants(user), grants) >= 0 && Sum(Blind(user), grants) >= 0
    ensures Sum(Blind(user), grants) > 0 ==> exists g <- grants :: g.user == user && g.sawUnlimited
  {
    if grants != [] {
      var before, last := grants[..|grants| - 1], grants[|grants| - 1];
      CountsAreNonNegative(before, r, user);
      assert grants == before + [last];
    }
  }

  /** A quota raised by the bytes granted; an unlimited one stays so. */
  function Plus(quota: Option<int>, bytes: int): Option<int> {
    if quota.None? then None else Some(quota.value + bytes)
  }

  /** A grant to the user read the trial as unlimited. */
  predicate WasBlind(grants: seq<Grant>, user: nat) {
    exists g <- grants :: g.user == user && g.sawUnlimited
  }

  /** A user's quota is what the trial was opened with plus the bytes granted, if and only if no grant
      to that user read the trial as unlimited. */
  lemma QuotaIsOpeningPlusGrantsIff(actions: seq<Action>, user: nat)
    ensures var s := Run(INIT, actions);
            var plain := Plus(QuotaIn(s.opening, user), Sum(Bytes(user), s.grants));
            QuotaIn(s.trials, user) == plain <==> !WasBlind(s.grants, user)
  {
    Reachable(actions);
    var s := Run(INIT, actions);
    assert QuotaOk(s, user) && TrialOk(s, user);
    CountsAreNonNegative(s.grants, 0, user);
    forall g | g in s.grants && g.user == user && g.sawUnlimited ensures Sum(Blind(user), s.grants) > 0 {
      CountedGrant(s.grants, g);
    }
  }

  /** Where a trial was opened without a limit, the first grant limits it, and the quota is then the
      sum of what was granted, if and only if only one grant read the trial as unlimited; otherwise it
      is less, and the difference is lost. */
  lemma NoGrantIsLostIff(actions: seq<Action>, user: nat)
    requires var s := Run(INIT, actions); user in s.opening && s.opening[user].None?
    ensures var s := Run(INIT, actions);
            var bytes := Sum(Bytes(user), s.grants);
            && user in s.trials && (s.trials[user].None? <==> Sum(Grants(user), s.grants) == 0)
            && (s.trials[user].Some? ==>
                  && 0 < s.trials[user].value <= bytes
                  && (s.trials[user].value == bytes <==> Sum(Blind(user), s.grants) == 1))
  {
    Reachable(actions);
    assert QuotaOk(Run(INIT, actions), user);
  }
}
