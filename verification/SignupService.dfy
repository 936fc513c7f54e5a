/** Runs of the signup-referral machine that exist, and its transaction as it is written. */
module SignupService {
  import opened Options
  import opened SignupReferral
  import opened SignupInvariant

  // ---- runs ----

  /** One more action at the end of a run from `s`. */
  lemma Then(s: State, actions: seq<Action>, s1: State, a: Action, s2: State)
    requires Run(s, actions) == s1 && Apply(s1, a) == s2
    ensures Run(s, actions + [a]) == s2
  {
    assert (actions + [a])[..|actions|] == actions;
  }

  /** The trials after a grant of `bytes` to `user`. */
  function Granted(trials: map<nat, Option<int>>, user: nat, bytes: int): map<nat, Option<int>> {
    trials[user := Written(Look(trials, user), QuotaIn(trials, user), bytes)]
  }

  function BothGranted(trials: map<nat, Option<int>>, row: Referral): map<nat, Option<int>> {
    Granted(Granted(trials, row.referrer, row.referrerReward), row.referred, row.referrerReward)
  }

  predicate Grantable(s: State, r: nat) {
    && r in s.referrals && s.referrals[r].status.Pending? && s.referrals[r].referrer != s.referrals[r].referred
    && s.referrals[r].referrerReward > 0 && s.referrals[r].referredReward == s.referrals[r].referrerReward
  }

  /** At the end of a run to `s`, a call comes as far as having read the first trial. */
  lemma ComesToRead(start: State, prefix: seq<Action>, s: State, call: nat, r: nat) returns (actions: seq<Action>)
    requires Run(start, prefix) == s && Grantable(s, r) && call !in s.calls && RowFree(s, r)
    ensures var seen := Look(s.trials, s.referrals[r].referrer);
            Run(start, actions) == s.(calls := s.calls[call := Granting(r, true, [seen], 0)])
  {
    var s1, s2 := s.(calls := s.calls[call := Started(r, true)]), s.(calls := s.calls[call := Claiming(r, true)]);
    var s3 := s.(calls := s.calls[call := Granting(r, true, [], 0)]);
    Then(start, prefix, s, Begin(call, r), s1);
    actions := prefix + [Begin(call, r)];
    Then(start, actions, s1, Read(call), s2);
    actions := actions + [Read(call)];
    Claims(s, s2, call, r);
    Then(start, actions, s2, Claim(call), s3);
    actions := actions + [Claim(call)];
    var seen := Look(s.trials, s.referrals[r].referrer);
    var s4 := s.(calls := s.calls[call := Granting(r, true, [seen], 0)]);
    ReadsTrial(s3, call);
    assert [] + [seen] == [seen] && s3.calls[call := s4.calls[call]] == s4.calls;
    Then(start, actions, s3, ReadTrial(call), s4);
    actions := actions + [ReadTrial(call)];
  }

  lemma Claims(s: State, s': State, call: nat, r: nat)
    requires Grantable(s, r) && RowFree(s, r) && s' == s.(calls := s.calls[call := Claiming(r, true)])
    ensures Apply(s', Claim(call)) == s.(calls := s.calls[call := Granting(r, true, [], 0)])
  {
  }

  /** A call that has read the first trial reads the second and writes both, while nobody else has
      written either. */
  lemma WritesBoth(start: State, prefix: seq<Action>, s: State, call: nat, r: nat, seen: Seen)
    returns (actions: seq<Action>)
    requires Run(start, prefix) == s && Grantable(s, r)
    requires call in s.calls && s.calls[call] == Granting(r, true, [seen], 0)
    requires TrialFree(s, s.referrals[r].referrer, call) && TrialFree(s, s.referrals[r].referred, call)
    requires seen.Absent? ==> s.referrals[r].referrer !in s.trials
    ensures var both := [seen, Look(s.trials, s.referrals[r].referred)];
            Run(start, actions) == s.(calls := s.calls[call := Granting(r, true, both, 2)])
  {
    var row := s.referrals[r];
    var both := [seen, Look(s.trials, row.referred)];
    var s1 := s.(calls := s.calls[call := Granting(r, true, [seen], 1)]);
    var s2 := s.(calls := s.calls[call := Granting(r, true, both, 1)]);
    var s3 := s.(calls := s.calls[call := Granting(r, true, both, 2)]);
    WritesTrial(s, call);
    Then(start, prefix, s, WriteTrial(call), s1);
    actions := prefix + [WriteTrial(call)];
    ReadsTrial(s1, call);
    assert [seen] + [Look(s.trials, row.referred)] == both && s1.calls[call := s2.calls[call]] == s2.calls;
    Then(start, actions, s1, ReadTrial(call), s2);
    actions := actions + [ReadTrial(call)];
    assert TrialFree(s2, row.referred, call);
    WritesTrial(s2, call);
    assert s2.calls[call := s3.calls[call]] == s3.calls;
    Then(start, actions, s2, WriteTrial(call), s3);
    actions := actions + [WriteTrial(call)];
  }

  /** Then it commits. */
  lemma GrantsBoth(start: State, prefix: seq<Action>, s: State, call: nat, r: nat, seen: Seen)
    returns (actions: seq<Action>)
    requires Run(start, prefix) == s && Grantable(s, r)
    requires call in s.calls && s.calls[call] == Granting(r, true, [seen], 0)
    requires TrialFree(s, s.referrals[r].referrer, call) && TrialFree(s, s.referrals[r].referred, call)
    requires seen.Absent? ==> s.referrals[r].referrer !in s.trials
    ensures var row, s' := s.referrals[r], Run(start, actions);
            var first := Written(seen, QuotaIn(s.trials, row.referrer), row.referrerReward);
            && s'.trials == Granted(s.trials[row.referrer := first], row.referred, row.referrerReward)
            && s'.referrals == s.referrals[r := row.(status := Completed)]
            && s'.calls == s.calls[call := Provisioning(r, 0)] && s'.opening == s.opening
            && Sum(Bytes(row.referrer), s'.grants) == Sum(Bytes(row.referrer), s.grants) + row.referrerReward
  {
    var both := [seen, Look(s.trials, s.referrals[r].referred)];
    var s3 := s.(calls := s.calls[call := Granting(r, true, both, 2)]);
    actions := WritesBoth(start, prefix, s, call, r, seen);
    Then(start, actions, s3, Commit(call), Committed(s3, call));
    var c := s3.calls[call];
    TwoMore(Bytes(s.referrals[r].referrer), s.grants, GrantOf(s3, c, 0), GrantOf(s3, c, 1));
    actions := actions + [Commit(call)];
  }

  lemma ReadsTrial(s: State, call: nat)
    requires Enabled(s, ReadTrial(call))
    ensures var c := s.calls[call];
            Apply(s, ReadTrial(call)) == s.(calls := s.calls[call := c.(seen := c.seen + [Look(s.trials, Next(s, c))])])
  {
  }

  lemma WritesTrial(s: State, call: nat)
    requires Enabled(s, WriteTrial(call))
    requires var c := s.calls[call]; c.seen[c.writes].Absent? ==> Next(s, c) !in s.trials
    ensures var c := s.calls[call];
            Apply(s, WriteTrial(call)) == s.(calls := s.calls[call := c.(writes := c.writes + 1)])
  {
  }

  /** With nothing between its statements, a call claims the referral and grants both users what the
      transaction as it is written grants them. */
  lemma GrantIsARun(s: State, r: nat) returns (actions: seq<Action>)
    requires Grantable(s, r) && s.calls == map[]
    ensures var row, s' := s.referrals[r], Run(s, actions);
            && s'.trials == BothGranted(s.trials, row)
            && s'.referrals == s.referrals[r := row.(status := Completed)] && s'.calls == map[0 := Provisioning(r, 0)]
  {
    var row := s.referrals[r];
    var seen := Look(s.trials, row.referrer);
    var reading := ComesToRead(s, [], s, 0, r);
    actions := GrantsBoth(s, reading, s.(calls := s.calls[0 := Granting(r, true, [seen], 0)]), 0, r, seen);
  }

  // ---- an unlimited trial ----

  /** Two referrals of user 10, whose trial is unlimited. */
  const PARTY := State(
    map[1 := Referral(10, 20, Pending, 7, 7), 2 := Referral(10, 30, Pending, 7, 7)],
    map[10 := None], map[], map[10 := None], [], {}, {})

  lemma SetsUpParty() returns (actions: seq<Action>)
    ensures Run(INIT, actions) == PARTY
  {
    var s1 := INIT.(referrals := map[1 := PARTY.referrals[1]]);
    var s2 := INIT.(referrals := PARTY.referrals);
    Then(INIT, [], INIT, SignUp(1, 10, 20, 7), s1);
    assert s1.referrals[2 := PARTY.referrals[2]] == PARTY.referrals;
    Then(INIT, [] + [SignUp(1, 10, 20, 7)], s1, SignUp(2, 10, 30, 7), s2);
    Then(INIT, [] + [SignUp(1, 10, 20, 7)] + [SignUp(2, 10, 30, 7)], s2, OpenTrial(10, None), PARTY);
    actions := [] + [SignUp(1, 10, 20, 7)] + [SignUp(2, 10, 30, 7)] + [OpenTrial(10, None)];
  }

  /** A reward limits a trial that was unlimited. */
  lemma RewardLimitsUnlimited() returns (actions: seq<Action>)
    ensures var s := Run(INIT, actions);
            && 10 in s.opening && s.opening[10].None? && 10 in s.trials && s.trials[10] == Some(7)
            && Sum(Bytes(10), s.grants) == 7
  {
    var setup := SetsUpParty();
    var reading := ComesToRead(INIT, setup, PARTY, 0, 1);
    actions := GrantsBoth(INIT, reading, PARTY.(calls := map[0 := Granting(1, true, [Unlimited], 0)]), 0, 1, Unlimited);
  }

  /** Two calls that both read the trial as unlimited both write the reward: one of them is lost. */
  lemma BlindGrantIsLost() returns (actions: seq<Action>)
    ensures var s := Run(INIT, actions);
            && 1 in s.referrals && s.referrals[1].status.Completed?
            && 2 in s.referrals && s.referrals[2].status.Completed?
            && 10 in s.trials && s.trials[10] == Some(7) && Sum(Bytes(10), s.grants) == 14
  {
    var setup := SetsUpParty();
    var first := ComesToRead(INIT, setup, PARTY, 0, 1);
    var s1 := PARTY.(calls := map[0 := Granting(1, true, [Unlimited], 0)]);
    var second := ComesToRead(INIT, first, s1, 1, 2);
    var s2 := PARTY.(calls := map[0 := Granting(1, true, [Unlimited], 0), 1 := Granting(2, true, [Unlimited], 0)]);
    var one := GrantsBoth(INIT, second, s2, 0, 1, Unlimited);
    actions := GrantsBoth(INIT, one, Run(INIT, one), 1, 2, Unlimited);
  }

  // ---- an order that comes first ----

  /** A referral of users who both have a trial, completed by the commission of an order. */
  const OVERTAKEN := State(
    map[1 := Referral(10, 20, Completed, 7, 7)],
    map[10 := Some(5), 20 := Some(5)], map[], map[10 := Some(5), 20 := Some(5)], [], {}, {1})

  lemma OrderCompletesFirst() returns (actions: seq<Action>)
    ensures Run(INIT, actions) == OVERTAKEN
  {
    var s1 := INIT.(referrals := map[1 := Referral(10, 20, Pending, 7, 7)]);
    var s2 := s1.(trials := map[10 := Some(5)], opening := map[10 := Some(5)]);
    var s3 := s1.(trials := OVERTAKEN.trials, opening := OVERTAKEN.opening);
    Then(INIT, [], INIT, SignUp(1, 10, 20, 7), s1);
    actions := [] + [SignUp(1, 10, 20, 7)];
    OpensTrial(s1, 10, Some(5));
    Then(INIT, actions, s1, OpenTrial(10, Some(5)), s2);
    actions := actions + [OpenTrial(10, Some(5))];
    OpensTrial(s2, 20, Some(5));
    assert s2.trials[20 := Some(5)] == OVERTAKEN.trials;
    Then(INIT, actions, s2, OpenTrial(20, Some(5)), s3);
    actions := actions + [OpenTrial(20, Some(5))];
    Then(INIT, actions, s3, CompleteByOrder(1), OVERTAKEN);
    actions := actions + [CompleteByOrder(1)];
  }

  /** A call that resumes a completed referral comes to provisioning. */
  lemma Resumes(start: State, prefix: seq<Action>, s: State, r: nat) returns (actions: seq<Action>)
    requires Run(start, prefix) == s && s.calls == map[]
    requires r in s.referrals && s.referrals[r].status.Completed? && !Refused(s.referrals[r])
    requires s.referrals[r].referrer in s.trials && s.referrals[r].referred in s.trials
    ensures Run(start, actions) == s.(calls := map[0 := Provisioning(r, 0)])
  {
    var s1, s2 := s.(calls := map[0 := Started(r, true)]), s.(calls := map[0 := Resuming(r)]);
    Then(start, prefix, s, Begin(0, r), s1);
    actions := prefix + [Begin(0, r)];
    Then(start, actions, s1, Read(0), s2);
    actions := actions + [Read(0)];
    Then(start, actions, s2, LookUp(0), s.(calls := map[0 := Provisioning(r, 0)]));
    actions := actions + [LookUp(0)];
  }

  /** It provisions both users and marks the referral rewarded. */
  lemma Finishes(start: State, prefix: seq<Action>, s: State, r: nat) returns (actions: seq<Action>)
    requires Run(start, prefix) == s && s.calls == map[0 := Provisioning(r, 0)]
    requires r in s.referrals && s.referrals[r].status.Completed?
    ensures var s' := Run(start, actions);
            && s'.referrals == s.referrals[r := s.referrals[r].(status := Rewarded)]
            && s'.grants == s.grants && s'.flipped == s.flipped && s'.trials == s.trials
            && s'.provisioned == s.provisioned + {(r, s.referrals[r].referrer), (r, s.referrals[r].referred)}
  {
    var s1, s2 := Provisioned(s, r, 0), Provisioned(Provisioned(s, r, 0), r, 1);
    Provisions(s, r, 0);
    Then(start, prefix, s, Provision(0, true), s1);
    actions := prefix + [Provision(0, true)];
    Provisions(s1, r, 1);
    Then(start, actions, s1, Provision(0, true), s2);
    actions := actions + [Provision(0, true)];
    Then(start, actions, s2, Mark(0), Apply(s2, Mark(0)));
    Marks(s2, r);
    actions := actions + [Mark(0)];
  }

  function Provisioned(s: State, r: nat, done: nat): State
    requires r in s.referrals
  {
    s.(provisioned := s.provisioned + {(r, s.referrals[r].User(done))}, calls := map[0 := Provisioning(r, done + 1)])
  }

  lemma Provisions(s: State, r: nat, done: nat)
    requires r in s.referrals && s.calls == map[0 := Provisioning(r, done)] && done < 2
    ensures Apply(s, Provision(0, true)) == Provisioned(s, r, done)
  {
  }

  lemma Marks(s: State, r: nat)
    requires r in s.referrals && s.referrals[r].status.Completed? && s.calls == map[0 := Provisioning(r, 2)]
    ensures var s' := Apply(s, Mark(0));
            && s'.referrals == s.referrals[r := s.referrals[r].(status := Rewarded)]
            && s'.grants == s.grants && s'.flipped == s.flipped && s'.trials == s.trials
            && s'.provisioned == s.provisioned
  {
  }

  /** A referral that an order's commission completed first is still marked rewarded once both
      provisioning calls succeed, although nothing was granted. */
  lemma RewardedWithoutGrant() returns (actions: seq<Action>)
    ensures var s := Run(INIT, actions);
            && 1 in s.referrals && s.referrals[1].status.Rewarded? && s.referrals[1].referrerReward > 0
            && s.grants == [] && 1 in s.flipped
  {
    var setup := OrderCompletesFirst();
    var resumed := Resumes(INIT, setup, OVERTAKEN, 1);
    actions := Finishes(INIT, resumed, OVERTAKEN.(calls := map[0 := Provisioning(1, 0)]), 1);
  }

  // ---- the transaction as it is written ----

  /** A user's quota goes up by the reward; where there is no trial, or one without a limit, the reward
      is the quota. */
  predicate IsRaised(before: map<nat, Option<int>>, after: map<nat, Option<int>>, user: nat, reward: int) {
    && user in after
    && match (if user in before then before[user] else None)
       case Some(quota) => after[user] == Some(quota + reward)
       case None => after[user] == Some(reward)
  }

  lemma BothAreRaised(trials: map<nat, Option<int>>, row: Referral)
    requires row.referrer != row.referred
    ensures var after := BothGranted(trials, row);
            && IsRaised(trials, after, row.referrer, row.referrerReward)
            && IsRaised(trials, after, row.referred, row.referrerReward)
            && after.Keys == trials.Keys + {row.referrer, row.referred}
            && forall user <- trials :: user != row.referrer && user != row.referred ==> after[user] == trials[user]
  {
  }

  /** A new referral with a positive reward can always be brought to its end: both users are raised by the
      reward, both are provisioned, and it is marked rewarded. */
  lemma SignupIsRewarded(s: State, r: nat, referrer: nat, referred: nat, reward: int) returns (actions: seq<Action>)
    requires s.calls == map[] && r !in s.referrals && referrer != referred && reward > 0
    ensures var s' := Run(s, actions);
            && r in s'.referrals && s'.referrals[r] == Referral(referrer, referred, Rewarded, reward, reward)
            && IsRaised(s.trials, s'.trials, referrer, reward) && IsRaised(s.trials, s'.trials, referred, reward)
            && (r, referrer) in s'.provisioned && (r, referred) in s'.provisioned
  {
    var granted := SignsUpAndGrants(s, r, referrer, referred, reward);
    BothAreRaised(s.trials, Referral(referrer, referred, Pending, reward, reward));
    actions := Finishes(s, granted, Run(s, granted), r);
  }

  lemma SignsUpAndGrants(s: State, r: nat, referrer: nat, referred: nat, reward: int)
    returns (actions: seq<Action>)
    requires s.calls == map[] && r !in s.referrals && referrer != referred && reward > 0
    ensures var s', row := Run(s, actions), Referral(referrer, referred, Pending, reward, reward);
            && s'.referrals == s.referrals[r := row.(status := Completed)]
            && s'.trials == BothGranted(s.trials, row) && s'.calls == map[0 := Provisioning(r, 0)]
  {
    var signUp := SignUp(r, referrer, referred, reward);
    var s1 := s.(referrals := s.referrals[r := Referral(referrer, referred, Pending, reward, reward)]);
    Then(s, [], s, signUp, s1);
    var reading := ComesToRead(s, [] + [signUp], s1, 0, r);
    var seen := Look(s1.trials, referrer);
    actions := GrantsBoth(s, reading, s1.(calls := s1.calls[0 := Granting(r, true, [seen], 0)]), 0, r, seen);
  }

  /** A call that reads the referral gives up exactly if it was rewarded or cancelled or its rewards are
      not positive and equal; otherwise it claims one that is pending, and resumes any other. */
  lemma ReadRefusesIff(s: State, call: nat)
    requires call in s.calls && s.calls[call].Started? && s.calls[call].r in s.referrals
    ensures var row, s' := s.referrals[s.calls[call].r], Apply(s, Read(call));
            var usable := 0 < row.referrerReward == row.referredReward &&
              row.status != Rewarded && row.status != Status.Cancelled;
            && (call in s'.calls <==> usable)
            && (usable ==> (s'.calls[call].Claiming? <==> row.status == Pending)
                           && (s'.calls[call].Resuming? <==> row.status != Pending))
            && s' == s.(calls := s'.calls)
  {
  }

  class AffiliateService {
    var referrals: map<nat, Referral>
    var trials: map<nat, Option<int>>

    constructor ()
      ensures referrals == map[] && trials == map[]
    {
      referrals, trials := map[], map[];
    }

    /** Claims the referral and grants both users; `claimed` is false when it was claimed before. */
    method ClaimAndGrant(r: nat) returns (claimed: bool)
      requires r in referrals
      modifies this
      ensures claimed == old(referrals)[r].status.Pending?
      ensures var row := old(referrals)[r];
              && referrals == (if claimed then old(referrals)[r := row.(status := Completed)] else old(referrals))
              && trials == (if claimed then BothGranted(old(trials), row) else old(trials))
      ensures var row := old(referrals)[r];
              claimed && row.referrer != row.referred ==>
                && IsRaised(old(trials), trials, row.referrer, row.referrerReward)
                && IsRaised(old(trials), trials, row.referred, row.referrerReward)
                && trials.Keys == old(trials).Keys + {row.referrer, row.referred}
                && forall user <- old(trials) :: user != row.referrer && user != row.referred ==>
                     trials[user] == old(trials)[user]
    {
      if referrals[r].referrer != referrals[r].referred {
        BothAreRaised(trials, referrals[r]);
      }
      var row := referrals[r];
      claimed := row.status.Pending?;
      if !claimed {
        return;
      }
      referrals := referrals[r := row.(status := Completed)];
      var users := [row.referrer, row.referred];
      var i := 0;
      while i < 2
        invariant 0 <= i <= 2
        invariant referrals == old(referrals)[r := row.(status := Completed)]
        invariant trials == if i == 0 then old(trials)
                            else if i == 1 then Granted(old(trials), row.referrer, row.referrerReward)
                            else BothGranted(old(trials), row)
      {
        var user := users[i];
        if user in trials {
          var existing := trials[user];
          var quota := if existing.None? then row.referrerReward else existing.value + row.referrerReward;
          trials := trials[user := Some(quota)];
        } else {
          trials := trials[user := Some(row.referrerReward)];
        }
        i := i + 1;
      }
    }
  }
}
