/** The reward of a signup referral: calls claim the referral, read and write the trial quota of both
    users in one transaction, provision both remotely, and then mark the referral; they interleave,
    statement by statement, with each other, with conflicts and crashes, and with the commission of
    an order, which completes the same referral without granting anything. */
module SignupReferral {
  import opened Options

  datatype Status = Pending | Completed | Rewarded | Cancelled

  datatype Referral = Referral(referrer: nat, referred: nat, status: Status, referrerReward: int, referredReward: int)
  {
    predicate Has(user: nat) {
      user == referrer || user == referred
    }

    /** The users in the order in which they are granted. */
    function User(i: nat): nat {
      if i == 0 then referrer else referred
    }
  }

  /** What a transaction found when it looked for a user's trial. A trial without a quota is
      unlimited. */
  datatype Seen = Absent | Unlimited | Limited

  /** A committed write of the trial quota of `user` on account of referral `r`; a trial that is
      created counts as raised from zero. */
  datatype Grant = Grant(r: nat, user: nat, bytes: int, before: Option<int>, after: Option<int>, sawUnlimited: bool)
  {
    predicate IsRaise() {
      before.Some? && after == Some(before.value + bytes)
    }
  }

  datatype Call =
    | Started(r: nat, mayRetry: bool)                  // about to read the referral
    | Claiming(r: nat, mayRetry: bool)                 // has read it as pending
    // its transaction holds the referral row, and the trial rows of the first `writes` users
    | Granting(r: nat, mayRetry: bool, seen: seq<Seen>, writes: nat)
    | Resuming(r: nat)                                 // has no subscriptions at hand, looks them up
    | Provisioning(r: nat, done: nat)                  // `done` of the two users are provisioned

  /** `trials` maps a user to the quota of the user's one trial, `None` when it is unlimited.
      The last four components are history: quotas of the trials that users opened, grants,
      successful remote provisionings, and the referrals that an order's commission completed. */
  datatype State = State(
    referrals: map<nat, Referral>,
    trials: map<nat, Option<int>>,
    calls: map<nat, Call>,
    opening: map<nat, Option<int>>,
    grants: seq<Grant>,
    provisioned: set<(nat, nat)>,
    flipped: set<nat>)

  const INIT := State(map[], map[], map[], map[], [], {}, {})

  datatype Action =
    | SignUp(r: nat, referrer: nat, referred: nat, reward: int)
    | OpenTrial(user: nat, quota: Option<int>)
    | Begin(call: nat, r: nat)
    | Read(call: nat)
    | Claim(call: nat)
    | ReadTrial(call: nat)
    | WriteTrial(call: nat)
    | Commit(call: nat)
    | Conflict(call: nat)
    | LookUp(call: nat)
    | Provision(call: nat, succeeds: bool)
    | Mark(call: nat)
    | Crash(call: nat)
    | CompleteByOrder(r: nat)

  /** The quota of a user's trial; a trial that is not there counts as zero. */
  function QuotaIn(trials: map<nat, Option<int>>, user: nat): Option<int> {
    if user in trials then trials[user] else Some(0)
  }

  function Look(trials: map<nat, Option<int>>, user: nat): Seen {
    if user !in trials then Absent else if trials[user].None? then Unlimited else Limited
  }

  /** The quota that a grant leaves: one that was seen set is incremented where it is stored, one
      that was seen absent or unlimited is written outright. */
  function Written(seen: Seen, quota: Option<int>, bytes: int): Option<int> {
    if !seen.Limited? then Some(bytes)
    else if quota.None? then None
    else Some(quota.value + bytes)
  }

  predicate RowFree(s: State, r: nat) {
    forall i <- s.calls :: s.calls[i].Granting? ==> s.calls[i].r != r
  }

  /** Whether the trial row of `user` has been written by the uncommitted call `c`. */
  predicate Holds(s: State, c: Call, user: nat) {
    && c.Granting? && c.r in s.referrals
    && ((c.writes >= 1 && user == s.referrals[c.r].referrer) || (c.writes >= 2 && user == s.referrals[c.r].referred))
  }

  predicate TrialFree(s: State, user: nat, call: nat) {
    forall i <- s.calls :: i != call ==> !Holds(s, s.calls[i], user)
  }

  /** The user whose trial a granting call reads or writes next. */
  function Next(s: State, c: Call): nat
    requires c.Granting? && c.r in s.referrals
  {
    s.referrals[c.r].User(c.writes)
  }

  predicate Enabled(s: State, a: Action) {
    match a
    case SignUp(r, referrer, referred, reward) => r !in s.referrals && referrer != referred
    case OpenTrial(user, quota) => user !in s.trials && forall i <- s.calls :: !Holds(s, s.calls[i], user)
    case Begin(call, r) => call !in s.calls && r in s.referrals
    case Read(call) => call in s.calls && s.calls[call].Started? && s.calls[call].r in s.referrals
    case Claim(call) =>
      call in s.calls && s.calls[call].Claiming? && s.calls[call].r in s.referrals && RowFree(s, s.calls[call].r)
    case ReadTrial(call) =>
      && call in s.calls && s.calls[call].Granting? && s.calls[call].r in s.referrals
      && |s.calls[call].seen| == s.calls[call].writes < 2
    case WriteTrial(call) =>
      && call in s.calls && s.calls[call].Granting? && s.calls[call].r in s.referrals
      && |s.calls[call].seen| == s.calls[call].writes + 1
      && TrialFree(s, Next(s, s.calls[call]), call)
    case Commit(call) =>
      && call in s.calls && s.calls[call].Granting? && s.calls[call].r in s.referrals
      && |s.calls[call].seen| == s.calls[call].writes == 2
    case Conflict(call) => call in s.calls && (s.calls[call].Granting? || s.calls[call].Claiming?)
    case LookUp(call) => call in s.calls && s.calls[call].Resuming? && s.calls[call].r in s.referrals
    case Provision(call, _) =>
      call in s.calls && s.calls[call].Provisioning? && s.calls[call].done < 2 && s.calls[call].r in s.referrals
    case Mark(call) =>
      && call in s.calls && s.calls[call].Provisioning? && s.calls[call].done == 2
      && s.calls[call].r in s.referrals && RowFree(s, s.calls[call].r)
    case Crash(call) => call in s.calls
    case CompleteByOrder(r) => r in s.referrals && RowFree(s, r)
  }

  /** A transaction that the database refuses is retried once. */
  function Conflicted(s: State, call: nat): State
    requires call in s.calls && (s.calls[call].Granting? || s.calls[call].Claiming?)
  {
    if s.calls[call].mayRetry then s.(calls := s.calls[call := Started(s.calls[call].r, false)])
    else s.(calls := s.calls - {call})
  }

  predicate Refused(row: Referral) {
    || row.status.Rewarded? || row.status.Cancelled?
    || row.referrerReward <= 0 || row.referredReward != row.referrerReward
  }

  /** The grant to the `i`-th user; the row has been locked since it was written, so it is applied
      here to the quota it was applied to then. */
  function GrantOf(s: State, c: Call, i: nat): Grant
    requires c.Granting? && c.r in s.referrals && i < |c.seen|
  {
    var row := s.referrals[c.r];
    var before := QuotaIn(s.trials, row.User(i));
    Grant(c.r, row.User(i), row.referrerReward, before, Written(c.seen[i], before, row.referrerReward),
          c.seen[i].Unlimited?)
  }

  function Committed(s: State, call: nat): State
    requires Enabled(s, Commit(call))
  {
    var c := s.calls[call];
    var a, b := GrantOf(s, c, 0), GrantOf(s, c, 1);
    s.(referrals := s.referrals[c.r := s.referrals[c.r].(status := Completed)],
       trials := s.trials[a.user := a.after][b.user := b.after],
       grants := s.grants + [a, b],
       calls := s.calls[call := Provisioning(c.r, 0)])
  }

  function Apply(s: State, a: Action): State {
    if !Enabled(s, a) then s
    else match a
      case SignUp(r, referrer, referred, reward) =>
        s.(referrals := s.referrals[r := Referral(referrer, referred, Pending, reward, reward)])
      case OpenTrial(user, quota) =>
        // the quota of a trial that opens is its baseline
        s.(trials := s.trials[user := quota], opening := s.opening[user := quota])
      case Begin(call, r) => s.(calls := s.calls[call := Started(r, true)])
      case Read(call) =>
        var r := s.calls[call].r;
        if Refused(s.referrals[r]) then s.(calls := s.calls - {call})
        else if s.referrals[r].status.Pending? then
          s.(calls := s.calls[call := Claiming(r, s.calls[call].mayRetry)])
        else s.(calls := s.calls[call := Resuming(r)])
      case Claim(call) =>
        var r := s.calls[call].r;
        if s.referrals[r].status.Pending? then
          s.(calls := s.calls[call := Granting(r, s.calls[call].mayRetry, [], 0)])
        else s.(calls := s.calls[call := Resuming(r)])
      case ReadTrial(call) =>
        var c := s.calls[call];
        s.(calls := s.calls[call := c.(seen := c.seen + [Look(s.trials, Next(s, c))])])
      case WriteTrial(call) =>
        var c := s.calls[call];
        // one trial per user: inserting a second one is a conflict
        if c.seen[c.writes].Absent? && Next(s, c) in s.trials then Conflicted(s, call)
        else s.(calls := s.calls[call := c.(writes := c.writes + 1)])
      case Commit(call) => Committed(s, call)
      case Conflict(call) => Conflicted(s, call)
      case LookUp(call) =>
        var row := s.referrals[s.calls[call].r];
        if row.referrer in s.trials && row.referred in s.trials then
          s.(calls := s.calls[call := Provisioning(s.calls[call].r, 0)])
        else s.(calls := s.calls - {call})
      case Provision(call, succeeds) =>
        var Provisioning(r, done) := s.calls[call];
        if succeeds then
          s.(provisioned := s.provisioned + {(r, s.referrals[r].User(done))},
             calls := s.calls[call := Provisioning(r, done + 1)])
        else s.(calls := s.calls - {call})
      case Mark(call) =>
        var r := s.calls[call].r;
        var s' := s.(calls := s.calls - {call});
        if s.referrals[r].status.Completed? then
          s'.(referrals := s.referrals[r := s.referrals[r].(status := Rewarded)])
        else s'
      case Crash(call) => s.(calls := s.calls - {call})
      case CompleteByOrder(r) =>
        if s.referrals[r].status.Pending? then
          s.(referrals := s.referrals[r := s.referrals[r].(status := Completed)], flipped := s.flipped + {r})
        else s
  }

  function Run(s: State, actions: seq<Action>): State {
    if actions == [] then s else Apply(Run(s, actions[..|actions| - 1]), actions[|actions| - 1])
  }

  // ---- counting grants ----

  /** What is summed over the grants. */
  datatype Query =
    | Bytes(user: nat)                 // granted to this user
    | Grants(user: nat)                // number of grants to this user
    | Blind(user: nat)                 // grants to this user that read the trial as unlimited
    | Times(r: nat, user: nat)         // grants of this referral to this user
    | Raises(r: nat, user: nat)        // those of them that raised the quota
    | BlindTimes(r: nat, user: nat)    // those of them that read the trial as unlimited

  function Weight(q: Query, g: Grant): int {
    match q
    case Bytes(user) => if g.user == user then g.bytes else 0
    case Grants(user) => if g.user == user then 1 else 0
    case Blind(user) => if g.user == user && g.sawUnlimited then 1 else 0
    case Times(r, user) => if g.r == r && g.user == user then 1 else 0
    case Raises(r, user) => if g.r == r && g.user == user && g.IsRaise() then 1 else 0
    case BlindTimes(r, user) => if g.r == r && g.user == user && g.sawUnlimited then 1 else 0
  }

  function Sum(q: Query, grants: seq<Grant>): int {
    if grants == [] then 0 else Sum(q, grants[..|grants| - 1]) + Weight(q, grants[|grants| - 1])
  }

  lemma TwoMore(q: Query, grants: seq<Grant>, a: Grant, b: Grant)
    ensures Sum(q, grants + [a, b]) == Sum(q, grants) + Weight(q, a) + Weight(q, b)
  {
    assert (grants + [a, b])[..|grants| + 1] == grants + [a];
    assert (grants + [a])[..|grants|] == grants;
  }

  /** A grant raises the quota exactly when it did not read the trial as unlimited. */
  ghost predicate GrantsOk(grants: seq<Grant>) {
    forall g <- grants :: g.IsRaise() <==> !g.sawUnlimited
  }

  lemma {:induction false} RaisesAreNotBlind(grants: seq<Grant>, r: nat, user: nat)
    requires GrantsOk(grants)
    ensures Sum(Raises(r, user), grants) == Sum(Times(r, user), grants) - Sum(BlindTimes(r, user), grants)
    ensures 0 <= Sum(BlindTimes(r, user), grants) <= Sum(Times(r, user), grants)
    ensures Sum(BlindTimes(r, user), grants) > 0 <==> exists g <- grants :: g.r == r && g.user == user && g.sawUnlimited
  {
    if grants != [] {
      var before, last := grants[..|grants| - 1], grants[|grants| - 1];
      RaisesAreNotBlind(before, r, user);
      assert grants == before + [last];
    }
  }
}
