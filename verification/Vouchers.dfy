/** Voucher redemption: a pre-flight read outside any transaction, then a transaction that locks
    the voucher row, reads it again, and commits; interleaved with itself and with the admin. */
module Vouchers {
  import opened Options

  datatype Voucher = Voucher(
    isActive: bool, redemptions: nat, maxRedemptions: int, expiresAt: Option<int>, forPlan: bool, planEnabled: bool)
  {
    predicate Expired(now: int) {
      expiresAt.Some? && expiresAt.value < now
    }
  }

  /** A redemption row, with what was in force when it was written. */
  datatype Use = Use(voucherId: nat, userId: nat, limit: int, at: int, expiresAt: Option<int>)

  /** `Checked` has passed the pre-flight; `Locked` holds the row lock and what it read under it. */
  datatype Call = Checked(v: nat, user: nat) | Locked(v: nat, user: nat, row: Voucher, at: int)

  datatype State = State(vouchers: map<nat, Voucher>, uses: seq<Use>, calls: map<nat, Call>, now: int)

  const INIT := State(map[], [], map[], 0)

  datatype Action =
    | Generate(v: nat, limit: int, expiresAt: Option<int>, forPlan: bool, planEnabled: bool)
    | Preflight(call: nat, v: nat, user: nat)
    | Lock(call: nat)
    | Commit(call: nat)
    | Abort(call: nat)
    | Disable(v: nat)
    | SetLimit(v: nat, limit: int)
    | SetExpiry(v: nat, expiresAt: Option<int>)
    | TogglePlan(v: nat)
    | Tick(now: int)

  predicate RowFree(s: State, v: nat) {
    forall i <- s.calls :: s.calls[i].Locked? ==> s.calls[i].v != v
  }

  predicate Used(uses: seq<Use>, v: nat, user: nat) {
    exists u <- uses :: u.voucherId == v && u.userId == user
  }

  /** The pre-flight of `redeem`. */
  predicate Passes(voucher: Voucher, now: int) {
    && voucher.isActive && !voucher.Expired(now) && voucher.redemptions < voucher.maxRedemptions
    && voucher.forPlan && voucher.planEnabled
  }

  /** What the transaction checks again, under the row lock. */
  predicate StillPasses(voucher: Voucher, now: int) {
    voucher.isActive && !voucher.Expired(now) && voucher.redemptions < voucher.maxRedemptions
  }

  predicate Enabled(s: State, a: Action) {
    match a
    case Generate(v, limit, _, _, _) => v !in s.vouchers && 1 <= limit <= 2_147_483_647
    case Preflight(call, v, _) => call !in s.calls && v in s.vouchers && Passes(s.vouchers[v], s.now)
    case Lock(call) =>
      call in s.calls && s.calls[call].Checked? && s.calls[call].v in s.vouchers && RowFree(s, s.calls[call].v)
    case Commit(call) => call in s.calls && s.calls[call].Locked?
    case Abort(call) => call in s.calls
    case Disable(v) => v in s.vouchers && RowFree(s, v)
    case SetLimit(v, _) => v in s.vouchers && RowFree(s, v)
    case SetExpiry(v, _) => v in s.vouchers && RowFree(s, v)
    case TogglePlan(v) => v in s.vouchers
    case Tick(now) => s.now <= now
  }

  /** The voucher row and the redemption row that a locked call writes. */
  function Redeemed(row: Voucher): Voucher {
    row.(redemptions := row.redemptions + 1, isActive := !(row.redemptions + 1 >= row.maxRedemptions))
  }

  function UseOf(v: nat, user: nat, row: Voucher, at: int): Use {
    Use(v, user, row.maxRedemptions, at, row.expiresAt)
  }

  function Apply(s: State, a: Action): State {
    if !Enabled(s, a) then s
    else match a
      case Generate(v, limit, expiresAt, forPlan, planEnabled) =>
        s.(vouchers := s.vouchers[v := Voucher(true, 0, limit, expiresAt, forPlan, planEnabled)])
      case Preflight(call, v, user) => s.(calls := s.calls[call := Checked(v, user)])
      case Lock(call) =>
        var v, user := s.calls[call].v, s.calls[call].user;
        if StillPasses(s.vouchers[v], s.now) && !Used(s.uses, v, user) then
          s.(calls := s.calls[call := Locked(v, user, s.vouchers[v], s.now)])
        else s.(calls := s.calls - {call})
      case Commit(call) =>
        var Locked(v, user, row, at) := s.calls[call];
        // only the redemption columns are written, so the plan stays as it is now
        var enabled := v in s.vouchers && s.vouchers[v].planEnabled;
        s.(vouchers := s.vouchers[v := Redeemed(row).(planEnabled := enabled)],
           uses := s.uses + [UseOf(v, user, row, at)], calls := s.calls - {call})
      case Abort(call) => s.(calls := s.calls - {call})
      case Disable(v) => s.(vouchers := s.vouchers[v := s.vouchers[v].(isActive := false)])
      case SetLimit(v, limit) => s.(vouchers := s.vouchers[v := s.vouchers[v].(maxRedemptions := limit)])
      case SetExpiry(v, e) => s.(vouchers := s.vouchers[v := s.vouchers[v].(expiresAt := e)])
      case TogglePlan(v) => s.(vouchers := s.vouchers[v := s.vouchers[v].(planEnabled := !s.vouchers[v].planEnabled)])
      case Tick(now) => s.(now := now)
  }

  function Run(s: State, actions: seq<Action>): State {
    if actions == [] then s else Apply(Run(s, actions[..|actions| - 1]), actions[|actions| - 1])
  }

  /** The redemptions of one voucher, in the order in which they committed. */
  function UsesOf(uses: seq<Use>, v: nat): seq<Use> {
    if uses == [] then []
    else
      var before, last := UsesOf(uses[..|uses| - 1], v), uses[|uses| - 1];
      if last.voucherId == v then before + [last] else before
  }

  lemma UsesOfSnoc(uses: seq<Use>, u: Use, v: nat)
    ensures UsesOf(uses + [u], v) == if u.voucherId == v then UsesOf(uses, v) + [u] else UsesOf(uses, v)
  {
    assert (uses + [u])[..|uses|] == uses;
  }

  lemma {:induction false} UsesOfAreUses(uses: seq<Use>, v: nat)
    ensures forall u :: u in UsesOf(uses, v) <==> u in uses && u.voucherId == v
  {
    if uses != [] {
      var before, last := uses[..|uses| - 1], uses[|uses| - 1];
      UsesOfAreUses(before, v);
      assert uses == before + [last];
    }
  }

  // ---- the invariant ----

  /** Redemptions are counted, go to distinct users, and each was below the limit then in force. */
  ghost predicate UsesOk(uses: seq<Use>) {
    && (forall i, j | 0 <= i < j < |uses| :: uses[i].userId != uses[j].userId)
    && (forall k | 0 <= k < |uses| ::
          k < uses[k].limit && (uses[k].expiresAt.Some? ==> uses[k].at <= uses[k].expiresAt.value))
  }

  ghost predicate VoucherOk(s: State, v: nat) {
    var uses := UsesOf(s.uses, v);
    && UsesOk(uses)
    && |uses| == if v in s.vouchers then s.vouchers[v].redemptions else 0
  }

  ghost predicate LockOk(s: State, c: Call) {
    c.Locked? ==>
      && c.v in s.vouchers && c.row == s.vouchers[c.v].(planEnabled := c.row.planEnabled)
      && StillPasses(c.row, c.at) && !Used(s.uses, c.v, c.user)
  }

  ghost predicate Inv(s: State) {
    && (forall v: nat :: VoucherOk(s, v))
    && (forall i <- s.calls :: LockOk(s, s.calls[i]))
    && (forall i, j | i in s.calls && j in s.calls && i != j ::
          s.calls[i].Locked? && s.calls[j].Locked? ==> s.calls[i].v != s.calls[j].v)
  }

  lemma CommitKeeps(s: State, call: nat)
    requires Inv(s) && Enabled(s, Commit(call))
    ensures Inv(Apply(s, Commit(call)))
  {
    var Locked(v, user, row, at) := s.calls[call];
    var s' := Apply(s, Commit(call));
    assert LockOk(s, s.calls[call]);
    forall x: nat ensures VoucherOk(s', x) {
      assert VoucherOk(s, x);
      UsesOfSnoc(s.uses, UseOf(v, user, row, at), x);
      UsesOfAreUses(s.uses, x);
    }
    forall i <- s'.calls ensures LockOk(s', s'.calls[i]) {
      assert LockOk(s, s.calls[i]);
    }
  }

  lemma ApplyKeeps(s: State, a: Action)
    requires Inv(s)
    ensures Inv(Apply(s, a))
  {
    if Enabled(s, a) {
      if a.Commit? {
        CommitKeeps(s, a.call);
      } else {
        var s' := Apply(s, a);
        forall x: nat ensures VoucherOk(s', x) {
          assert VoucherOk(s, x);
        }
        forall i <- s'.calls ensures LockOk(s', s'.calls[i]) {
          if i in s.calls { assert LockOk(s, s.calls[i]); }
        }
      }
    }
  }

  lemma {:induction false} RunKeeps(s: State, actions: seq<Action>)
    requires Inv(s)
    ensures Inv(Run(s, actions))
  {
    if actions != [] {
      RunKeeps(s, actions[..|actions| - 1]);
      ApplyKeeps(Run(s, actions[..|actions| - 1]), actions[|actions| - 1]);
    }
  }

  // ---- what every run guarantees ----

  /** However stale the pre-flight reads are: a voucher counts exactly its redemption rows, they
      belong to distinct users, and the k-th of them was written while k was below the limit then
      in force, by a voucher that had not expired when its row was read. */
  lemma RedemptionsAreCounted(actions: seq<Action>, v: nat)
    ensures var s := Run(INIT, actions);
            var uses := UsesOf(s.uses, v);
            && (v in s.vouchers ==> s.vouchers[v].redemptions == |uses|)
            && (forall i, j | 0 <= i < j < |uses| :: uses[i].userId != uses[j].userId)
            && (forall k | 0 <= k < |uses| :: k < uses[k].limit)
            && (forall u <- uses :: u.expiresAt.Some? ==> u.at <= u.expiresAt.value)
  {
    assert Inv(INIT);
    RunKeeps(INIT, actions);
    assert VoucherOk(Run(INIT, actions), v);
  }

  lemma InactiveStep(s: State, a: Action, v: nat)
    requires Inv(s) && v in s.vouchers && !s.vouchers[v].isActive
    ensures v in Apply(s, a).vouchers && !Apply(s, a).vouchers[v].isActive
    ensures UsesOf(Apply(s, a).uses, v) == UsesOf(s.uses, v)
  {
    if Enabled(s, a) && a.Commit? {
      assert LockOk(s, s.calls[a.call]);
      var Locked(w, user, row, at) := s.calls[a.call];
      UsesOfSnoc(s.uses, UseOf(w, user, row, at), v);
    }
  }

  /** A voucher that is inactive is never redeemed again, whatever its limit is raised to and
      whichever calls had passed the pre-flight before. */
  lemma {:induction false} InactiveForever(s: State, actions: seq<Action>, v: nat)
    requires Inv(s) && v in s.vouchers && !s.vouchers[v].isActive
    ensures v in Run(s, actions).vouchers && !Run(s, actions).vouchers[v].isActive
    ensures UsesOf(Run(s, actions).uses, v) == UsesOf(s.uses, v)
  {
    if actions != [] {
      InactiveForever(s, actions[..|actions| - 1], v);
      RunKeeps(s, actions[..|actions| - 1]);
      InactiveStep(Run(s, actions[..|actions| - 1]), actions[|actions| - 1], v);
    }
  }

  /** The redemption that reaches the limit makes the voucher inactive, so that it was the last. */
  lemma LastRedemption(actions: seq<Action>, call: nat, later: seq<Action>)
    requires var s := Run(INIT, actions);
             Enabled(s, Commit(call)) && s.calls[call].row.redemptions + 1 >= s.calls[call].row.maxRedemptions
    ensures var s := Run(INIT, actions);
            var v, s' := s.calls[call].v, Apply(s, Commit(call));
            && |UsesOf(s'.uses, v)| == |UsesOf(s.uses, v)| + 1
            && UsesOf(Run(s', later).uses, v) == UsesOf(s'.uses, v)
  {
    assert Inv(INIT);
    RunKeeps(INIT, actions);
    var s := Run(INIT, actions);
    ApplyKeeps(s, Commit(call));
    var Locked(v, user, row, at) := s.calls[call];
    UsesOfSnoc(s.uses, UseOf(v, user, row, at), v);
    InactiveForever(Apply(s, Commit(call)), later, v);
  }

  // ---- the service ----

  /** Rows changed by one call of `redeem` that nothing interleaves with. */
  function RedeemAlone(s: State, v: nat, user: nat): State {
    if v in s.vouchers && Passes(s.vouchers[v], s.now) && !Used(s.uses, v, user) then
      s.(vouchers := s.vouchers[v := Redeemed(s.vouchers[v])], uses := s.uses + [UseOf(v, user, s.vouchers[v], s.now)])
    else s
  }

  // ---- what a redemption needs, and what it changes ----

  /** Nothing about the voucher itself or its user stands in the way: it is active, not past its
      expiry, used less often than its limit, and not used by this user. */
  predicate IsOpenTo(vouchers: map<nat, Voucher>, uses: seq<Use>, v: nat, user: nat, now: int) {
    && v in vouchers && vouchers[v].isActive
    && (vouchers[v].expiresAt.Some? ==> now <= vouchers[v].expiresAt.value)
    && vouchers[v].redemptions < vouchers[v].maxRedemptions
    && forall use <- uses :: use.voucherId != v || use.userId != user
  }

  /** One redemption row of that voucher and user is appended and counted, and the voucher stays active
      exactly while it is below its limit; every other column and voucher stays. */
  predicate Redeems(s: State, s': State, v: nat, user: nat, limit: int, at: int)
    requires v in s.vouchers
  {
    && v in s'.vouchers && |s'.uses| == |s.uses| + 1 && s'.uses[..|s.uses|] == s.uses
    && s'.uses[|s.uses|].voucherId == v && s'.uses[|s.uses|].userId == user
    && s'.uses[|s.uses|].limit == limit && s'.uses[|s.uses|].at == at
    && s'.vouchers[v].redemptions == s.vouchers[v].redemptions + 1
    && (s'.vouchers[v].isActive <==> s'.vouchers[v].redemptions < limit)
    && s'.vouchers == s.vouchers[v :=
         s.vouchers[v].(redemptions := s'.vouchers[v].redemptions, isActive := s'.vouchers[v].isActive)]
  }

  /** A call alone redeems exactly a voucher that is open to the user and bound to an enabled plan. */
  lemma RedeemOutcome(s: State, v: nat, user: nat)
    ensures var s' := RedeemAlone(s, v, user);
            if IsOpenTo(s.vouchers, s.uses, v, user, s.now) && s.vouchers[v].forPlan && s.vouchers[v].planEnabled then
              Redeems(s, s', v, user, s.vouchers[v].maxRedemptions, s.now)
            else s' == s
  {
  }

  /** A call that passed the pre-flight, however long ago, redeems exactly a voucher that is still open
      to its user when it takes the lock, whatever became of the plan. */
  lemma LateRedeemOutcome(s: State, call: nat)
    requires call in s.calls && s.calls[call].Checked? && s.calls[call].v in s.vouchers
    requires forall i <- s.calls :: s.calls[i].Locked? ==> s.calls[i].v != s.calls[call].v
    ensures var s' := Apply(Apply(s, Lock(call)), Commit(call));
            var v, user := s.calls[call].v, s.calls[call].user;
            if IsOpenTo(s.vouchers, s.uses, v, user, s.now) then
              Redeems(s, s', v, user, s.vouchers[v].maxRedemptions, s.now)
            else s'.vouchers == s.vouchers && s'.uses == s.uses
  {
    var v, user := s.calls[call].v, s.calls[call].user;
    assert Enabled(s, Lock(call));
    if IsOpenTo(s.vouchers, s.uses, v, user, s.now) {
      assert Apply(s, Lock(call)).calls[call] == Locked(v, user, s.vouchers[v], s.now);
    }
  }

  // ---- a voucher is good for as many users as its limit says ----

  /** The calls of users who come one after the other. */
  function RedeemAll(s: State, v: nat, users: seq<nat>): State {
    if users == [] then s
    else RedeemAlone(RedeemAll(s, v, users[..|users| - 1]), v, users[|users| - 1])
  }

  predicate UsedBy(uses: seq<Use>, v: nat, users: seq<nat>) {
    && |UsesOf(uses, v)| == |users|
    && forall i | 0 <= i < |users| :: UsesOf(uses, v)[i].userId == users[i]
  }

  /** The first `n` users of those who come. */
  function FirstOf(users: seq<nat>, n: nat): seq<nat> {
    if |users| <= n then users else users[..n]
  }

  /** What a voucher for an enabled plan looks like, and who has used it, after these users came. */
  predicate IsUsedBy(s: State, v: nat, limit: nat, expiresAt: Option<int>, users: seq<nat>) {
    && UsedBy(s.uses, v, FirstOf(users, limit))
    && v in s.vouchers
    && s.vouchers[v] == Voucher(|users| < limit, |FirstOf(users, limit)|, limit, expiresAt, true, true)
  }

  predicate AreDistinct(users: seq<nat>) {
    forall i, j | 0 <= i < j < |users| :: users[i] != users[j]
  }

  /** Of different users who come for a new voucher, exactly as many redeem it as its limit says, the
      first ones; it is active as long as fewer came. Other vouchers stay. */
  lemma {:induction false} FirstComersRedeem(
    actions: seq<Action>, v: nat, limit: nat, expiresAt: Option<int>, users: seq<nat>)
    requires v !in Run(INIT, actions).vouchers && 1 <= limit <= 2_147_483_647 && AreDistinct(users)
    requires expiresAt.Some? ==> Run(INIT, actions).now <= expiresAt.value
    ensures var start := Apply(Run(INIT, actions), Generate(v, limit, expiresAt, true, true));
            var s := RedeemAll(start, v, users);
            && IsUsedBy(s, v, limit, expiresAt, users)
            && s.now == start.now && s.vouchers == start.vouchers[v := s.vouchers[v]]
  {
    var start := Apply(Run(INIT, actions), Generate(v, limit, expiresAt, true, true));
    if users == [] {
      NewVoucherIsUnused(actions, v, limit, expiresAt);
    } else {
      var n := |users| - 1;
      FirstComersRedeem(actions, v, limit, expiresAt, users[..n]);
      NextComerRedeems(RedeemAll(start, v, users[..n]), v, limit, expiresAt, users);
    }
  }

  lemma NewVoucherIsUnused(actions: seq<Action>, v: nat, limit: nat, expiresAt: Option<int>)
    requires v !in Run(INIT, actions).vouchers && 1 <= limit <= 2_147_483_647
    ensures IsUsedBy(Apply(Run(INIT, actions), Generate(v, limit, expiresAt, true, true)), v, limit, expiresAt, [])
  {
    assert Inv(INIT);
    RunKeeps(INIT, actions);
    assert VoucherOk(Run(INIT, actions), v);
  }

  lemma NextComerRedeems(s: State, v: nat, limit: nat, expiresAt: Option<int>, users: seq<nat>)
    requires users != [] && limit >= 1 && AreDistinct(users)
    requires IsUsedBy(s, v, limit, expiresAt, users[..|users| - 1])
    requires expiresAt.Some? ==> s.now <= expiresAt.value
    ensures var s' := RedeemAlone(s, v, users[|users| - 1]);
            && IsUsedBy(s', v, limit, expiresAt, users)
            && s'.now == s.now && s'.vouchers == s.vouchers[v := s'.vouchers[v]]
  {
    var before, user := users[..|users| - 1], users[|users| - 1];
    RedeemOutcome(s, v, user);
    if |before| < limit {
      ComerIsNew(s.uses, v, before, user);
      var s' := RedeemAlone(s, v, user);
      assert s'.uses == s.uses + [s'.uses[|s.uses|]];
      UsesOfSnoc(s.uses, s'.uses[|s.uses|], v);
    } else {
      assert FirstOf(users, limit) == FirstOf(before, limit);
    }
  }

  lemma ComerIsNew(uses: seq<Use>, v: nat, before: seq<nat>, user: nat)
    requires UsedBy(uses, v, before) && user !in before
    ensures forall use <- uses :: use.voucherId != v || use.userId != user
  {
    forall use <- uses ensures use.voucherId != v || use.userId != user {
      if use.voucherId == v {
        UsesOfAreUses(uses, v);
        var i :| 0 <= i < |UsesOf(uses, v)| && UsesOf(uses, v)[i] == use;
        assert use.userId == before[i];
      }
    }
  }

  class VouchersService {
    var vouchers: map<nat, Voucher>
    var uses: seq<Use>

    constructor ()
      ensures vouchers == map[] && uses == []
    {
      vouchers, uses := map[], [];
    }

    ghost function Rows(now: int): State
      reads this
    {
      State(vouchers, uses, map[], now)
    }

    method Redeem(v: nat, user: nat, now: int) returns (ok: bool)
      modifies this
      ensures Rows(now) == RedeemAlone(old(Rows(now)), v, user)
      ensures ok <==> |uses| == |old(uses)| + 1
      ensures ok <==>
        && IsOpenTo(old(vouchers), old(uses), v, user, now)
        && old(vouchers)[v].forPlan && old(vouchers)[v].planEnabled
      ensures ok ==> Redeems(old(Rows(now)), Rows(now), v, user, old(vouchers)[v].maxRedemptions, now)
      ensures !ok ==> vouchers == old(vouchers) && uses == old(uses)
    {
      RedeemOutcome(Rows(now), v, user);
      ok := false;
      if v !in vouchers || !vouchers[v].isActive || vouchers[v].Expired(now) {
        return;
      }
      if vouchers[v].redemptions >= vouchers[v].maxRedemptions || !vouchers[v].forPlan || !vouchers[v].planEnabled {
        return;
      }
      // the transaction: lock, read again, look for a prior use
      var row := vouchers[v];
      if Used(uses, v, user) {
        return;
      }
      uses := uses + [Use(v, user, row.maxRedemptions, now, row.expiresAt)];
      var newRedemptions := row.redemptions + 1;
      var exhausted := newRedemptions >= row.maxRedemptions;
      vouchers := vouchers[v := row.(redemptions := newRedemptions, isActive := !exhausted)];
      ok := true;
    }

    method Disable(v: nat)
      modifies this
      ensures Rows(0) == Apply(old(Rows(0)), Action.Disable(v))
      ensures uses == old(uses)
      ensures vouchers ==
        if v in old(vouchers) then old(vouchers)[v := old(vouchers)[v].(isActive := false)] else old(vouchers)
    {
      if v in vouchers {
        vouchers := vouchers[v := vouchers[v].(isActive := false)];
      }
    }

    method SetLimit(v: nat, limit: int)
      modifies this
      ensures Rows(0) == Apply(old(Rows(0)), Action.SetLimit(v, limit))
      ensures uses == old(uses)
      ensures vouchers ==
        if v in old(vouchers) then old(vouchers)[v := old(vouchers)[v].(maxRedemptions := limit)] else old(vouchers)
    {
      if v in vouchers {
        vouchers := vouchers[v := vouchers[v].(maxRedemptions := limit)];
      }
    }
  }

  /** One call alone is a run of the machine: pre-flight, lock, commit. */
  lemma RedeemIsARun(s: State, v: nat, user: nat)
    requires s.calls == map[]
    ensures Run(s, [Preflight(0, v, user), Lock(0), Commit(0)]) == RedeemAlone(s, v, user)
  {
    var all := [Preflight(0, v, user), Lock(0), Commit(0)];
    assert all[..2][..1] == all[..1] && all[..1][..0] == [] && all[..3] == all;
    assert Run(s, all[..1]) == Apply(s, all[0]);
    assert Run(s, all[..2]) == Apply(Apply(s, all[0]), all[1]);
    assert Run(s, all) == Apply(Apply(Apply(s, all[0]), all[1]), all[2]);
    if v in s.vouchers && Passes(s.vouchers[v], s.now) {
      assert Apply(s, all[0]).calls == map[0 := Checked(v, user)];
      if Used(s.uses, v, user) {
        assert Apply(Apply(s, all[0]), all[1]).calls == map[];
      } else {
        assert Apply(Apply(s, all[0]), all[1]).calls == map[0 := Locked(v, user, s.vouchers[v], s.now)];
        assert Apply(Apply(Apply(s, all[0]), all[1]), all[2]).calls == map[];
      }
    }
  }
}
