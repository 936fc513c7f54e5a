/** Refresh-token rotation with reuse detection (section 10.4 of RFC 6749), one call per step. */
module Sessions {
  import opened Options

  /** A row of the session table; its key is the hash that the token carries as its `jti`. */
  datatype Session = Session(userId: nat, expiresAt: int, revoked: bool)

  /** A signed refresh token. */
  datatype Token = Token(jti: nat, sub: nat, exp: int)

  /** `issued`, `families` and `children` are history: every token signed so far, the login that
      each session descends from, and the sessions that refreshing each token produced. */
  datatype State = State(
    sessions: map<nat, Session>, active: set<nat>, now: int, next: nat,
    issued: set<Token>, families: map<nat, nat>, children: map<nat, seq<nat>>)

  const INIT := State(map[], {}, 0, 0, {}, map[], map[])

  datatype Action =
    | SetActive(user: nat, isActive: bool)
    | Login(user: nat, ttl: nat, tokenTtl: nat)
    | Refresh(token: Token, ttl: nat, tokenTtl: nat)
    | Logout(user: nat)
    | Tick(now: int)

  /** Creates a session and signs its token; the family is the new session's own, or inherited. */
  function Issue(s: State, user: nat, ttl: nat, tokenTtl: nat, family: nat): State {
    s.(sessions := s.sessions[s.next := Session(user, s.now + ttl, false)],
       next := s.next + 1,
       issued := s.issued + {Token(s.next, user, s.now + tokenTtl)},
       families := s.families[s.next := family],
       children := s.children[s.next := []])
  }

  function RevokeAll(sessions: map<nat, Session>, user: nat): map<nat, Session> {
    map j | j in sessions :: if sessions[j].userId == user then sessions[j].(revoked := true) else sessions[j]
  }

  /** The signature is ours and the token has not expired. */
  predicate Verifies(s: State, token: Token) {
    token in s.issued && s.now < token.exp
  }

  predicate Live(s: State, jti: nat) {
    jti in s.sessions && !s.sessions[jti].revoked
  }

  function RefreshStep(s: State, token: Token, ttl: nat, tokenTtl: nat): State {
    if !Verifies(s, token) then s
    else if !Live(s, token.jti) then s.(sessions := RevokeAll(s.sessions, token.sub))
    else if s.sessions[token.jti].expiresAt < s.now then s
    else
      var spent := s.(sessions := s.sessions[token.jti := s.sessions[token.jti].(revoked := true)]);
      if token.sub !in s.active || token.jti !in s.families || token.jti !in s.children then spent
      else
        var s' := Issue(spent, token.sub, ttl, tokenTtl, s.families[token.jti]);
        s'.(children := s'.children[token.jti := s.children[token.jti] + [s.next]])
  }

  function Apply(s: State, a: Action): State {
    match a
    case SetActive(user, isActive) => s.(active := if isActive then s.active + {user} else s.active - {user})
    case Login(user, ttl, tokenTtl) => Issue(s, user, ttl, tokenTtl, s.next)
    case Refresh(token, ttl, tokenTtl) => RefreshStep(s, token, ttl, tokenTtl)
    case Logout(user) => s.(sessions := RevokeAll(s.sessions, user))
    case Tick(now) => if s.now <= now then s.(now := now) else s
  }

  function Run(s: State, actions: seq<Action>): State {
    if actions == [] then s else Apply(Run(s, actions[..|actions| - 1]), actions[|actions| - 1])
  }

  // ---- the invariant ----

  ghost predicate SessionOk(s: State, j: nat) {
    && (j in s.sessions <==> j < s.next)
    && (j in s.families <==> j < s.next) && (j in s.children <==> j < s.next)
    && (j < s.next ==>
          && |s.children[j]| <= 1
          && (!s.sessions[j].revoked ==> s.children[j] == []))
  }

  ghost predicate Inv(s: State) {
    && (forall j: nat :: SessionOk(s, j))
    && (forall t <- s.issued :: t.jti < s.next && t.jti in s.sessions && t.sub == s.sessions[t.jti].userId)
    && (forall i, j | Live(s, i) && Live(s, j) && i != j ::
          i in s.families && j in s.families ==> s.families[i] != s.families[j])
    && (forall j <- s.families :: s.families[j] <= j)
  }

  lemma IssueKeeps(s: State, user: nat, ttl: nat, tokenTtl: nat, family: nat)
    requires Inv(s) && family <= s.next
    requires forall j | Live(s, j) :: j in s.families ==> s.families[j] != family
    ensures Inv(Issue(s, user, ttl, tokenTtl, family))
  {
    var s' := Issue(s, user, ttl, tokenTtl, family);
    assert SessionOk(s, s.next);
    forall j: nat ensures SessionOk(s', j) { assert SessionOk(s, j); }
    forall t <- s'.issued ensures t.jti < s'.next && t.jti in s'.sessions && t.sub == s'.sessions[t.jti].userId {
      assert t in s.issued || t.jti == s.next;
    }
  }

  lemma RevokeAllKeeps(s: State, user: nat)
    requires Inv(s)
    ensures Inv(s.(sessions := RevokeAll(s.sessions, user)))
  {
    var s' := s.(sessions := RevokeAll(s.sessions, user));
    forall j: nat ensures SessionOk(s', j) { assert SessionOk(s, j); }
    assert forall j | Live(s', j) :: Live(s, j);
    forall t <- s'.issued ensures t.jti < s'.next && t.jti in s'.sessions && t.sub == s'.sessions[t.jti].userId {
      assert SessionOk(s, t.jti);
    }
  }

  lemma SpendKeeps(s: State, j: nat)
    requires Inv(s) && j in s.sessions
    ensures var s' := s.(sessions := s.sessions[j := s.sessions[j].(revoked := true)]);
            Inv(s') && forall i | Live(s', i) :: Live(s, i) && i != j
  {
    var s' := s.(sessions := s.sessions[j := s.sessions[j].(revoked := true)]);
    forall i: nat ensures SessionOk(s', i) { assert SessionOk(s, i); }
    assert forall i | Live(s', i) :: Live(s, i);
  }

  lemma RefreshKeeps(s: State, token: Token, ttl: nat, tokenTtl: nat)
    requires Inv(s) && Verifies(s, token) && Live(s, token.jti) && s.sessions[token.jti].expiresAt >= s.now
    ensures Inv(RefreshStep(s, token, ttl, tokenTtl))
  {
    var spent := s.(sessions := s.sessions[token.jti := s.sessions[token.jti].(revoked := true)]);
    SpendKeeps(s, token.jti);
    assert SessionOk(s, token.jti);
    if token.sub in s.active {
      IssueKeeps(spent, token.sub, ttl, tokenTtl, s.families[token.jti]);
      var s1 := Issue(spent, token.sub, ttl, tokenTtl, s.families[token.jti]);
      var s' := RefreshStep(s, token, ttl, tokenTtl);
      forall j: nat ensures SessionOk(s', j) { assert SessionOk(s1, j); }
      assert forall j | Live(s', j) :: Live(s1, j);
    }
  }

  lemma ApplyKeeps(s: State, a: Action)
    requires Inv(s)
    ensures Inv(Apply(s, a))
  {
    match a
    case SetActive(user, isActive) =>
      var s' := Apply(s, a);
      forall j: nat ensures SessionOk(s', j) { assert SessionOk(s, j); }
    case Login(user, ttl, tokenTtl) => 
      forall j | Live(s, j) ensures j in s.families ==> s.families[j] != s.next { assert SessionOk(s, j); }
      IssueKeeps(s, user, ttl, tokenTtl, s.next);
    case Refresh(token, ttl, tokenTtl) =>
      if Verifies(s, token) {
        if !Live(s, token.jti) {
          RevokeAllKeeps(s, token.sub);
        } else if s.sessions[token.jti].expiresAt >= s.now {
          RefreshKeeps(s, token, ttl, tokenTtl);
        }
      }
    case Logout(user) => RevokeAllKeeps(s, user);
    case Tick(now) =>
      var s' := Apply(s, a);
      forall j: nat ensures SessionOk(s', j) { assert SessionOk(s, j); }
  }

  lemma {:induction false} RunKeeps(s: State, actions: seq<Action>)
    requires Inv(s)
    ensures Inv(Run(s, actions))
  {
    if actions != [] {
      RunKeeps(s, actions[..|actions| - 1]);
      ApplyKeeps(Run(s, actions[..|actions| - 1]), actions[|actions| - 1]);
    }
  }

  lemma Reachable(actions: seq<Action>)
    ensures Inv(Run(INIT, actions))
  {
    assert Inv(INIT);
    RunKeeps(INIT, actions);
  }

  // ---- what every run guarantees ----

  /** Each refresh token yields at most one new session, and of all sessions that descend from one
      login at most one is live. */
  lemma RotationIsLinear(actions: seq<Action>, i: nat, j: nat)
    ensures var s := Run(INIT, actions);
            && (i in s.children ==> |s.children[i]| <= 1)
            && (i in s.families && j in s.families && s.families[i] == s.families[j] && Live(s, i) && Live(s, j)
                ==> i == j)
  {
    Reachable(actions);
    assert SessionOk(Run(INIT, actions), i);
  }

  /** A session that is revoked stays revoked, and refreshing its token never again yields one. */
  lemma {:induction false} RevokedForever(s: State, actions: seq<Action>, j: nat)
    requires Inv(s) && j in s.sessions && s.sessions[j].revoked
    ensures var s' := Run(s, actions);
            && j in s'.sessions && s'.sessions[j].revoked
            && j in s.children && j in s'.children && s'.children[j] == s.children[j]
  {
    assert SessionOk(s, j);
    if actions != [] {
      var before, a := Run(s, actions[..|actions| - 1]), actions[|actions| - 1];
      RevokedForever(s, actions[..|actions| - 1], j);
      RunKeeps(s, actions[..|actions| - 1]);
      assert SessionOk(before, j);
    }
  }

  lemma {:induction false} TokensStayIssued(s: State, actions: seq<Action>)
    ensures s.issued <= Run(s, actions).issued
  {
    if actions != [] {
      TokensStayIssued(s, actions[..|actions| - 1]);
    }
  }

  /** Presenting a genuine, unexpired token whose session is spent or revoked leaves its user
      without a live session; and no token issued to that user before then ever yields a session
      again, whatever happens later. */
  lemma ReuseEndsEverySession(
    actions: seq<Action>, token: Token, ttl: nat, tokenTtl: nat, later: seq<Action>, other: Token)
    requires var s := Run(INIT, actions);
             Verifies(s, token) && !Live(s, token.jti) && other in s.issued && other.sub == token.sub
    ensures var s' := Apply(Run(INIT, actions), Refresh(token, ttl, tokenTtl));
            && (forall j | j in s'.sessions && s'.sessions[j].userId == token.sub :: s'.sessions[j].revoked)
            && other.jti in s'.children && other.jti in Run(s', later).children
            && Run(s', later).children[other.jti] == s'.children[other.jti]
            && !Live(Run(s', later), other.jti)
  {
    Reachable(actions);
    var s := Run(INIT, actions);
    var s' := Apply(s, Refresh(token, ttl, tokenTtl));
    ApplyKeeps(s, Refresh(token, ttl, tokenTtl));
    assert SessionOk(s, other.jti) && SessionOk(s', other.jti);
    RevokedForever(s', later, other.jti);
  }

  /** A refresh yields a session exactly for a genuine, unexpired token with a live, unexpired
      session of an active user; the new session is live and the old one is not. */
  lemma RefreshYieldsIff(actions: seq<Action>, token: Token, ttl: nat, tokenTtl: nat)
    ensures var s := Run(INIT, actions);
            var s' := Apply(s, Refresh(token, ttl, tokenTtl));
            && (s'.next != s.next <==>
                  Verifies(s, token) && Live(s, token.jti) && s.sessions[token.jti].expiresAt >= s.now
                   && token.sub in s.active)
            && (s'.next != s.next ==>
                  && s'.next == s.next + 1 && Live(s', s.next) && s'.sessions[s.next].userId == token.sub
                  && !Live(s', token.jti) && token.jti in s'.children && s'.children[token.jti] == [s.next])
  {
    Reachable(actions);
    var s := Run(INIT, actions);
    if Verifies(s, token) {
      assert SessionOk(s, token.jti);
    }
  }

  // ---- what the other sessions see of it ----

  /** The same sessions with the same users and expiries; those of the user are revoked, and no other
      is that was not. */
  predicate RevokesOnly(before: map<nat, Session>, after: map<nat, Session>, user: nat) {
    && after.Keys == before.Keys
    && forall j <- before ::
         && after[j].userId == before[j].userId && after[j].expiresAt == before[j].expiresAt
         && (after[j].revoked <==> before[j].revoked || before[j].userId == user)
  }

  /** A session is added that is live, belongs to the user and expires at `expiry`; of the others only
      `spent`, if any, is changed, to be revoked. */
  predicate AddsSession(
    before: map<nat, Session>, after: map<nat, Session>, added: nat, user: nat, expiry: int, spent: Option<nat>)
  {
    && added !in before && after.Keys == before.Keys + {added}
    && after[added] == Session(user, expiry, false)
    && forall j <- before ::
         if spent == Some(j) then after[j] == Session(before[j].userId, before[j].expiresAt, true)
         else after[j] == before[j]
  }

  /** What a call leaves of the sessions. A login, or a refresh that yields, adds one; a logout, or a
      token that was spent, revokes those of one user; an inactive account only loses the session of
      its token; and a token that is not ours, has expired or names an expired session changes none. */
  predicate Leaves(s: State, a: Action, after: map<nat, Session>) {
    match a
    case Logout(user) => RevokesOnly(s.sessions, after, user)
    case Login(user, ttl, _) => AddsSession(s.sessions, after, s.next, user, s.now + ttl, None)
    case Refresh(token, ttl, _) =>
      if token !in s.issued || s.now >= token.exp then after == s.sessions
      else
        && token.jti in s.sessions
        && var session := s.sessions[token.jti];
           if session.revoked then RevokesOnly(s.sessions, after, token.sub)
           else if session.expiresAt < s.now then after == s.sessions
           else if token.sub !in s.active then
             after == s.sessions[token.jti := Session(session.userId, session.expiresAt, true)]
           else AddsSession(s.sessions, after, s.next, token.sub, s.now + ttl, Some(token.jti))
    case _ => after == s.sessions
  }

  lemma SessionsAfter(actions: seq<Action>, a: Action)
    ensures Leaves(Run(INIT, actions), a, Apply(Run(INIT, actions), a).sessions)
  {
    Reachable(actions);
    StepLeaves(Run(INIT, actions), a);
  }

  lemma StepLeaves(s: State, a: Action)
    requires Inv(s)
    ensures Leaves(s, a, Apply(s, a).sessions)
  {
    assert SessionOk(s, s.next);
    if a.Refresh? && a.token in s.issued {
      assert SessionOk(s, a.token.jti);
    }
  }

  /** The token of a login is good for one refresh until it or its session expires, while its user is
      active: at any time `t` from then on it yields a session exactly if so. */
  lemma LoginTokenRefreshes(
    actions: seq<Action>, user: nat, ttl: nat, tokenTtl: nat, t: int, isActive: bool, newTtl: nat, newTokenTtl: nat)
    requires t >= Run(INIT, actions).now
    ensures var s := Run(INIT, actions);
            var later := Apply(Apply(Apply(s, Login(user, ttl, tokenTtl)), SetActive(user, isActive)), Tick(t));
            var after := Apply(later, Refresh(Token(s.next, user, s.now + tokenTtl), newTtl, newTokenTtl));
            if t < s.now + tokenTtl && t <= s.now + ttl && isActive then
              AddsSession(later.sessions, after.sessions, s.next + 1, user, t + newTtl, Some(s.next))
              && Token(s.next + 1, user, t + newTokenTtl) in after.issued
            else forall j <- after.sessions :: j <= s.next
  {
    Reachable(actions);
    var s := Run(INIT, actions);
    var later := Apply(Apply(Apply(s, Login(user, ttl, tokenTtl)), SetActive(user, isActive)), Tick(t));
    var refresh := Refresh(Token(s.next, user, s.now + tokenTtl), newTtl, newTokenTtl);
    AfterLogin(s, user, ttl, tokenTtl, t, isActive);
    StepLeaves(later, refresh);
    assert SessionOk(later, s.next);
  }

  lemma AfterLogin(s: State, user: nat, ttl: nat, tokenTtl: nat, t: int, isActive: bool)
    requires Inv(s) && t >= s.now
    ensures var later := Apply(Apply(Apply(s, Login(user, ttl, tokenTtl)), SetActive(user, isActive)), Tick(t));
            && Inv(later) && later.next == s.next + 1 && later.now == t && (user in later.active <==> isActive)
            && later.sessions == s.sessions[s.next := Session(user, s.now + ttl, false)]
            && Token(s.next, user, s.now + tokenTtl) in later.issued
            && forall j <- later.sessions :: j <= s.next
  {
    var login := Apply(s, Login(user, ttl, tokenTtl));
    ApplyKeeps(s, Login(user, ttl, tokenTtl));
    ApplyKeeps(login, SetActive(user, isActive));
    ApplyKeeps(Apply(login, SetActive(user, isActive)), Tick(t));
    forall j <- login.sessions ensures j <= s.next {
      assert SessionOk(login, j);
    }
  }

  // ---- the service ----

  class AuthService {
    var sessions: map<nat, Session>
    var active: set<nat>
    var next: nat
    ghost var issued: set<Token>
    ghost var families: map<nat, nat>
    ghost var children: map<nat, seq<nat>>

    constructor ()
      ensures Rows(0) == INIT
    {
      sessions, active, next := map[], {}, 0;
      issued, families, children := {}, map[], map[];
    }

    ghost function Rows(now: int): State
      reads this
    {
      State(sessions, active, now, next, issued, families, children)
    }

    method IssueSession(user: nat, now: int, ttl: nat, tokenTtl: nat, ghost family: nat) returns (token: Token)
      modifies this
      ensures Rows(now) == Issue(old(Rows(now)), user, ttl, tokenTtl, family)
      ensures token == Token(old(next), user, now + tokenTtl)
      ensures sessions == old(sessions)[old(next) := Session(user, now + ttl, false)]
    {
      token := Token(next, user, now + tokenTtl);
      sessions := sessions[next := Session(user, now + ttl, false)];
      issued := issued + {token};
      families, children := families[next := family], children[next := []];
      next := next + 1;
    }

    method RevokeSessions(user: nat)
      modifies `sessions
      ensures sessions == RevokeAll(old(sessions), user)
      ensures RevokesOnly(old(sessions), sessions, user)
    {
      sessions := map j | j in sessions ::
        if sessions[j].userId == user then sessions[j].(revoked := true) else sessions[j];
    }

    /** `genuine` is the outcome of checking the signature. */
    method Refresh(token: Token, genuine: bool, now: int, ttl: nat, tokenTtl: nat) returns (r: Option<Token>)
      requires genuine <==> token in issued
      requires Inv(Rows(now))
      modifies this
      ensures Rows(now) == Apply(old(Rows(now)), Action.Refresh(token, ttl, tokenTtl)) && Inv(Rows(now))
      ensures r.Some? <==> next == old(next) + 1
      ensures r.Some? ==> r.value == Token(old(next), token.sub, now + tokenTtl)
      ensures Leaves(old(Rows(now)), Action.Refresh(token, ttl, tokenTtl), sessions)
    {
      StepLeaves(Rows(now), Action.Refresh(token, ttl, tokenTtl));
      ApplyKeeps(Rows(now), Action.Refresh(token, ttl, tokenTtl));
      r := None;
      if !genuine || now >= token.exp {
        return;
      }
      assert SessionOk(Rows(now), token.jti);
      if sessions[token.jti].revoked {
        RevokeSessions(token.sub);
        return;
      }
      if sessions[token.jti].expiresAt < now {
        return;
      }
      sessions := sessions[token.jti := sessions[token.jti].(revoked := true)];
      if token.sub !in active {
        return;
      }
      ghost var child := next;
      ghost var before := children[token.jti];
      var issued := IssueSession(token.sub, now, ttl, tokenTtl, families[token.jti]);
      children := children[token.jti := before + [child]];
      r := Some(issued);
    }

    method Logout(user: nat)
      modifies this
      ensures Rows(0) == Apply(old(Rows(0)), Action.Logout(user))
      ensures RevokesOnly(old(sessions), sessions, user)
    {
      RevokeSessions(user);
    }
  }
}
