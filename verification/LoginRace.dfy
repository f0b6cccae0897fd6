/** Login reads the account in one statement and opens the session in a later
    transaction. Other operations may run in between. */
module LoginRace {
  import opened Common
  import opened Sessions

  /** openSession with the account, and the time, as Login read them; only the
      access token is dated when it is signed. */
  function OpenAsRead(w: World, u: UserId, asRead: User, readAt: int, s: SessionId, r: Secret): World {
    w.(sessions := w.sessions[s := Session(u, HashOf(r), readAt + w.refreshTtl, false)],
       issued := w.issued + {Access(u, s, asRead.level, asRead.kind, w.now + w.accessTtl)},
       minted := w.minted + {r}, handed := w.handed + {(s, r)})
  }

  /** The account as far as a sign-in depends on it. */
  predicate AsRead(a: User, b: User) {
    a.level == b.level && a.kind == b.kind && a.active == b.active && a.password == b.password
  }

  /** The claims of the tokens of one session, dates aside. */
  ghost function Claims(w: World, s: SessionId): set<(UserId, int, Kind)> {
    set t | t in w.issued && t.session == s :: (t.user, t.level, t.kind)
  }

  /** The same world, the dates of session s aside. */
  ghost predicate SameButDates(x: World, y: World, s: SessionId) {
    && x.now == y.now && x.users == y.users && x.minted == y.minted && x.handed == y.handed
    && x.sessions.Keys == y.sessions.Keys
    && (forall k :: k in x.sessions && k != s ==> x.sessions[k] == y.sessions[k])
    && (s in x.sessions ==> x.sessions[s].(expiresAt := 0) == y.sessions[s].(expiresAt := 0))
    && (forall t: Access :: t.session != s ==> (t in x.issued <==> t in y.issued))
    && Claims(x, s) == Claims(y, s)
  }

  /** The session id and the refresh token do not exist before Login draws them. */
  predicate Names(op: Op, s: SessionId, r: Secret) {
    match op
    case RegisterInvited(_, _, s', r') => s' == s || r' == r
    case RegisterBasic(_, _, s', r') => s' == s || r' == r
    case Login(_, _, s', r') => s' == s || r' == r
    case Refresh(s', _, r') => s' == s || r' == r
    case Logout(_, s') => s' == s
    case ChangePassword(_, current, _, _) => current == s
    case _ => false
  }

  ghost predicate NeverNames(run: seq<Op>, s: SessionId, r: Secret) {
    forall k :: 0 <= k < |run| ==> !Names(run[k], s, r)
  }

  // ---- the run with the login in front ----

  /** b is w with one more session in it. */
  ghost predicate Shadow(w: World, b: World, s: SessionId, r: Secret) {
    && b.users == w.users && b.now == w.now
    && s !in w.sessions && b.sessions.Keys == w.sessions.Keys + {s}
    && (forall x :: x in w.sessions ==> b.sessions[x] == w.sessions[x])
    && b.minted == w.minted + {r} && b.refreshTtl == w.refreshTtl
  }

  lemma StepShadows(w: World, b: World, op: Op, s: SessionId, r: Secret)
    requires Shadow(w, b, s, r) && Enabled(w, op) && !Names(op, s, r)
    ensures Shadow(Apply(w, op), Apply(b, op), s, r)
  {
    match op {
      case Refresh(_, _, _) => RefreshShadows(w, b, op, s, r);
      case RegisterInvited(_, _, _, _) => OpeningShadows(w, b, op, s, r);
      case RegisterBasic(_, _, _, _) => OpeningShadows(w, b, op, s, r);
      case Login(_, _, _, _) => OpeningShadows(w, b, op, s, r);
      case _ =>
    }
  }

  lemma OpeningShadows(w: World, b: World, op: Op, s: SessionId, r: Secret)
    requires Shadow(w, b, s, r) && (op.RegisterInvited? || op.RegisterBasic? || op.Login?)
    requires Enabled(w, op) && !Names(op, s, r)
    ensures Shadow(Apply(w, op), Apply(b, op), s, r)
  {
  }

  lemma RefreshShadows(w: World, b: World, op: Op, s: SessionId, r: Secret)
    requires Shadow(w, b, s, r) && op.Refresh? && !Names(op, s, r)
    ensures Shadow(Apply(w, op), Apply(b, op), s, r)
  {
    assert Reused(w, op.session, op.token) <==> Reused(b, op.session, op.token);
    assert Rotates(w, op.session, op.token) <==> Rotates(b, op.session, op.token);
  }

  /** Whatever changes the account revokes the session. */
  lemma StepSparesOrRevokes(b: World, op: Op, s: SessionId, r: Secret)
    requires s in b.sessions && b.sessions[s].user in b.users && b.users[b.sessions[s].user].active
    requires !Names(op, s, r) && (op.RegisterInvited? || op.RegisterBasic? ==> op.user !in b.users)
    ensures var b', u := Apply(b, op), b.sessions[s].user;
      && s in b'.sessions && b'.sessions[s].user == u && u in b'.users
      && (b.sessions[s].revoked ==> b'.sessions[s].revoked)
      && (!b'.sessions[s].revoked ==> AsRead(b.users[u], b'.users[u]))
  {
  }

  lemma {:induction false} RevokedStays(b: World, run: seq<Op>, s: SessionId)
    requires s in b.sessions && b.sessions[s].revoked
    requires forall k :: 0 <= k < |run| ==>
      !((run[k].RegisterInvited? || run[k].RegisterBasic? || run[k].Login?) && run[k].session == s)
    ensures s in Exec(b, run).sessions && Exec(b, run).sessions[s].revoked
    decreases |run|
  {
    if run != [] {
      RevokedStays(Apply(b, run[0]), run[1..], s);
    }
  }

  lemma {:induction false} UnrevokedIsAsRead(w: World, b: World, run: seq<Op>, s: SessionId, r: Secret)
    requires Shadow(w, b, s, r) && IsRun(w, run) && NeverNames(run, s, r)
    requires b.sessions[s].user in b.users && b.users[b.sessions[s].user].active
    ensures var b', u := Exec(b, run), b.sessions[s].user;
      && b'.users == Exec(w, run).users && s in b'.sessions
      && (!b'.sessions[s].revoked ==> u in b'.users && AsRead(b.users[u], b'.users[u]))
    decreases |run|
  {
    if run != [] {
      var w1, b1 := Apply(w, run[0]), Apply(b, run[0]);
      StepShadows(w, b, run[0], s, r);
      StepSparesOrRevokes(b, run[0], s, r);
      if b1.sessions[s].revoked {
        RevokedStays(b1, run[1..], s);
        UsersAgree(w1, b1, run[1..], s, r);
      } else {
        UnrevokedIsAsRead(w1, b1, run[1..], s, r);
      }
    }
  }

  lemma {:induction false} UsersAgree(w: World, b: World, run: seq<Op>, s: SessionId, r: Secret)
    requires Shadow(w, b, s, r) && IsRun(w, run) && NeverNames(run, s, r)
    ensures Exec(b, run).users == Exec(w, run).users
    decreases |run|
  {
    if run != [] {
      StepShadows(w, b, run[0], s, r);
      UsersAgree(Apply(w, run[0]), Apply(b, run[0]), run[1..], s, r);
    }
  }

  // ---- when the two transactions are as good as one ----

  /** The run with the whole login put at one place in it. */
  ghost function WithLoginAt(w: World, between: seq<Op>, login: Op, k: nat): World
    requires k <= |between|
  {
    Exec(Apply(Exec(w, between[..k]), login), between[k..])
  }

  /** The outcome is that of the login at some place among the others. */
  ghost predicate Serial(w: World, between: seq<Op>, login: Op, outcome: World)
    requires login.Login?
  {
    exists k :: 0 <= k <= |between| && SameButDates(outcome, WithLoginAt(w, between, login, k), login.session)
  }

  ghost predicate MayLogIn(w: World, between: seq<Op>, login: Op) {
    && login.Login? && Inv(w) && IsRun(w, between) && NeverNames(between, login.session, login.refresh)
    && login.user in w.users && w.users[login.user].active && w.users[login.user].password == HashOf(login.password)
    && login.session !in Exec(w, between).sessions && login.refresh !in Exec(w, between).minted
    && login.session !in w.sessions && login.refresh !in w.minted
  }

  ghost function Outcome(w: World, between: seq<Op>, login: Op): World
    requires MayLogIn(w, between, login)
  {
    OpenAsRead(Exec(w, between), login.user, w.users[login.user], w.now, login.session, login.refresh)
  }

  lemma {:induction false} UsersRemain(w: World, run: seq<Op>, u: UserId)
    requires u in w.users
    ensures u in Exec(w, run).users
    decreases |run|
  {
    if run != [] {
      UsersRemain(Apply(w, run[0]), run[1..], u);
    }
  }

  lemma NewClaims(w: World, t: Access)
    requires forall x :: x in w.issued ==> x.session != t.session
    ensures Claims(w.(issued := w.issued + {t}), t.session) == {(t.user, t.level, t.kind)}
  {
  }

  lemma SerialAfterIff(w: World, between: seq<Op>, login: Op)
    requires MayLogIn(w, between, login)
    ensures login.user in Exec(w, between).users
    ensures SameButDates(Outcome(w, between, login), Apply(Exec(w, between), login), login.session)
      <==> AsRead(w.users[login.user], Exec(w, between).users[login.user])
  {
    var w1, u, s, r := Exec(w, between), login.user, login.session, login.refresh;
    RunKeeps(w, between);
    UsersRemain(w, between, u);
    var asRead, cur := w.users[u], w1.users[u];
    var x, y := Outcome(w, between, login), Apply(w1, login);
    assert forall t :: t in w1.issued ==> t.session != s;
    NewClaims(w1, Access(u, s, asRead.level, asRead.kind, w1.now + w1.accessTtl));
    NewClaims(w1, Access(u, s, cur.level, cur.kind, w1.now + w1.accessTtl));
    if cur.active && cur.password == HashOf(login.password) {
      assert Claims(x, s) == {(u, asRead.level, asRead.kind)};
      assert Claims(y, s) == {(u, cur.level, cur.kind)};
      assert (u, asRead.level, asRead.kind) in Claims(x, s);
    } else {
      assert y == w1 && s in x.sessions && s !in y.sessions;
    }
  }

  lemma {:induction false} Split(w: World, run: seq<Op>, k: nat)
    requires IsRun(w, run) && k <= |run|
    ensures IsRun(w, run[..k]) && IsRun(Exec(w, run[..k]), run[k..])
    ensures Exec(w, run) == Exec(Exec(w, run[..k]), run[k..])
    decreases |run|
  {
    if k > 0 {
      Split(Apply(w, run[0]), run[1..], k - 1);
      TailSlices(run, k);
    } else {
      assert run[..0] == [] && run[0..] == run;
    }
  }

  /** What no operation names stays as it is: absent, or with the same claims. */
  lemma StepIgnores(w: World, op: Op, s: SessionId, r: Secret)
    requires !Names(op, s, r)
    ensures s in Apply(w, op).sessions <==> s in w.sessions
    ensures Claims(Apply(w, op), s) == Claims(w, s)
  {
  }

  lemma {:induction false} RunIgnores(w: World, run: seq<Op>, s: SessionId, r: Secret)
    requires NeverNames(run, s, r)
    ensures s in Exec(w, run).sessions <==> s in w.sessions
    ensures Claims(Exec(w, run), s) == Claims(w, s)
    decreases |run|
  {
    if run != [] {
      StepIgnores(w, run[0], s, r);
      RunIgnores(Apply(w, run[0]), run[1..], s, r);
    }
  }

  /** A login that fits in at place k read the account as it was at k, and the
      account has stayed so. */
  lemma SerialAtOnlyIf(w: World, between: seq<Op>, login: Op, k: nat)
    requires MayLogIn(w, between, login) && k <= |between|
    requires SameButDates(Outcome(w, between, login), WithLoginAt(w, between, login, k), login.session)
    ensures login.user in Exec(w, between).users && AsRead(w.users[login.user], Exec(w, between).users[login.user])
  {
    var u, s, r := login.user, login.session, login.refresh;
    var early, rest := between[..k], between[k..];
    Split(w, between, k);
    var at := Exec(w, early);
    RunIgnores(w, early, s, r);
    UsersRemain(w, early, u);
    RunKeeps(w, early);
    var b := Apply(at, login);
    RunIgnores(b, rest, s, r);
    assert b != at;
    ClaimsMatch(w, between, login, at, b);
    UnrevokedIsAsRead(at, b, rest, s, r);
  }

  lemma ClaimsMatch(w: World, between: seq<Op>, login: Op, at: World, b: World)
    requires MayLogIn(w, between, login) && Inv(at) && login.user in at.users && login.session !in at.sessions
    requires b == Apply(at, login) && b != at
    requires Claims(Outcome(w, between, login), login.session) == Claims(b, login.session)
    ensures AsRead(w.users[login.user], at.users[login.user])
  {
    var u, s, w1 := login.user, login.session, Exec(w, between);
    RunKeeps(w, between);
    var read, was := w.users[u], at.users[u];
    NewClaims(w1, Access(u, s, read.level, read.kind, w1.now + w1.accessTtl));
    NewClaims(at, Access(u, s, was.level, was.kind, at.now + at.accessTtl));
    assert Claims(Outcome(w, between, login), s) == {(u, read.level, read.kind)};
    assert Claims(b, s) == {(u, was.level, was.kind)};
    assert (u, read.level, read.kind) in Claims(b, s);
  }

  /** With any operations in between, a login is as good as a serial one, at
      whatever place among them, if and only if the account row it opens the
      session for still has the level, kind, activity and password it was read
      with. */
  lemma LoginIsSerialIff(w: World, between: seq<Op>, login: Op)
    requires MayLogIn(w, between, login)
    ensures login.user in Exec(w, between).users
    ensures Serial(w, between, login, Outcome(w, between, login))
      <==> AsRead(w.users[login.user], Exec(w, between).users[login.user])
  {
    SerialAfterIff(w, between, login);
    var n := |between|;
    assert between[..n] == between && between[n..] == [];
    assert WithLoginAt(w, between, login, n) == Apply(Exec(w, between), login);
    if k :| 0 <= k <= n && SameButDates(Outcome(w, between, login), WithLoginAt(w, between, login, k), login.session) {
      SerialAtOnlyIf(w, between, login, k);
    }
  }

  /** Good or not, the token is let through: its claims are those read, true
      or not, until the session is revoked again or runs out. */
  lemma TokenIsAcceptedAnyway(w: World, between: seq<Op>, login: Op)
    requires MayLogIn(w, between, login)
    ensures var w1, read := Exec(w, between), w.users[login.user];
      w1.accessTtl > 0 && w1.now < w.now + w1.refreshTtl ==>
      Accepts(Outcome(w, between, login), Access(login.user, login.session, read.level, read.kind, w1.now + w1.accessTtl), true)
  {
    UsersRemain(w, between, login.user);
  }

  // ---- schedules ----

  predicate Touches(op: Op, u: UserId) {
    match op
    case ChangePassword(user, _, _, _) => user == u
    case ChangeRole(target, _, _) => target == u
    case ResetPassword(target, _) => target == u
    case SetActive(target, _, _) => target == u
    case _ => false
  }

  lemma {:induction false} UntouchedIsAsRead(w: World, run: seq<Op>, u: UserId)
    requires IsRun(w, run) && u in w.users && forall k :: 0 <= k < |run| ==> !Touches(run[k], u)
    ensures u in Exec(w, run).users && AsRead(w.users[u], Exec(w, run).users[u])
    decreases |run|
  {
    if run != [] {
      UntouchedIsAsRead(Apply(w, run[0]), run[1..], u);
    }
  }

  /** Nothing but an operation on the account itself can spoil a login; in
      particular no logout does, of one session or of all. */
  lemma UntouchedLoginIsSerial(w: World, between: seq<Op>, login: Op)
    requires MayLogIn(w, between, login) && forall k :: 0 <= k < |between| ==> !Touches(between[k], login.user)
    ensures Serial(w, between, login, Outcome(w, between, login))
  {
    UntouchedIsAsRead(w, between, login.user);
    LoginIsSerialIff(w, between, login);
  }

  /** A role that is changed and changed back spoils nothing either. */
  lemma ChangedBackIsSerial(w: World, login: Op, level: int, actor: UserId)
    requires login.Login? && login.user in w.users
    requires var there, back := ChangeRole(login.user, level, actor), ChangeRole(login.user, w.users[login.user].level, actor);
      MayLogIn(w, [there, back], login)
      && MayChangeRole(w, login.user, level, actor) && HasRole(w.users[login.user])
    ensures var between := [ChangeRole(login.user, level, actor), ChangeRole(login.user, w.users[login.user].level, actor)];
      Serial(w, between, login, Outcome(w, between, login))
  {
    var there, back := ChangeRole(login.user, level, actor), ChangeRole(login.user, w.users[login.user].level, actor);
    ExecOne(Apply(w, there), back);
    assert [there, back][1..] == [back];
    LoginIsSerialIff(w, [there, back], login);
  }

  lemma ExecOne(w: World, op: Op)
    ensures Exec(w, [op]) == Apply(w, op)
  {
  }

  predicate HasRole(u: User) { 1 <= u.level <= 10 }

  /** A password reset that comes in between is outrun: the session opened with
      the old password lives on, which it does in neither serial order. */
  lemma ResetIsOutrun(w: World, login: Op, next: Secret)
    requires login.Login? && MayLogIn(w, [ResetPassword(login.user, next)], login) && next != login.password && w.refreshTtl > 0
    ensures var reset := [ResetPassword(login.user, next)];
      && Active(Outcome(w, reset, login), login.session)
      && forall k :: 0 <= k <= 1 ==> !Active(WithLoginAt(w, reset, login, k), login.session)
  {
    var reset := ResetPassword(login.user, next);
    ExecOne(w, reset);
    ExecOne(Apply(w, login), reset);
    assert [reset][..0] == [] && [reset][0..] == [reset] && [reset][..1] == [reset] && [reset][1..] == [];
    assert WithLoginAt(w, [reset], login, 0) == Exec(Apply(w, login), [reset]);
    assert WithLoginAt(w, [reset], login, 1) == Apply(Apply(w, reset), login);
    assert Apply(w, reset).users[login.user].password != HashOf(login.password);
  }

  /** It happens: an account signs up, and its first login is overtaken. */
  lemma ResetIsOutrunFromTheStart(now: int, accessTtl: nat, refreshTtl: nat) returns (start: seq<Op>, login: Op, next: Secret)
    requires refreshTtl > 0
    ensures var w0 := Initial(now, accessTtl, refreshTtl);
      && IsRun(w0, start) && login.Login? && next != login.password
      && MayLogIn(Exec(w0, start), [ResetPassword(login.user, next)], login)
      && Active(Outcome(Exec(w0, start), [ResetPassword(login.user, next)], login), login.session)
  {
    var w0 := Initial(now, accessTtl, refreshTtl);
    var signUp := RegisterBasic(1, 100, 10, 1000);
    start, login, next := [signUp], Login(1, 100, 20, 2000), 200;
    var reset := ResetPassword(1, 200);
    ExecOne(w0, signUp);
    assert start[1..] == [] && IsRun(Apply(w0, signUp), []);
    var w := Exec(w0, start);
    RunKeeps(w0, start);
    ExecOne(w, reset);
    assert [reset][1..] == [] && IsRun(Apply(w, reset), []);
    ResetIsOutrun(w, login, next);
  }

}
