/** Sessions, refresh rotation and clearance: sign-up, login, refresh, logout,
    password change and the administration actions, each a serial operation. */
module Sessions {
  import opened Common

  type UserId = Uuid
  type SessionId = Uuid

  /** A random opaque token or a password in the clear. */
  type Secret = nat

  /** Hashing is abstract and injective. */
  datatype Hash = HashOf(secret: Secret)

  datatype Kind = Basic | Invited

  const NO_LEVEL: int := 0
  const REGISTERED_LEVEL: int := 10

  datatype User = User(level: int, kind: Kind, active: bool, mustChange: bool, password: Hash)

  datatype Session = Session(user: UserId, refresh: Hash, expiresAt: int, revoked: bool)

  /** The claims of a signed access token. */
  datatype Access = Access(user: UserId, session: SessionId, level: int, kind: Kind, expiresAt: int)

  /** `issued` are the access tokens ever signed, `minted` the secrets ever
      drawn, `handed` the refresh tokens each session was ever given. */
  datatype World = World(
    now: int, accessTtl: nat, refreshTtl: nat,
    users: map<UserId, User>, sessions: map<SessionId, Session>,
    issued: set<Access>, minted: set<Secret>, handed: set<(SessionId, Secret)>)

  predicate Active(w: World, s: SessionId) {
    s in w.sessions && !w.sessions[s].revoked && w.now < w.sessions[s].expiresAt
  }

  /** RequireAuth, once the signature is good. `exempt` are the few routes open
      to an account that still has to change its password. */
  predicate Accepts(w: World, t: Access, exempt: bool) {
    && t in w.issued && w.now < t.expiresAt
    && Active(w, t.session) && w.sessions[t.session].user == t.user && t.user in w.users
    && (w.users[t.user].mustChange ==> exempt)
  }

  // ---- operations ----

  datatype Op =
    | RegisterInvited(user: UserId, password: Secret, session: SessionId, refresh: Secret)
    | RegisterBasic(user: UserId, password: Secret, session: SessionId, refresh: Secret)
    | Login(user: UserId, password: Secret, session: SessionId, refresh: Secret)
    | Refresh(session: SessionId, token: Secret, refresh: Secret)
    | Logout(user: UserId, session: SessionId)
    | LogoutAll(user: UserId)
    | ChangePassword(user: UserId, current: SessionId, password: Secret, newPassword: Secret)
    | ChangeRole(target: UserId, level: int, actor: UserId)
    | ResetPassword(target: UserId, newPassword: Secret)
    | SetActive(target: UserId, active: bool, actor: UserId)
    | PassTime(d: nat)

  /** Ids and opaque tokens come from the generator. */
  ghost predicate Enabled(w: World, op: Op) {
    match op
    case RegisterInvited(u, _, s, r) => u !in w.users && s !in w.sessions && r !in w.minted
    case RegisterBasic(u, _, s, r) => u !in w.users && s !in w.sessions && r !in w.minted
    case Login(_, _, s, r) => s !in w.sessions && r !in w.minted
    case Refresh(_, _, r) => r !in w.minted
    case _ => true
  }

  function IssueAccess(w: World, u: UserId, s: SessionId): Access
    requires u in w.users
  {
    Access(u, s, w.users[u].level, w.users[u].kind, w.now + w.accessTtl)
  }

  function OpenSession(w: World, u: UserId, s: SessionId, r: Secret): World
    requires u in w.users
  {
    w.(sessions := w.sessions[s := Session(u, HashOf(r), w.now + w.refreshTtl, false)],
       issued := w.issued + {IssueAccess(w, u, s)}, minted := w.minted + {r}, handed := w.handed + {(s, r)})
  }

  function Rotate(w: World, s: SessionId, r: Secret): World
    requires s in w.sessions && w.sessions[s].user in w.users
  {
    w.(sessions := w.sessions[s := w.sessions[s].(refresh := HashOf(r), expiresAt := w.now + w.refreshTtl)],
       issued := w.issued + {IssueAccess(w, w.sessions[s].user, s)},
       minted := w.minted + {r}, handed := w.handed + {(s, r)})
  }

  function RevokeOne(w: World, s: SessionId): World {
    if s in w.sessions then w.(sessions := w.sessions[s := w.sessions[s].(revoked := true)]) else w
  }

  function RevokeAll(sessions: map<SessionId, Session>, u: UserId, keep: Option<SessionId>): map<SessionId, Session> {
    map s | s in sessions ::
      if sessions[s].user == u && keep != Some(s) then sessions[s].(revoked := true) else sessions[s]
  }

  function WithUser(w: World, u: UserId, user: User): World {
    w.(users := w.users[u := user])
  }

  predicate Reused(w: World, s: SessionId, token: Secret) {
    Active(w, s) && HashOf(token) != w.sessions[s].refresh
  }

  predicate Rotates(w: World, s: SessionId, token: Secret) {
    Active(w, s) && HashOf(token) == w.sessions[s].refresh
    && w.sessions[s].user in w.users && w.users[w.sessions[s].user].active
  }

  predicate MayChangeRole(w: World, target: UserId, level: int, actor: UserId) {
    1 <= level <= 10 && target != actor && target in w.users && w.users[target].kind == Invited
  }

  function Apply(w: World, op: Op): World {
    match op
    case RegisterInvited(u, p, s, r) =>
      OpenSession(WithUser(w, u, User(REGISTERED_LEVEL, Invited, true, false, HashOf(p))), u, s, r)
    case RegisterBasic(u, p, s, r) =>
      OpenSession(WithUser(w, u, User(NO_LEVEL, Basic, true, false, HashOf(p))), u, s, r)
    case Login(u, p, s, r) =>
      if u in w.users && w.users[u].active && w.users[u].password == HashOf(p) then OpenSession(w, u, s, r) else w
    case Refresh(s, token, r) =>
      if Reused(w, s, token) then RevokeOne(w, s)
      else if Rotates(w, s, token) then Rotate(w, s, r)
      else w
    case Logout(_, s) => RevokeOne(w, s)
    case LogoutAll(u) => w.(sessions := RevokeAll(w.sessions, u, None))
    case ChangePassword(u, current, p, np) =>
      if u in w.users && w.users[u].password == HashOf(p)
      then WithUser(w, u, w.users[u].(password := HashOf(np), mustChange := false))
           .(sessions := RevokeAll(w.sessions, u, Some(current)))
      else w
    case ChangeRole(target, level, actor) =>
      if MayChangeRole(w, target, level, actor)
      then WithUser(w, target, w.users[target].(level := level)).(sessions := RevokeAll(w.sessions, target, None))
      else w
    case ResetPassword(target, np) =>
      if target in w.users
      then WithUser(w, target, w.users[target].(password := HashOf(np), mustChange := true))
           .(sessions := RevokeAll(w.sessions, target, None))
      else w
    case SetActive(target, active, actor) =>
      if target == actor || target !in w.users then w
      else
        var w1 := WithUser(w, target, w.users[target].(active := active));
        if active then w1 else w1.(sessions := RevokeAll(w.sessions, target, None))
    case PassTime(d) => w.(now := w.now + d)
  }

  // ---- the invariant ----

  /** A session that is not revoked belongs to an active account. */
  ghost predicate OwnerInv(w: World) {
    forall s :: s in w.sessions ==>
      w.sessions[s].user in w.users && (!w.sessions[s].revoked ==> w.users[w.sessions[s].user].active)
  }

  /** The claims of a token whose session is not revoked are still true. */
  ghost predicate TokenInv(w: World) {
    forall t :: t in w.issued ==>
      && t.session in w.sessions && w.sessions[t.session].user == t.user && t.user in w.users
      && (!w.sessions[t.session].revoked ==> t.level == w.users[t.user].level && t.kind == w.users[t.user].kind)
  }

  ghost predicate RefreshInv(w: World) {
    && (forall s :: s in w.sessions ==> (s, w.sessions[s].refresh.secret) in w.handed)
    && (forall s, r :: (s, r) in w.handed ==> s in w.sessions && r in w.minted)
    && (forall s, s', r :: (s, r) in w.handed && (s', r) in w.handed ==> s == s')
  }

  ghost predicate Inv(w: World) {
    OwnerInv(w) && TokenInv(w) && RefreshInv(w)
  }

  lemma OpenKeeps(w: World, u: UserId, s: SessionId, r: Secret)
    requires Inv(w) && u in w.users && w.users[u].active && s !in w.sessions && r !in w.minted
    ensures Inv(OpenSession(w, u, s, r))
  {
    assert forall t :: t in w.issued ==> t.session != s;
  }

  lemma RotateKeeps(w: World, s: SessionId, token: Secret, r: Secret)
    requires Inv(w) && Rotates(w, s, token) && r !in w.minted
    ensures Inv(Rotate(w, s, r))
  {
  }

  /** Revoking sessions, and changing an account all of whose sessions go. */
  lemma RevokeKeeps(w: World, u: UserId, user: User)
    requires Inv(w)
    ensures Inv(w.(sessions := RevokeAll(w.sessions, u, None)))
    ensures u in w.users ==> Inv(WithUser(w, u, user).(sessions := RevokeAll(w.sessions, u, None)))
  {
  }

  lemma PasswordKeeps(w: World, u: UserId, user: User, keep: Option<SessionId>)
    requires Inv(w) && u in w.users
    requires user.level == w.users[u].level && user.kind == w.users[u].kind && (w.users[u].active ==> user.active)
    ensures Inv(WithUser(w, u, user).(sessions := RevokeAll(w.sessions, u, keep)))
    ensures Inv(WithUser(w, u, user))
  {
  }

  lemma NewUserKeeps(w: World, u: UserId, user: User)
    requires Inv(w) && u !in w.users
    ensures Inv(WithUser(w, u, user))
  {
  }

  lemma StepKeeps(w: World, op: Op)
    requires Inv(w) && Enabled(w, op)
    ensures Inv(Apply(w, op))
  {
    match op
    case RegisterInvited(u, p, s, r) =>
      var user := User(REGISTERED_LEVEL, Invited, true, false, HashOf(p));
      NewUserKeeps(w, u, user);
      OpenKeeps(WithUser(w, u, user), u, s, r);
    case RegisterBasic(u, p, s, r) =>
      var user := User(NO_LEVEL, Basic, true, false, HashOf(p));
      NewUserKeeps(w, u, user);
      OpenKeeps(WithUser(w, u, user), u, s, r);
    case Login(u, p, s, r) =>
      if Apply(w, op) != w { OpenKeeps(w, u, s, r); }
    case Refresh(s, token, r) =>
      if Rotates(w, s, token) { RotateKeeps(w, s, token, r); }
    case Logout(_, s) =>
    case LogoutAll(u) => RevokeKeeps(w, u, User(0, Basic, true, false, HashOf(0)));
    case ChangePassword(u, current, p, np) =>
      if u in w.users {
        PasswordKeeps(w, u, w.users[u].(password := HashOf(np), mustChange := false), Some(current));
      }
    case ChangeRole(target, level, actor) =>
      if target in w.users { RevokeKeeps(w, target, w.users[target].(level := level)); }
    case ResetPassword(target, np) =>
      if target in w.users { RevokeKeeps(w, target, w.users[target].(password := HashOf(np), mustChange := true)); }
    case SetActive(target, active, actor) =>
      if target in w.users {
        var user := w.users[target].(active := active);
        if active { PasswordKeeps(w, target, user, None); } else { RevokeKeeps(w, target, user); }
      }
    case PassTime(d) =>
  }

  // ---- runs ----

  function Initial(now: int, accessTtl: nat, refreshTtl: nat): World {
    World(now, accessTtl, refreshTtl, map[], map[], {}, {}, {})
  }

  ghost predicate IsRun(w: World, run: seq<Op>)
    decreases |run|
  {
    run == [] || (Enabled(w, run[0]) && IsRun(Apply(w, run[0]), run[1..]))
  }

  ghost function Exec(w: World, run: seq<Op>): World
    decreases |run|
  {
    if run == [] then w else Exec(Apply(w, run[0]), run[1..])
  }

  lemma {:induction false} RunKeeps(w: World, run: seq<Op>)
    requires Inv(w) && IsRun(w, run)
    ensures Inv(Exec(w, run))
    decreases |run|
  {
    if run != [] {
      StepKeeps(w, run[0]);
      RunKeeps(Apply(w, run[0]), run[1..]);
    }
  }

  /** A token the middleware lets through speaks for an active account, at the
      level and of the kind the account has right now. */
  lemma AcceptedTokenIsCurrent(w0: World, run: seq<Op>, t: Access, exempt: bool)
    requires w0 == Initial(w0.now, w0.accessTtl, w0.refreshTtl) && IsRun(w0, run)
    requires Accepts(Exec(w0, run), t, exempt)
    ensures var w := Exec(w0, run);
      w.users[t.user].active && t.level == w.users[t.user].level && t.kind == w.users[t.user].kind
  {
    RunKeeps(w0, run);
    assert t in Exec(w0, run).issued;
  }

  // ---- sessions end for good ----

  /** Revoked or expired, a session is never active again. */
  lemma {:induction false} InactiveForGood(w: World, run: seq<Op>, s: SessionId)
    requires IsRun(w, run) && s in w.sessions && !Active(w, s)
    ensures s in Exec(w, run).sessions && !Active(Exec(w, run), s)
    decreases |run|
  {
    if run != [] {
      InactiveForGood(Apply(w, run[0]), run[1..], s);
    }
  }

  // ---- refresh tokens ----

  /** A live session has exactly one refresh token that works, one it was
      handed itself; presenting anything else ends the session. */
  lemma OneUsableRefreshToken(w0: World, run: seq<Op>, s: SessionId) returns (good: Secret)
    requires w0 == Initial(w0.now, w0.accessTtl, w0.refreshTtl) && IsRun(w0, run)
    requires Active(Exec(w0, run), s)
    ensures var w := Exec(w0, run);
      && (s, good) in w.handed
      && (forall token :: Rotates(w, s, token) <==> token == good)
      && (forall token, r :: token != good ==> !Active(Apply(w, Refresh(s, token, r)), s))
  {
    RunKeeps(w0, run);
    good := Exec(w0, run).sessions[s].refresh.secret;
  }

  /** A refresh token that has been rotated away stays spent: whenever it is
      replayed, the session does not survive the attempt. */
  lemma {:induction false} ReplayEndsTheSession(w: World, run: seq<Op>, s: SessionId, token: Secret, r: Secret)
    requires Inv(w) && IsRun(w, run)
    requires s in w.sessions && token in w.minted && w.sessions[s].refresh != HashOf(token)
    ensures !Active(Apply(Exec(w, run), Refresh(s, token, r)), s)
    decreases |run|
  {
    if run != [] {
      StepKeeps(w, run[0]);
      ReplayEndsTheSession(Apply(w, run[0]), run[1..], s, token, r);
    }
  }

  /** In particular the token a refresh has just used, at any later time. */
  lemma RotationSpendsTheToken(w: World, s: SessionId, token: Secret, next: Secret, later: seq<Op>, r: Secret)
    requires Inv(w) && Rotates(w, s, token) && next !in w.minted
    requires IsRun(Apply(w, Refresh(s, token, next)), later)
    ensures !Active(Apply(Exec(Apply(w, Refresh(s, token, next)), later), Refresh(s, token, r)), s)
  {
    var op := Refresh(s, token, next);
    StepKeeps(w, op);
    assert (s, token) in w.handed;
    ReplayEndsTheSession(Apply(w, op), later, s, token, r);
  }
}
