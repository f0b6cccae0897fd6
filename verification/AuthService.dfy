/** The authentication and administration services as they change the tables,
    proved against the serial operations of Sessions. */
module AuthService {
  import opened Common
  import opened Sessions

  datatype Reply =
    | Ok | Tokens(access: Access) | ErrInvalidCredentials | ErrInvalidRefresh
    | ErrInvalidRole | ErrSelfMutation | ErrNotFound | ErrNotInvited | ErrLocked | ErrWeakPassword
    | ErrNotAccepted | ErrBadName | ErrTaken | ErrInvalidInvite | ErrClosed

  /** An invitation offered with a sign-up, if any. */
  datatype Invite = NoInvite | BadInvite | UsableInvite

  /** What is known of a sign-up before the account exists: consent given, display
      name well formed, login retired or either name taken, and whether accounts
      without an invitation are open. */
  datatype SignUp = SignUp(consent: bool, named: bool, retired: bool, taken: bool, invite: Invite, open: bool)

  predicate MaySignUp(x: SignUp) {
    x.consent && x.named && !x.retired && !x.taken && !x.invite.BadInvite? && (x.invite.NoInvite? ==> x.open)
  }

  /** No session of another account is touched. */
  ghost predicate SparesOthers(was: map<SessionId, Session>, after: map<SessionId, Session>, u: UserId) {
    was.Keys == after.Keys && forall s :: s in was && was[s].user != u ==> after[s] == was[s]
  }

  /** The middleware's answer to a request. */
  datatype Verdict = Pass | Expired | Invalid | MustChangePassword

  class Service {
    var now: int
    const accessTtl: nat
    const refreshTtl: nat
    var users: map<UserId, User>
    var sessions: map<SessionId, Session>
    ghost var issued: set<Access>
    ghost var minted: set<Secret>
    ghost var handed: set<(SessionId, Secret)>

    ghost function W(): World
      reads this
    {
      World(now, accessTtl, refreshTtl, users, sessions, issued, minted, handed)
    }

    /** What every operation keeps. */
    ghost predicate Valid()
      reads this
    {
      Inv(W())
    }

    constructor (start: int, access: nat, refresh: nat)
      ensures W() == Initial(start, access, refresh) && Valid()
    {
      now, accessTtl, refreshTtl, users, sessions := start, access, refresh, map[], map[];
      issued, minted, handed := {}, {}, {};
    }

    // ---- the session table ----

    method Revoke(s: SessionId)
      modifies this`sessions
      ensures W() == RevokeOne(old(W()), s)
    {
      if s in sessions && !sessions[s].revoked {
        sessions := sessions[s := sessions[s].(revoked := true)];
      }
      assert s in sessions ==> sessions == old(sessions)[s := old(sessions)[s].(revoked := true)];
    }

    method RevokeAllForUserExcept(u: UserId, keep: Option<SessionId>)
      modifies this`sessions
      ensures sessions == RevokeAll(old(sessions), u, keep)
    {
      var left := sessions.Keys;
      while left != {}
        invariant left <= old(sessions).Keys == sessions.Keys
        invariant forall s :: s in left ==> sessions[s] == old(sessions)[s]
        invariant forall s :: s in sessions && s !in left ==> sessions[s] == RevokeAll(old(sessions), u, keep)[s]
        decreases left
      {
        var s :| s in left;
        left := left - {s};
        if sessions[s].user == u && keep != Some(s) {
          sessions := sessions[s := sessions[s].(revoked := true)];
        }
      }
    }

    // ---- the middleware ----

    /** `signed` is whether the token's signature is good, which only the tokens
        ever issued have. */
    method RequireAuth(t: Access, signed: bool, exempt: bool) returns (v: Verdict)
      requires Valid() && (signed <==> t in issued)
      ensures v == Pass <==> Accepts(W(), t, exempt)
      ensures v == Pass <==>
        && signed && now < t.expiresAt && t.session in sessions && !sessions[t.session].revoked
        && now < sessions[t.session].expiresAt && sessions[t.session].user == t.user
        && (users[t.user].mustChange ==> exempt)
      ensures v == Pass ==> users[t.user].active && users[t.user].level == t.level && users[t.user].kind == t.kind
      ensures v == Expired <==> signed && t.expiresAt <= now
      ensures v == MustChangePassword <==> !exempt && Accepts(W(), t, true) && users[t.user].mustChange
    {
      if !signed {
        return Invalid;
      }
      if t.expiresAt <= now {
        return Expired;
      }
      if t.session !in sessions {
        return Invalid;
      }
      var sess := sessions[t.session];
      if sess.revoked || sess.expiresAt <= now || sess.user != t.user {
        return Invalid;
      }
      if users[sess.user].mustChange && !exempt {
        return MustChangePassword;
      }
      return Pass;
    }

    // ---- authentication ----

    method Open(u: UserId, s: SessionId, refresh: Secret) returns (access: Access)
      requires Valid() && u in users && users[u].active && s !in sessions && refresh !in minted
      modifies this`sessions, this`issued, this`minted, this`handed
      ensures W() == OpenSession(old(W()), u, s, refresh) && Valid()
      ensures accessTtl > 0 && refreshTtl > 0 ==> Accepts(W(), access, true)
      ensures refreshTtl > 0 ==> forall t :: Rotates(W(), s, t) <==> t == refresh
      ensures access == Access(u, s, users[u].level, users[u].kind, now + accessTtl)
      ensures s in sessions && sessions[s] == Session(u, HashOf(refresh), now + refreshTtl, false)
      ensures forall x :: x in old(sessions) ==> x in sessions && sessions[x] == old(sessions)[x]
    {
      OpenKeeps(W(), u, s, refresh);
      sessions := sessions[s := Session(u, HashOf(refresh), now + refreshTtl, false)];
      access := Access(u, s, users[u].level, users[u].kind, now + accessTtl);
      issued, minted, handed := issued + {access}, minted + {refresh}, handed + {(s, refresh)};
    }

    /** A bad invitation is refused, never downgraded to an account without one. */
    method DoRegister(x: SignUp, u: UserId, password: Secret, s: SessionId, refresh: Secret) returns (r: Reply)
      requires Valid() && u !in users && s !in sessions && refresh !in minted
      modifies this
      ensures Valid()
      ensures r.Tokens? <==> MaySignUp(x)
      ensures r.Tokens? ==>
        W() == Apply(old(W()), if x.invite.UsableInvite? then RegisterInvited(u, password, s, refresh)
                               else RegisterBasic(u, password, s, refresh))
      ensures !r.Tokens? ==> W() == old(W())
      ensures r.Tokens? ==> r.access.user == u && r.access.session == s
      ensures r.Tokens? ==> r.access.level == if x.invite.UsableInvite? then 10 else 0
      ensures r.Tokens? ==>
        var kind := if x.invite.UsableInvite? then Invited else Basic;
        && u in users && users[u] == User(r.access.level, kind, true, false, HashOf(password))
        && r.access == Access(u, s, users[u].level, kind, now + accessTtl)
        && s in sessions && sessions[s] == Session(u, HashOf(refresh), now + refreshTtl, false)
      ensures r.Tokens? ==> forall v :: v in old(users) ==> v in users && users[v] == old(users)[v]
      ensures r.Tokens? && accessTtl > 0 && refreshTtl > 0 ==> Accepts(W(), r.access, false)
      ensures r == ErrTaken ==> x.consent && x.named
    {
      if !x.consent {
        return ErrNotAccepted;
      }
      if !x.named {
        return ErrBadName;
      }
      if x.retired {
        return ErrTaken;
      }
      if x.invite.NoInvite? && !x.open {
        return ErrClosed;
      }
      if x.invite.BadInvite? {
        return ErrInvalidInvite;
      }
      if x.taken {
        return ErrTaken;
      }
      var invited := x.invite.UsableInvite?;
      var level := if invited then REGISTERED_LEVEL else NO_LEVEL;
      var kind := if invited then Invited else Basic;
      NewUserKeeps(W(), u, User(level, kind, true, false, HashOf(password)));
      users := users[u := User(level, kind, true, false, HashOf(password))];
      var access := Open(u, s, refresh);
      return Tokens(access);
    }

    /** `locked` is what the failure counter said of the name and the source. */
    method DoLogin(u: UserId, password: Secret, locked: bool, s: SessionId, refresh: Secret) returns (r: Reply)
      requires Valid() && s !in sessions && refresh !in minted
      modifies this
      ensures W() == if locked then old(W()) else Apply(old(W()), Login(u, password, s, refresh))
      ensures Valid()
      ensures r.Tokens? <==> !locked && u in users && users[u].active && users[u].password == HashOf(password)
      ensures r.Tokens? ==> r.access == Access(u, s, users[u].level, users[u].kind, now + accessTtl)
      ensures r.Tokens? ==> s in sessions && sessions[s] == Session(u, HashOf(refresh), now + refreshTtl, false)
      ensures !r.Tokens? ==> W() == old(W())
      ensures r.Tokens? && accessTtl > 0 && refreshTtl > 0 ==> Accepts(W(), r.access, true)
    {
      if locked {
        return ErrLocked;
      }
      if u !in users {
        return ErrInvalidCredentials;
      }
      if !users[u].active {
        return ErrInvalidCredentials;
      }
      if HashOf(password) != users[u].password {
        return ErrInvalidCredentials;
      }
      var access := Open(u, s, refresh);
      return Tokens(access);
    }

    /** Rotation, and the end of the session for a token that is not current. */
    method DoRefresh(s: SessionId, token: Secret, next: Secret) returns (r: Reply)
      requires Valid() && next !in minted
      modifies this
      ensures W() == Apply(old(W()), Refresh(s, token, next)) && Valid()
      ensures r.Tokens? <==>
        && s in old(sessions) && !old(sessions)[s].revoked && now < old(sessions)[s].expiresAt
        && old(sessions)[s].refresh == HashOf(token) && users[old(sessions)[s].user].active
      ensures r.Tokens? ==>
        var u := sessions[s].user;
        && sessions[s] == Session(old(sessions)[s].user, HashOf(next), now + refreshTtl, false)
        && r.access == Access(u, s, users[u].level, users[u].kind, now + accessTtl)
      ensures r.Tokens? && accessTtl > 0 && refreshTtl > 0 ==> Accepts(W(), r.access, true)
      ensures r.Tokens? && refreshTtl > 0 ==> forall t :: Rotates(W(), s, t) <==> t == next
      ensures s in old(sessions) && !old(sessions)[s].revoked && now < old(sessions)[s].expiresAt ==>
        s in sessions && (sessions[s].revoked <==> old(sessions)[s].refresh != HashOf(token))
      ensures users == old(users) && forall x :: x in old(sessions) && x != s ==> x in sessions && sessions[x] == old(sessions)[x]
    {
      StepKeeps(W(), Refresh(s, token, next));
      if s !in sessions {
        return ErrInvalidRefresh;
      }
      var sess := sessions[s];
      if sess.revoked || sess.expiresAt <= now {
        return ErrInvalidRefresh;
      }
      if HashOf(token) != sess.refresh {
        Revoke(s);
        return ErrInvalidRefresh;
      }
      if !users[sess.user].active {
        return ErrInvalidRefresh;
      }
      sessions := sessions[s := sess.(refresh := HashOf(next), expiresAt := now + refreshTtl)];
      var access := Access(sess.user, s, users[sess.user].level, users[sess.user].kind, now + accessTtl);
      issued, minted, handed := issued + {access}, minted + {next}, handed + {(s, next)};
      return Tokens(access);
    }

    method DoLogout(u: UserId, s: SessionId)
      requires Valid()
      modifies this
      ensures W() == Apply(old(W()), Logout(u, s)) && Valid() && !Active(W(), s)
      ensures users == old(users) && forall x :: x in old(sessions) && x != s ==> x in sessions && sessions[x] == old(sessions)[x]
    {
      StepKeeps(W(), Logout(u, s));
      Revoke(s);
    }

    method DoLogoutAll(u: UserId)
      requires Valid()
      modifies this
      ensures W() == Apply(old(W()), LogoutAll(u)) && Valid()
      ensures forall s :: s in sessions && sessions[s].user == u ==> !Active(W(), s)
      ensures SparesOthers(old(sessions), sessions, u) && users == old(users)
    {
      StepKeeps(W(), LogoutAll(u));
      RevokeAllForUserExcept(u, None);
    }

    method DoChangePassword(u: UserId, current: SessionId, password: Secret, newPassword: Secret) returns (r: Reply)
      requires Valid()
      modifies this
      ensures W() == Apply(old(W()), ChangePassword(u, current, password, newPassword)) && Valid()
      ensures r == (if u !in old(users) then ErrNotFound
                    else if old(users)[u].password != HashOf(password) then ErrInvalidCredentials else Ok)
      ensures r == Ok ==> users == old(users)[u := old(users)[u].(password := HashOf(newPassword), mustChange := false)]
      ensures r == Ok ==> forall s :: s in sessions && sessions[s].user == u && s != current ==> !Active(W(), s)
      ensures r == Ok && current in old(sessions) ==> current in sessions && sessions[current] == old(sessions)[current]
      ensures SparesOthers(old(sessions), sessions, u)
      ensures r != Ok ==> W() == old(W())
    {
      StepKeeps(W(), ChangePassword(u, current, password, newPassword));
      if u !in users {
        return ErrNotFound;
      }
      if HashOf(password) != users[u].password {
        return ErrInvalidCredentials;
      }
      users := users[u := users[u].(password := HashOf(newPassword), mustChange := false)];
      RevokeAllForUserExcept(u, Some(current));
      return Ok;
    }

    // ---- administration ----

    method DoChangeRole(target: UserId, level: int, actor: UserId) returns (r: Reply)
      requires Valid()
      modifies this
      ensures W() == Apply(old(W()), ChangeRole(target, level, actor)) && Valid()
      ensures r == (if level < 1 || level > 10 then ErrInvalidRole else if target == actor then ErrSelfMutation
                    else if target !in old(users) then ErrNotFound
                    else if old(users)[target].kind != Invited then ErrNotInvited else Ok)
      ensures r == Ok ==> users == old(users)[target := old(users)[target].(level := level)]
      ensures r == Ok ==> forall s :: s in sessions && sessions[s].user == target ==> !Active(W(), s)
      ensures SparesOthers(old(sessions), sessions, target)
      ensures r != Ok ==> W() == old(W())
    {
      StepKeeps(W(), ChangeRole(target, level, actor));
      if level < 1 || level > 10 {
        return ErrInvalidRole;
      }
      if target == actor {
        return ErrSelfMutation;
      }
      if target !in users {
        return ErrNotFound;
      }
      if users[target].kind != Invited {
        return ErrNotInvited;
      }
      users := users[target := users[target].(level := level)];
      RevokeAllForUserExcept(target, None);
      return Ok;
    }

    /** `strong` is what the password rule said. */
    method DoResetPassword(target: UserId, newPassword: Secret, strong: bool) returns (r: Reply)
      requires Valid()
      modifies this
      ensures W() == (if strong then Apply(old(W()), ResetPassword(target, newPassword)) else old(W())) && Valid()
      ensures r == if !strong then ErrWeakPassword else if target !in users then ErrNotFound else Ok
      ensures r == Ok ==>
        users == old(users)[target := old(users)[target].(password := HashOf(newPassword), mustChange := true)]
      ensures SparesOthers(old(sessions), sessions, target)
      ensures r != Ok ==> W() == old(W())
      ensures r == Ok ==> forall s :: s in sessions && sessions[s].user == target ==> !Active(W(), s)
    {
      if !strong {
        return ErrWeakPassword;
      }
      StepKeeps(W(), ResetPassword(target, newPassword));
      if target !in users {
        return ErrNotFound;
      }
      users := users[target := users[target].(password := HashOf(newPassword), mustChange := true)];
      RevokeAllForUserExcept(target, None);
      return Ok;
    }

    method DoSetActive(target: UserId, active: bool, actor: UserId) returns (r: Reply)
      requires Valid()
      modifies this
      ensures W() == Apply(old(W()), SetActive(target, active, actor)) && Valid()
      ensures r == if target == actor then ErrSelfMutation else if target !in old(users) then ErrNotFound else Ok
      ensures r == Ok ==> users == old(users)[target := old(users)[target].(active := active)]
      ensures r == Ok && !active ==> forall s :: s in sessions && sessions[s].user == target ==> !Active(W(), s)
      ensures SparesOthers(old(sessions), sessions, target) && (active ==> sessions == old(sessions))
      ensures r != Ok ==> W() == old(W())
    {
      StepKeeps(W(), SetActive(target, active, actor));
      if target == actor {
        return ErrSelfMutation;
      }
      if target !in users {
        return ErrNotFound;
      }
      users := users[target := users[target].(active := active)];
      if !active {
        RevokeAllForUserExcept(target, None);
      }
      return Ok;
    }
  }
}
