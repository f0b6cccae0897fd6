/** Revocation is committed first and the sockets are kicked second, while a
    handshake authenticates first and registers its socket second. Any number of
    operations and handshakes may be between their two steps. */
module Sockets {
  import opened Common
  import opened Sessions

  type SocketId = Uuid
  type OpId = Uuid

  datatype Kick = KickSession(user: UserId, session: SessionId) | KickUser(user: UserId, keep: Option<SessionId>)

  /** `upgrading` are handshakes that have been authenticated and whose socket is
      not registered yet; `used` are the connection ids ever drawn. */
  datatype Hub = Hub(
    w: World, sockets: map<SocketId, SessionId>, pending: map<OpId, Kick>,
    upgrading: map<SocketId, SessionId>, used: set<SocketId>)

  predicate Covers(w: World, k: Kick, s: SessionId) {
    s in w.sessions && w.sessions[s].user == k.user
    && (match k case KickSession(_, only) => s == only case KickUser(_, keep) => keep != Some(s))
  }

  /** The kick an operation performs once its transaction is in. */
  function KickAfter(w: World, op: Op): Option<Kick> {
    match op
    case Refresh(s, token, _) => if Reused(w, s, token) then Some(KickSession(w.sessions[s].user, s)) else None
    case Logout(u, s) => Some(KickSession(u, s))
    case LogoutAll(u) => Some(KickUser(u, None))
    case ChangePassword(u, current, p, _) =>
      if u in w.users && w.users[u].password == HashOf(p) then Some(KickUser(u, Some(current))) else None
    case ChangeRole(target, level, actor) =>
      if MayChangeRole(w, target, level, actor) then Some(KickUser(target, None)) else None
    case ResetPassword(target, _) => if target in w.users then Some(KickUser(target, None)) else None
    case SetActive(target, active, actor) =>
      if target != actor && target in w.users && !active then Some(KickUser(target, None)) else None
    case _ => None
  }

  /** DoKick is the delivery of the kick; Recheck the socket's own periodic look
      at its session, which keeps the socket when it gets no answer. */
  datatype Step =
    | CommitOp(id: OpId, op: Op)
    | DoKick(id: OpId)
    | Authenticate(socket: SocketId, token: Access)
    | Register(socket: SocketId)
    | Recheck(socket: SocketId, answered: bool)
    | Hangup(socket: SocketId)

  /** Logout is reached through RequireAuth, so it names its own session. */
  ghost predicate MayStep(h: Hub, step: Step) {
    match step
    case CommitOp(id, op) =>
      id !in h.pending && Enabled(h.w, op)
      && (op.Logout? && op.session in h.w.sessions ==> h.w.sessions[op.session].user == op.user)
    case DoKick(id) => id in h.pending
    case Authenticate(socket, token) => socket !in h.used && Accepts(h.w, token, false)
    case Register(socket) => socket in h.upgrading
    case Recheck(_, _) => true
    case Hangup(socket) => true
  }

  ghost function Next(h: Hub, step: Step): Hub
    requires MayStep(h, step)
  {
    match step
    case CommitOp(id, op) =>
      var kick := KickAfter(h.w, op);
      h.(w := Apply(h.w, op), pending := if kick.Some? then h.pending[id := kick.value] else h.pending)
    case DoKick(id) =>
      h.(sockets := map x | x in h.sockets && !Covers(h.w, h.pending[id], h.sockets[x]) :: h.sockets[x],
         pending := h.pending - {id})
    case Authenticate(socket, token) =>
      h.(upgrading := h.upgrading[socket := token.session], used := h.used + {socket})
    case Register(socket) =>
      h.(sockets := h.sockets[socket := h.upgrading[socket]], upgrading := h.upgrading - {socket})
    case Recheck(socket, answered) =>
      if answered && socket in h.sockets && !Active(h.w, h.sockets[socket]) then h.(sockets := h.sockets - {socket}) else h
    case Hangup(socket) => h.(sockets := h.sockets - {socket}, upgrading := h.upgrading - {socket})
  }

  ghost predicate Revoked(w: World, s: SessionId) { s in w.sessions && w.sessions[s].revoked }

  ghost predicate Owed(h: Hub, s: SessionId) { exists id :: id in h.pending && Covers(h.w, h.pending[id], s) }

  /** An operation that revokes a session owes it a kick, and no operation
      moves a session to another account. */
  lemma RevocationIsCovered(w: World, op: Op, s: SessionId)
    requires Enabled(w, op) && s in w.sessions
    requires op.Logout? && op.session in w.sessions ==> w.sessions[op.session].user == op.user
    ensures s in Apply(w, op).sessions && Apply(w, op).sessions[s].user == w.sessions[s].user
    ensures Revoked(w, s) ==> Revoked(Apply(w, op), s)
    ensures Revoked(Apply(w, op), s) && !Revoked(w, s) ==>
      KickAfter(w, op).Some? && Covers(Apply(w, op), KickAfter(w, op).value, s)
  {
  }

  // ---- runs ----

  function Idle(w: World): Hub { Hub(w, map[], map[], map[], {}) }

  /** The hub before and after each step. */
  ghost predicate IsHubRun(hubs: seq<Hub>, steps: seq<Step>) {
    && |hubs| == |steps| + 1 && hubs[0] == Idle(hubs[0].w)
    && forall k {:trigger steps[k]} :: 0 <= k < |steps| ==>
         MayStep(hubs[k], steps[k]) && hubs[k + 1] == Next(hubs[k], steps[k])
  }

  ghost predicate Open(h: Hub, x: SocketId, s: SessionId) { x in h.sockets && h.sockets[x] == s }

  ghost predicate Upgrading(h: Hub, x: SocketId, s: SessionId) { x in h.upgrading && h.upgrading[x] == s }

  /** The step that authenticated x, seen from any later point of its upgrade. */
  lemma {:induction false} AuthenticatedEarlier(hubs: seq<Hub>, steps: seq<Step>, x: SocketId, s: SessionId, k: nat) returns (i: nat)
    requires IsHubRun(hubs, steps) && k < |hubs| && Upgrading(hubs[k], x, s)
    ensures i < k && steps[i].Authenticate? && steps[i].socket == x && steps[i].token.session == s
  {
    i := k - 1;
    if Upgrading(hubs[i], x, s) {
      i := AuthenticatedEarlier(hubs, steps, x, s, k - 1);
    }
  }

  /** The step that registered x, and x open ever since. */
  lemma {:induction false} RegisteredEarlier(hubs: seq<Hub>, steps: seq<Step>, x: SocketId, s: SessionId, k: nat) returns (m: nat)
    requires IsHubRun(hubs, steps) && k < |hubs| && Open(hubs[k], x, s)
    ensures m < k && steps[m] == Register(x) && Upgrading(hubs[m], x, s)
    ensures forall j :: m < j <= k ==> Open(hubs[j], x, s)
  {
    m := k - 1;
    if Open(hubs[m], x, s) && steps[m] != Register(x) {
      m := RegisteredEarlier(hubs, steps, x, s, k - 1);
    }
  }

  lemma {:induction false} SessionsRemain(hubs: seq<Hub>, steps: seq<Step>, s: SessionId, i: nat, k: nat)
    requires IsHubRun(hubs, steps) && i <= k < |hubs| && s in hubs[i].w.sessions
    ensures s in hubs[k].w.sessions && hubs[k].w.sessions[s].user == hubs[i].w.sessions[s].user
    ensures Revoked(hubs[i].w, s) ==> Revoked(hubs[k].w, s)
    decreases k
  {
    if i < k {
      SessionsRemain(hubs, steps, s, i, k - 1);
      if steps[k - 1].CommitOp? {
        RevocationIsCovered(hubs[k - 1].w, steps[k - 1].op, s);
      }
    }
  }

  lemma OnlyCommitsRevoke(h: Hub, step: Step, s: SessionId)
    requires MayStep(h, step) && s in h.w.sessions && !Revoked(h.w, s) && Revoked(Next(h, step).w, s)
    ensures step.CommitOp?
    ensures step.id in Next(h, step).pending && Covers(Next(h, step).w, Next(h, step).pending[step.id], s)
  {
    assert step.CommitOp?;
    RevocationIsCovered(h.w, step.op, s);
  }

  /** The commit that revoked s, between a point where it was live and one where
      it is revoked. */
  lemma {:induction false} RevokedBetween(hubs: seq<Hub>, steps: seq<Step>, s: SessionId, i: nat, k: nat) returns (c: nat)
    requires IsHubRun(hubs, steps) && i <= k < |hubs|
    requires s in hubs[i].w.sessions && !Revoked(hubs[i].w, s) && Revoked(hubs[k].w, s)
    ensures i <= c < k && Revokes(hubs, steps, c, s)
    decreases k
  {
    c := k - 1;
    SessionsRemain(hubs, steps, s, i, c);
    if Revoked(hubs[c].w, s) {
      c := RevokedBetween(hubs, steps, s, i, c);
    } else {
      OnlyCommitsRevoke(hubs[c], steps[c], s);
    }
  }

  /** Step c commits an operation that revokes s, and owes the kick for it. */
  ghost predicate Revokes(hubs: seq<Hub>, steps: seq<Step>, c: nat, s: SessionId)
    requires IsHubRun(hubs, steps)
  {
    && c < |steps| && steps[c].CommitOp? && s in hubs[c].w.sessions && !Revoked(hubs[c].w, s) && Revoked(hubs[c + 1].w, s)
    && steps[c].id in hubs[c + 1].pending && Covers(hubs[c + 1].w, hubs[c + 1].pending[steps[c].id], s)
  }

  /** Step k delivers a kick that covers s. */
  ghost predicate Kicks(hubs: seq<Hub>, steps: seq<Step>, k: nat, s: SessionId)
    requires IsHubRun(hubs, steps)
  {
    k < |steps| && steps[k].DoKick? && Covers(hubs[k].w, hubs[k].pending[steps[k].id], s)
  }

  /** A kick that is owed at one point is owed at a later one or delivered in
      between. */
  lemma {:induction false} OwedOrDelivered(hubs: seq<Hub>, steps: seq<Step>, s: SessionId, id: OpId, c: nat, n: nat) returns (k: nat)
    requires IsHubRun(hubs, steps) && c <= n < |hubs|
    requires id in hubs[c].pending && Covers(hubs[c].w, hubs[c].pending[id], s)
    ensures (id in hubs[n].pending && hubs[n].pending[id] == hubs[c].pending[id] && Covers(hubs[n].w, hubs[n].pending[id], s))
      || (c <= k < n && Kicks(hubs, steps, k, s))
    decreases n
  {
    k := 0;
    if c < n {
      k := OwedOrDelivered(hubs, steps, s, id, c, n - 1);
      if !(c <= k < n - 1 && Kicks(hubs, steps, k, s)) {
        SessionsRemain(hubs, steps, s, n - 1, n);
        if steps[n - 1] == DoKick(id) {
          k := n - 1;
        }
      }
    }
  }

  // ---- the theorem ----

  /** The handshake of x authenticated before the commit that revoked s and
      registered after the kick for it; nothing has closed x since. */
  ghost predicate Slipped(hubs: seq<Hub>, steps: seq<Step>, x: SocketId, s: SessionId)
    requires IsHubRun(hubs, steps)
  {
    exists i: nat, c: nat, k: nat, m: nat :: SlipAt(hubs, steps, x, s, i, c, k, m)
  }

  ghost predicate SlipAt(hubs: seq<Hub>, steps: seq<Step>, x: SocketId, s: SessionId, i: nat, c: nat, k: nat, m: nat)
    requires IsHubRun(hubs, steps)
  {
    && i < c < k < m < |steps|
    && steps[i].Authenticate? && steps[i].socket == x && steps[i].token.session == s
    && Revokes(hubs, steps, c, s) && Kicks(hubs, steps, k, s) && steps[m] == Register(x)
    && LeftAlone(hubs, steps, x, s, m)
  }

  /** After step m, nothing closes x. */
  ghost predicate LeftAlone(hubs: seq<Hub>, steps: seq<Step>, x: SocketId, s: SessionId, m: nat)
    requires IsHubRun(hubs, steps)
  {
    forall j :: m < j < |steps| ==> steps[j] != Hangup(x) && steps[j] != Recheck(x, true) && !Kicks(hubs, steps, j, s)
  }

  lemma {:induction false} UsedRemains(hubs: seq<Hub>, steps: seq<Step>, x: SocketId, i: nat, k: nat)
    requires IsHubRun(hubs, steps) && i <= k < |hubs| && x in hubs[i].used
    ensures x in hubs[k].used
    decreases k
  {
    if i < k {
      UsedRemains(hubs, steps, x, i, k - 1);
      assert hubs[k] == Next(hubs[k - 1], steps[k - 1]);
    }
  }

  lemma SlippedIsOpen(hubs: seq<Hub>, steps: seq<Step>, x: SocketId, s: SessionId, i: nat, m: nat)
    requires IsHubRun(hubs, steps) && i < m < |steps|
    requires steps[i].Authenticate? && steps[i].socket == x && steps[i].token.session == s && steps[m] == Register(x)
    requires LeftAlone(hubs, steps, x, s, m)
    ensures Open(hubs[|steps|], x, s)
  {
    var i' := AuthenticatedEarlier(hubs, steps, x, hubs[m].upgrading[x], m);
    if i < i' {
      UsedRemains(hubs, steps, x, i + 1, i');
    } else if i' < i {
      UsedRemains(hubs, steps, x, i' + 1, i);
    }
    UsedRemains(hubs, steps, x, i + 1, m + 1);
    var j := m + 1;
    while j < |steps|
      invariant m < j <= |steps| && Open(hubs[j], x, s) && x in hubs[j].used && x !in hubs[j].upgrading
    {
      assert hubs[j + 1] == Next(hubs[j], steps[j]);
      j := j + 1;
    }
  }

  /** On every run: an open socket rides on a revoked session with no kick owed
      for it if and only if its handshake slipped between the commit and the
      kick. */
  lemma UnowedExactlyWhenSlipped(hubs: seq<Hub>, steps: seq<Step>, x: SocketId, s: SessionId)
    requires IsHubRun(hubs, steps) && !Owed(hubs[|steps|], s)
    ensures Open(hubs[|steps|], x, s) && Revoked(hubs[|steps|].w, s) <==> Slipped(hubs, steps, x, s)
  {
    if Open(hubs[|steps|], x, s) && Revoked(hubs[|steps|].w, s) {
      UnowedSlipped(hubs, steps, x, s);
    }
    if Slipped(hubs, steps, x, s) {
      SlippedRides(hubs, steps, x, s);
    }
  }

  lemma SlippedRides(hubs: seq<Hub>, steps: seq<Step>, x: SocketId, s: SessionId)
    requires IsHubRun(hubs, steps) && Slipped(hubs, steps, x, s)
    ensures Open(hubs[|steps|], x, s) && Revoked(hubs[|steps|].w, s)
  {
    var i: nat, c: nat, k: nat, m: nat :| SlipAt(hubs, steps, x, s, i, c, k, m);
    SlippedIsOpen(hubs, steps, x, s, i, m);
    SessionsRemain(hubs, steps, s, c + 1, |steps|);
  }

  lemma UnowedSlipped(hubs: seq<Hub>, steps: seq<Step>, x: SocketId, s: SessionId)
    requires IsHubRun(hubs, steps) && !Owed(hubs[|steps|], s)
    requires Open(hubs[|steps|], x, s) && Revoked(hubs[|steps|].w, s)
    ensures Slipped(hubs, steps, x, s)
  {
    var n := |steps|;
    var m := RegisteredEarlier(hubs, steps, x, s, n);
    var i := AuthenticatedEarlier(hubs, steps, x, s, m);
    assert Active(hubs[i].w, s);
    var c := RevokedBetween(hubs, steps, s, i, n);
    var k := OwedOrDelivered(hubs, steps, s, steps[c].id, c + 1, n);
    KickBeforeRegister(hubs, steps, x, s, c, k, m);
    assert SlipAt(hubs, steps, x, s, i, c, k, m);
  }

  /** A socket that stays open past the kick was registered after it, and has
      not rechecked its session since. */
  lemma KickBeforeRegister(hubs: seq<Hub>, steps: seq<Step>, x: SocketId, s: SessionId, c: nat, k: nat, m: nat)
    requires IsHubRun(hubs, steps) && m < |steps| && steps[m] == Register(x)
    requires forall j :: m < j <= |steps| ==> Open(hubs[j], x, s)
    requires Revokes(hubs, steps, c, s) && c < k && Kicks(hubs, steps, k, s)
    ensures k < m && LeftAlone(hubs, steps, x, s, m)
  {
    forall j | m < j < |steps|
      ensures steps[j] != Hangup(x) && !Kicks(hubs, steps, j, s)
    {
      assert Open(hubs[j], x, s) && Open(hubs[j + 1], x, s);
    }
    forall j | m < j < |steps|
      ensures steps[j] != Recheck(x, true)
    {
      assert Open(hubs[j], x, s) && Open(hubs[j + 1], x, s);
      SessionsRemain(hubs, steps, s, c + 1, j);
    }
  }

  /** So where every handshake registers before the next operation commits, no
      socket rides on a revoked session once the kicks are delivered. */
  lemma NoSocketOnRevokedSession(hubs: seq<Hub>, steps: seq<Step>, x: SocketId)
    requires IsHubRun(hubs, steps) && hubs[|steps|].pending == map[] && x in hubs[|steps|].sockets
    requires forall c :: 0 <= c < |steps| && steps[c].CommitOp? ==> hubs[c].upgrading == map[]
    ensures !Revoked(hubs[|steps|].w, hubs[|steps|].sockets[x])
  {
    var s, n := hubs[|steps|].sockets[x], |steps|;
    if Revoked(hubs[n].w, s) {
      UnowedSlipped(hubs, steps, x, s);
      var i: nat, c: nat, k: nat, m: nat :| SlipAt(hubs, steps, x, s, i, c, k, m);
      StillUpgrading(hubs, steps, x, s, i, m, c);
    }
  }

  lemma {:induction false} StillUpgrading(hubs: seq<Hub>, steps: seq<Step>, x: SocketId, s: SessionId, i: nat, m: nat, c: nat)
    requires IsHubRun(hubs, steps) && i < c <= m < |steps| && steps[m] == Register(x)
    requires steps[i].Authenticate? && steps[i].socket == x
    ensures x in hubs[c].upgrading
    decreases m - c
  {
    if c < m {
      StillUpgrading(hubs, steps, x, s, i, m, c + 1);
      UsedRemains(hubs, steps, x, i + 1, c);
      assert hubs[c + 1] == Next(hubs[c], steps[c]);
    }
  }

  /** A re-check that gets its answer ends what the kick missed: no socket that
      was open on a revoked session when it looked is open at any later time. */
  lemma {:induction false} RecheckedStaysClosed(hubs: seq<Hub>, steps: seq<Step>, x: SocketId, s: SessionId, j: nat, n: nat)
    requires IsHubRun(hubs, steps) && j < |steps| && steps[j] == Recheck(x, true) && j < n < |hubs|
    requires Open(hubs[j], x, s) && Revoked(hubs[j].w, s)
    ensures x !in hubs[n].sockets && x !in hubs[n].upgrading && x in hubs[n].used
    decreases n
  {
    if n == j + 1 {
      OpenIsUsed(hubs, steps, x, j);
      assert hubs[n] == Next(hubs[j], steps[j]);
    } else {
      RecheckedStaysClosed(hubs, steps, x, s, j, n - 1);
      assert hubs[n] == Next(hubs[n - 1], steps[n - 1]);
    }
  }

  lemma {:induction false} OpenIsUsed(hubs: seq<Hub>, steps: seq<Step>, x: SocketId, j: nat)
    requires IsHubRun(hubs, steps) && j < |hubs|
    ensures x in hubs[j].sockets ==> x in hubs[j].used && x !in hubs[j].upgrading
    ensures x in hubs[j].upgrading ==> x in hubs[j].used
  {
    if j > 0 {
      OpenIsUsed(hubs, steps, x, j - 1);
      assert hubs[j] == Next(hubs[j - 1], steps[j - 1]);
    }
  }

  /** A delivered kick closes every socket of the sessions it covers, and any
      that opens on one of them later had been authenticated by then. */
  lemma {:induction false} LaterSocketsWereUpgrading(hubs: seq<Hub>, steps: seq<Step>, s: SessionId, k: nat, n: nat, x: SocketId)
    requires IsHubRun(hubs, steps) && Kicks(hubs, steps, k, s) && Revoked(hubs[k].w, s) && k < n < |hubs|
    requires Open(hubs[n], x, s) || Upgrading(hubs[n], x, s)
    ensures Upgrading(hubs[k], x, s)
    decreases n
  {
    SessionsRemain(hubs, steps, s, k, n - 1);
    NoNewcomers(hubs[n - 1], steps[n - 1], x, s);
    if k + 1 < n {
      LaterSocketsWereUpgrading(hubs, steps, s, k, n - 1, x);
    }
  }

  lemma NoNewcomers(h: Hub, step: Step, x: SocketId, s: SessionId)
    requires MayStep(h, step) && Revoked(h.w, s) && (Open(Next(h, step), x, s) || Upgrading(Next(h, step), x, s))
    ensures Open(h, x, s) || Upgrading(h, x, s)
    ensures step.DoKick? && Covers(h.w, h.pending[step.id], s) ==> Upgrading(h, x, s)
  {
  }

  // ---- whom a kick hits ----

  /** The commit a kick comes from. */
  lemma {:induction false} KickCameFrom(hubs: seq<Hub>, steps: seq<Step>, id: OpId, k: nat) returns (c: nat)
    requires IsHubRun(hubs, steps) && k < |hubs| && id in hubs[k].pending
    ensures c < k && Owes(hubs, steps, c, id, hubs[k].pending[id])
  {
    c := k - 1;
    assert hubs[k] == Next(hubs[c], steps[c]);
    if id in hubs[c].pending {
      c := KickCameFrom(hubs, steps, id, c);
    }
  }

  /** Step c commits the operation that owes this kick. */
  ghost predicate Owes(hubs: seq<Hub>, steps: seq<Step>, c: nat, id: OpId, kick: Kick)
    requires IsHubRun(hubs, steps)
  {
    c < |steps| && steps[c].CommitOp? && steps[c].id == id && KickAfter(hubs[c].w, steps[c].op) == Some(kick)
  }

  /** At its commit, a kick covers revoked sessions and no others. */
  lemma KickCoversOnlyRevoked(w: World, op: Op, s: SessionId)
    requires Enabled(w, op) && KickAfter(w, op).Some? && Covers(Apply(w, op), KickAfter(w, op).value, s)
    ensures s in w.sessions && Revoked(Apply(w, op), s)
  {
  }

  /** The step that opened s, unrevoked. */
  lemma {:induction false} OpenedBetween(hubs: seq<Hub>, steps: seq<Step>, s: SessionId, i: nat, k: nat) returns (o: nat)
    requires IsHubRun(hubs, steps) && i <= k < |hubs| && s !in hubs[i].w.sessions && s in hubs[k].w.sessions
    ensures i < o <= k && s in hubs[o].w.sessions && !Revoked(hubs[o].w, s)
    decreases k
  {
    o := k;
    assert hubs[k] == Next(hubs[k - 1], steps[k - 1]);
    if s in hubs[k - 1].w.sessions {
      o := OpenedBetween(hubs, steps, s, i, k - 1);
    }
  }

  /** The kick is aimed when it is delivered, not when it is committed. On every
      run a kick ends the sockets of a session that is not revoked if and only if
      the session was opened after the commit the kick is for, and no operation
      has revoked it since. */
  lemma KickHitsLiveIff(hubs: seq<Hub>, steps: seq<Step>, s: SessionId, k: nat) returns (c: nat)
    requires IsHubRun(hubs, steps) && Kicks(hubs, steps, k, s)
    ensures c < k && Owes(hubs, steps, c, steps[k].id, hubs[k].pending[steps[k].id])
    ensures !Revoked(hubs[k].w, s) <==>
      s !in hubs[c].w.sessions && forall j :: c < j < k ==> !Revokes(hubs, steps, j, s)
  {
    c := KickCameFrom(hubs, steps, steps[k].id, k);
    assert hubs[c + 1] == Next(hubs[c], steps[c]);
    if s in hubs[c].w.sessions {
      KnownIsRevoked(hubs, steps, s, c, k);
    } else if Revoked(hubs[k].w, s) {
      var o := OpenedBetween(hubs, steps, s, c, k);
      var j := RevokedBetween(hubs, steps, s, o, k);
    } else {
      forall j | c < j < k
        ensures !Revokes(hubs, steps, j, s)
      {
        if Revokes(hubs, steps, j, s) {
          SessionsRemain(hubs, steps, s, j + 1, k);
        }
      }
    }
  }

  lemma KnownIsRevoked(hubs: seq<Hub>, steps: seq<Step>, s: SessionId, c: nat, k: nat)
    requires IsHubRun(hubs, steps) && Kicks(hubs, steps, k, s) && c < k && s in hubs[c].w.sessions
    requires Owes(hubs, steps, c, steps[k].id, hubs[k].pending[steps[k].id])
    ensures Revoked(hubs[k].w, s)
  {
    assert hubs[c + 1] == Next(hubs[c], steps[c]);
    SessionsRemain(hubs, steps, s, c, c + 1);
    SessionsRemain(hubs, steps, s, c + 1, k);
    KickCoversOnlyRevoked(hubs[c].w, steps[c].op, s);
  }

  /** It happens: signed out everywhere, signed in again, and kicked after all. */
  lemma LiveSocketIsKicked(w: World, u: UserId, p: Secret, s: SessionId, r: Secret, x: SocketId, id: OpId, other: OpId)
    returns (hubs: seq<Hub>, steps: seq<Step>)
    requires Enabled(w, Login(u, p, s, r)) && u in w.users && w.users[u].active && w.users[u].password == HashOf(p)
    requires !w.users[u].mustChange && w.accessTtl > 0 && w.refreshTtl > 0 && id != other
    ensures IsHubRun(hubs, steps) && hubs[0] == Idle(w)
    ensures var n := |steps| - 1;
      && n > 0 && Open(hubs[n], x, s) && Active(hubs[n].w, s)
      && x !in hubs[n + 1].sockets && Active(hubs[n + 1].w, s)
  {
    var logout, login := LogoutAll(u), Login(u, p, s, r);
    var w1 := Apply(w, logout);
    var token := IssueAccess(w1, u, s);
    steps := [CommitOp(id, logout), CommitOp(other, login), Authenticate(x, token), Register(x), DoKick(id)];
    var h0 := Idle(w);
    var h1 := Next(h0, steps[0]);
    var h2 := Next(h1, steps[1]);
    var h3 := Next(h2, steps[2]);
    var h4 := Next(h3, steps[3]);
    hubs := [h0, h1, h2, h3, h4, Next(h4, steps[4])];
  }

  /** The slip happens: authenticated, revoked, kicked, registered. */
  lemma SlipHappens(w: World, x: SocketId, token: Access, id: OpId) returns (hubs: seq<Hub>, steps: seq<Step>)
    requires Accepts(w, token, false)
    ensures IsHubRun(hubs, steps) && hubs[0] == Idle(w) && Slipped(hubs, steps, x, token.session)
  {
    var s, logout := token.session, Logout(token.user, token.session);
    steps := [Authenticate(x, token), CommitOp(id, logout), DoKick(id), Register(x)];
    var h0 := Idle(w);
    var h1 := Next(h0, steps[0]);
    var h2 := Next(h1, steps[1]);
    var h3 := Next(h2, steps[2]);
    hubs := [h0, h1, h2, h3, Next(h3, steps[3])];
    assert SlipAt(hubs, steps, x, s, 0, 1, 2, 3);
  }
}
