/** Call signaling as a function of the stored state: the Redis-backed store,
    the journal, the ring timers and every frame the service publishes.
    Each handler is one atomic step on one clock. */
module CallDomain {
  import opened Common

  type User = Uuid
  type CallId = Uuid
  type LogId = Uuid

  /** time.Time and time.Duration, in nanoseconds. */
  type Time = int

  const SECOND: Time := 1_000_000_000
  const RING_TIMEOUT: Time := 45 * SECOND
  const RINGING_TTL: Time := RING_TIMEOUT + 15 * SECOND
  const ANSWERED_TTL: Time := 2 * 3600 * SECOND

  datatype Phase = Ringing | Connected

  datatype CallState = CallState(
    id: CallId, caller: User, callee: User, chat: Uuid, log: LogId,
    phase: Phase, offer: string, startedAt: Time, answeredAt: Option<Time>)
  {
    predicate Involves(u: User) { caller == u || callee == u }

    function Other(u: User): User { if caller == u then callee else caller }
  }

  // ---- the store ----

  /** A Redis key: its value and the instant its TTL lapses. */
  datatype Keyed<T> = Keyed(value: T, expires: Time)

  datatype Store = Store(
    now: Time,
    calls: map<CallId, Keyed<CallState>>,
    busy: map<User, Keyed<CallId>>)

  function Lookup<T>(m: map<Uuid, Keyed<T>>, k: Uuid, now: Time): Option<T> {
    if k in m && now < m[k].expires then Some(m[k].value) else None
  }

  /** EXPIRE: moves the deadline of a key that is still there. */
  function Extend<T>(m: map<Uuid, Keyed<T>>, k: Uuid, now: Time, ttl: Time): map<Uuid, Keyed<T>> {
    if Lookup(m, k, now).Some? then m[k := m[k].(expires := now + ttl)] else m
  }

  function Get(st: Store, c: CallId): Option<CallState> {
    Lookup(st.calls, c, st.now)
  }

  function CallIdForUser(st: Store, u: User): Option<CallId> {
    Lookup(st.busy, u, st.now)
  }

  function Create(st: Store, cs: CallState): Store {
    var deadline := st.now + RINGING_TTL;
    st.(calls := st.calls[cs.id := Keyed(cs, deadline)],
        busy := st.busy[cs.caller := Keyed(cs.id, deadline)][cs.callee := Keyed(cs.id, deadline)])
  }

  function MarkAnswered(st: Store, c: CallId): Store {
    match Get(st, c)
    case None => st
    case Some(cs) =>
      var cs' := cs.(phase := Connected, answeredAt := Some(st.now));
      st.(calls := st.calls[cs.id := Keyed(cs', st.now + ANSWERED_TTL)],
          busy := Extend(Extend(st.busy, cs.caller, st.now, ANSWERED_TTL), cs.callee, st.now, ANSWERED_TTL))
  }

  function Delete(st: Store, c: CallId): Store {
    match Get(st, c)
    case None => st.(calls := st.calls - {c})
    case Some(cs) => st.(calls := st.calls - {c}, busy := st.busy - {cs.caller, cs.callee})
  }

  function ClearUserBusy(st: Store, u: User): Store {
    st.(busy := st.busy - {u})
  }

  /** busyOnLiveCall: the answer, and the store once an orphan marker is reaped. */
  predicate IsBusy(st: Store, u: User) {
    var marked := CallIdForUser(st, u);
    marked.Some? && Get(st, marked.value).Some? && Get(st, marked.value).value.Involves(u)
  }

  function ReapOrphan(st: Store, u: User): Store {
    if CallIdForUser(st, u).Some? && !IsBusy(st, u) then ClearUserBusy(st, u) else st
  }

  // ---- the journal ----

  datatype Status = Completed | Missed | RejectedCall | CanceledCall

  datatype LogRow = LogRow(
    caller: User, callee: User, chat: Uuid, status: Status, startedAt: Time,
    answeredAt: Option<Time>, endedAt: Option<Time>, duration: int)

  /** int(ended.Sub(answered).Seconds()), kept only when positive. */
  function WholeSeconds(answered: Option<Time>, ended: Time): int {
    if answered.Some? && ended - answered.value >= SECOND then (ended - answered.value) / SECOND else 0
  }

  function Finalize(journal: map<LogId, LogRow>, id: LogId, status: Status,
                    answered: Option<Time>, ended: Time): map<LogId, LogRow> {
    if id in journal then
      journal[id := journal[id].(status := status, answeredAt := answered, endedAt := Some(ended),
                                 duration := WholeSeconds(answered, ended))]
    else journal
  }

  // ---- what is published ----

  datatype SdpKind = SdpOffer | SdpAnswer | SdpUnknown

  datatype EndReason = HungUp | PeerDisconnected | CallerBusy

  datatype Event =
    | Incoming(to: User, call: CallId, from: User)
    | Answered(to: User, call: CallId)
    | IceRelay(to: User, call: CallId, from: User)
    | Renegotiated(to: User, call: CallId, kind: SdpKind)
    | Rejected(to: User, call: CallId)
    | Canceled(to: User, call: CallId)
    | Ended(to: User, call: CallId, reason: EndReason)
    | BusyTone(to: User, call: CallId)
    | TimedOut(to: User, call: CallId)
    | WakeInvite(to: User, call: CallId)
    | WakeCancel(to: User, call: CallId)

  /** One published event and the authenticated user whose frame (or dropped
      socket) caused it; None for the ring timer. */
  datatype Sent = Sent(cause: Option<User>, event: Event)

  datatype Timer = Timer(call: CallId, due: Time)

  /** `crashed` records that the process died at some point and took its
      pending timers with it. */
  datatype World = World(
    store: Store, journal: map<LogId, LogRow>, trace: seq<Sent>, timers: set<Timer>, crashed: bool)

  datatype Reply = Accepted | ErrValidation | ErrForbidden | ErrNotFound | ErrRateLimited

  // ---- handlers ----

  /** What the injected ports answer while an invite is handled, and the id
      uuid.New() would mint for its journal row. */
  datatype InviteEnv = InviteEnv(rateOk: bool, pairInChat: bool, blocked: bool, reachable: bool, logId: LogId)

  function InviteRefusal(actor: User, call: CallId, to: User, chat: Uuid, sdp: string, env: InviteEnv): Reply {
    if call == 0 || to == 0 || chat == 0 || sdp == "" then ErrValidation
    else if to == actor then ErrValidation
    else if !env.rateOk then ErrRateLimited
    else if !env.pairInChat || env.blocked then ErrForbidden
    else Accepted
  }

  function Emit(w: World, cause: Option<User>, events: seq<Event>): World {
    w.(trace := w.trace + seq(|events|, i requires 0 <= i < |events| => Sent(cause, events[i])))
  }

  /** logInstant: a row created and closed in the same breath. */
  function LogInstant(w: World, actor: User, to: User, chat: Uuid, id: LogId): World {
    var row := LogRow(actor, to, chat, Missed, w.store.now, None, None, 0);
    w.(journal := Finalize(w.journal[id := row], id, Missed, None, w.store.now))
  }

  function StartRinging(w: World, actor: User, call: CallId, to: User, chat: Uuid, sdp: string, log: LogId): World {
    var now := w.store.now;
    var cs := CallState(call, actor, to, chat, log, Ringing, sdp, now, None);
    var row := LogRow(actor, to, chat, Missed, now, None, None, 0);
    Emit(w.(store := Create(w.store, cs), journal := w.journal[log := row],
            timers := w.timers + {Timer(call, now + RING_TIMEOUT)}),
         Some(actor), [Incoming(to, call, actor), WakeInvite(to, call)])
  }

  function OnInvite(w: World, actor: User, call: CallId, to: User, chat: Uuid, sdp: string, env: InviteEnv)
    : (World, Reply)
  {
    var refusal := InviteRefusal(actor, call, to, chat, sdp, env);
    if !refusal.Accepted? then (w, refusal)
    else
      var w1 := w.(store := ReapOrphan(w.store, actor));
      if IsBusy(w.store, actor) then (Emit(w1, Some(actor), [Ended(actor, call, CallerBusy)]), Accepted)
      else
        var w2 := w1.(store := ReapOrphan(w1.store, to));
        if IsBusy(w1.store, to) then
          (Emit(LogInstant(w2, actor, to, chat, env.logId), Some(actor), [BusyTone(actor, call)]), Accepted)
        else if !env.reachable then
          (Emit(LogInstant(w2, actor, to, chat, env.logId), Some(actor), [TimedOut(actor, call)]), Accepted)
        else (StartRinging(w2, actor, call, to, chat, sdp, env.logId), Accepted)
  }

  function OnAnswer(w: World, actor: User, call: CallId, sdp: string): (World, Reply) {
    if call == 0 || sdp == "" then (w, ErrValidation)
    else match Get(w.store, call)
      case None => (w, ErrNotFound)
      case Some(cs) =>
        if cs.callee != actor then (w, ErrForbidden)
        else if cs.phase != Ringing then (w, Accepted)
        else (Emit(w.(store := MarkAnswered(w.store, call)), Some(actor), [Answered(cs.caller, call)]), Accepted)
  }

  function OnIce(w: World, actor: User, call: CallId, candidate: string): (World, Reply) {
    if call == 0 || candidate == "" then (w, ErrValidation)
    else match Get(w.store, call)
      case None => (w, Accepted)
      case Some(cs) =>
        if !cs.Involves(actor) then (w, ErrForbidden)
        else (Emit(w, Some(actor), [IceRelay(cs.Other(actor), call, actor)]), Accepted)
  }

  function OnRenegotiate(w: World, actor: User, call: CallId, kind: SdpKind, sdp: string): (World, Reply) {
    if call == 0 || sdp == "" then (w, ErrValidation)
    else match Get(w.store, call)
      case None => (w, Accepted)
      case Some(cs) =>
        if !cs.Involves(actor) then (w, ErrForbidden)
        else if kind == SdpUnknown then (w, ErrValidation)
        else if !(if kind == SdpOffer then actor == cs.caller else actor == cs.callee) || cs.phase != Connected then
          (w, ErrForbidden)
        else (Emit(w, Some(actor), [Renegotiated(cs.Other(actor), call, kind)]), Accepted)
  }

  /** finalize followed by store.Delete. */
  function Finish(w: World, call: CallId, cs: CallState, status: Status): World {
    w.(journal := Finalize(w.journal, cs.log, status, cs.answeredAt, w.store.now),
       store := Delete(w.store, call))
  }

  datatype TerminateKind = Reject | Cancel | Hangup

  function HangupStatus(cs: CallState, actor: User): Status {
    if cs.answeredAt.Some? then Completed else if actor == cs.caller then CanceledCall else RejectedCall
  }

  function OnTerminate(w: World, actor: User, call: CallId, kind: TerminateKind): (World, Reply) {
    if call == 0 then (w, ErrValidation)
    else match Get(w.store, call)
      case None => (w, Accepted)
      case Some(cs) =>
        if !cs.Involves(actor) then (w, ErrForbidden)
        else match kind
          case Reject =>
            if cs.callee != actor then (w, ErrForbidden)
            else (Finish(Emit(w, Some(actor), [Rejected(cs.caller, call)]), call, cs, RejectedCall), Accepted)
          case Cancel =>
            if cs.caller != actor then (w, ErrForbidden)
            else (Finish(Emit(w, Some(actor), [Canceled(cs.callee, call), WakeCancel(cs.callee, call)]), call, cs, CanceledCall),
                  Accepted)
          case Hangup =>
            (Finish(Emit(w, Some(actor), [Ended(cs.Other(actor), call, HungUp)]), call, cs, HangupStatus(cs, actor)), Accepted)
  }

  function PendingInvite(st: Store, u: User): Option<CallState> {
    var marked := CallIdForUser(st, u);
    if marked.None? then None
    else
      var found := Get(st, marked.value);
      if found.None? || found.value.callee != u || found.value.phase != Ringing then None else found
  }

  function OnRingTimeout(w: World, call: CallId): World {
    match Get(w.store, call)
    case None => w
    case Some(cs) =>
      if cs.phase != Ringing then w
      else Emit(Finish(w, call, cs, Missed), None,
                [TimedOut(cs.caller, call), TimedOut(cs.callee, call), WakeCancel(cs.callee, call)])
  }

  function HandleDisconnect(w: World, u: User): World {
    var marked := CallIdForUser(w.store, u);
    if marked.None? then w
    else
      var found := Get(w.store, marked.value);
      if found.None? || !found.value.Involves(u) then w.(store := ClearUserBusy(w.store, u))
      else
        var cs := found.value;
        if cs.answeredAt.None? && u != cs.caller then w
        else
          var status := if cs.answeredAt.None? then CanceledCall else Completed;
          Emit(Finish(w, marked.value, cs, status), Some(u), [Ended(cs.Other(u), marked.value, PeerDisconnected)])
  }

  // ---- runs ----

  datatype Action =
    | DoInvite(actor: User, call: CallId, to: User, chat: Uuid, sdp: string, env: InviteEnv)
    | DoAnswer(actor: User, call: CallId, sdp: string)
    | DoIce(actor: User, call: CallId, candidate: string)
    | DoRenegotiate(actor: User, call: CallId, kind: SdpKind, sdp: string)
    | DoTerminate(actor: User, call: CallId, how: TerminateKind)
    | FireTimer(timer: Timer)
    | DropSocket(user: User)
    | PassTime(d: nat)
    | Crash

  /** Journal ids come from uuid.New(), and a timer fires only once it is due.
      Call ids are whatever the client sent. */
  predicate Enabled(w: World, a: Action) {
    match a
    case DoInvite(_, _, _, _, _, env) => env.logId !in w.journal
    case FireTimer(t) => t in w.timers && t.due <= w.store.now
    case _ => true
  }

  function Step(w: World, a: Action): World {
    match a
    case DoInvite(actor, call, to, chat, sdp, env) => OnInvite(w, actor, call, to, chat, sdp, env).0
    case DoAnswer(actor, call, sdp) => OnAnswer(w, actor, call, sdp).0
    case DoIce(actor, call, candidate) => OnIce(w, actor, call, candidate).0
    case DoRenegotiate(actor, call, kind, sdp) => OnRenegotiate(w, actor, call, kind, sdp).0
    case DoTerminate(actor, call, how) => OnTerminate(w, actor, call, how).0
    case FireTimer(t) => OnRingTimeout(w.(timers := w.timers - {t}), t.call)
    case DropSocket(u) => HandleDisconnect(w, u)
    case PassTime(d) => w.(store := w.store.(now := w.store.now + d))
    case Crash => w.(timers := {}, crashed := true)
  }

  function Initial(now: Time): World {
    World(Store(now, map[], map[]), map[], [], {}, false)
  }

  ghost predicate IsRun(w: World, run: seq<Action>)
    decreases |run|
  {
    run == [] || (Enabled(w, run[0]) && IsRun(Step(w, run[0]), run[1..]))
  }

  ghost function Exec(w: World, run: seq<Action>): World
    decreases |run|
  {
    if run == [] then w else Exec(Step(w, run[0]), run[1..])
  }
}
