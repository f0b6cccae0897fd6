/** The call service as the program runs it: mutable stores, one statement at
    a time. Every handler takes the step of the same name in CallDomain and keeps
    the invariants, so the theorems over runs are theorems about these methods;
    beside that each says what it means to the users of the call. */
module CallService {
  import opened Common
  import opened CallDomain
  import opened CallSafety
  import opened CallTrace
  import opened CallEndings
  import opened CallNotices

  lemma Handled(w: World, a: Action)
    requires Inv(w) && TraceInv(w) && Enabled(w, a)
    ensures Inv(Step(w, a)) && TraceInv(Step(w, a))
    ensures Step(w, a).trace == w.trace + Notices(w, a)
  {
    StepKeeps(w, a);
    StepTold(w, a);
    PublishesExactly(w, a);
  }

  /** What CreateCall's caller has made sure of. */
  ghost predicate MayRing(st: Store, cs: CallState) {
    && cs.id != 0 && cs.caller != cs.callee && !IsBusy(st, cs.caller) && !IsBusy(st, cs.callee)
    && cs.phase == Ringing && cs.answeredAt == None && cs.startedAt == st.now
  }

  /** What FinalizeRow's callers have made sure of. */
  ghost predicate MayClose(status: Status, answered: Option<Time>, now: Time) {
    && (status == Completed ==> answered.Some?) && (status == Missed ==> answered.None?)
    && (answered.Some? ==> answered.value <= now)
  }

  /** An invite that is not refused leaves a journal row unless the caller is on a
      call: open for a call that rings, missed and ended for one that cannot. */
  ghost predicate Journalled(w: World, w': World, a: Action)
    requires a.DoInvite?
  {
    if IsBusy(w.store, a.actor) then w'.journal == w.journal
    else
      var open := !IsBusy(w.store, a.to) && a.env.reachable;
      w'.journal == w.journal[a.env.logId :=
        LogRow(a.actor, a.to, a.chat, Missed, w.store.now, None, if open then None else Some(w.store.now), 0)]
  }

  lemma InviteDoes(w: World, a: Action)
    requires Inv(w) && a.DoInvite? && Enabled(w, a)
    ensures Refused(a) ==> Step(w, a) == w
    ensures !Refused(a) ==> Journalled(w, Step(w, a), a)
  {
    ReapKeepsStore(w.store, a.actor);
  }

  lemma AcceptedRings(w: World, a: Action)
    requires Inv(w) && a.DoInvite? && Enabled(w, a)
    ensures RingsUnder(w, a, a.call) ==>
      && Get(Step(w, a).store, a.call)
         == Some(CallState(a.call, a.actor, a.to, a.chat, a.env.logId, Ringing, a.sdp, w.store.now, None))
      && IsBusy(Step(w, a).store, a.actor) && IsBusy(Step(w, a).store, a.to)
  {
    if RingsUnder(w, a, a.call) {
      StepKeeps(w, a);
      InviteRings(w, a);
      OnCallIsBusy(Step(w, a).store, a.call, a.actor);
      OnCallIsBusy(Step(w, a).store, a.call, a.to);
    }
  }

  lemma LiveHasParties(st: Store, c: CallId)
    ensures (exists u :: OnCall(st, c, u)) <==> Get(st, c).Some?
  {
    if Get(st, c).Some? {
      assert OnCall(st, c, Get(st, c).value.caller);
    }
  }

  lemma DropLeavesOnlyRinging(w: World, u: User)
    requires Inv(w)
    ensures forall c :: OnCall(HandleDisconnect(w, u).store, c, u) ==> RingingFor(HandleDisconnect(w, u).store, c, u)
  {
    var w' := HandleDisconnect(w, u);
    forall c | OnCall(w'.store, c, u)
      ensures RingingFor(w'.store, c, u)
    {
      var marked := CallIdForUser(w.store, u);
      if marked.Some? {
        DeleteKeepsStore(w.store, marked.value);
      }
      assert OnCall(w.store, c, u) && CallOk(w.store, c);
      DropEnds(w, u, c, Get(w.store, c).value);
    }
  }

  class Service {
    var now: Time
    var calls: map<CallId, Keyed<CallState>>
    var busy: map<User, Keyed<CallId>>
    var journal: map<LogId, LogRow>
    var trace: seq<Sent>
    var timers: set<Timer>
    var crashed: bool

    ghost function St(): Store
      reads this
    {
      Store(now, calls, busy)
    }

    ghost function W(): World
      reads this
    {
      World(St(), journal, trace, timers, crashed)
    }

    /** What every handler keeps. */
    ghost predicate Valid()
      reads this
    {
      Inv(W()) && TraceInv(W())
    }

    constructor (start: Time)
      ensures W() == Initial(start) && Valid()
    {
      now, calls, busy, journal, trace, timers, crashed := start, map[], map[], map[], [], {}, false;
    }

    // ---- the Redis store ----

    method GetCall(c: CallId) returns (found: Option<CallState>)
      ensures found == Get(St(), c)
      ensures StoreInv(St()) && found.Some? ==>
        && found.value.id == c && now < Deadline(found.value)
        && CallIdForUser(St(), found.value.caller) == Some(c) == CallIdForUser(St(), found.value.callee)
    {
      assert StoreInv(St()) && Get(St(), c).Some? ==> CallOk(St(), c);
      if c in calls && now < calls[c].expires {
        return Some(calls[c].value);
      }
      return None;
    }

    method MarkerOf(u: User) returns (marked: Option<CallId>)
      ensures marked == CallIdForUser(St(), u)
      ensures StoreInv(St()) ==> forall c: CallId :: OnCall(St(), c, u) ==> marked == Some(c)
    {
      forall c: CallId | StoreInv(St()) && OnCall(St(), c, u)
        ensures CallIdForUser(St(), u) == Some(c)
      {
        OnCallIsBusy(St(), c, u);
      }
      if u in busy && now < busy[u].expires {
        return Some(busy[u].value);
      }
      return None;
    }

    method CreateCall(cs: CallState)
      modifies this`calls, this`busy
      ensures St() == Create(old(St()), cs)
      ensures StoreInv(old(St())) && MayRing(old(St()), cs) ==>
        && StoreInv(St()) && RingingFor(St(), cs.id, cs.callee) && IsBusy(St(), cs.caller) && IsBusy(St(), cs.callee)
        && forall c :: c != cs.id ==> Get(St(), c) == old(Get(St(), c))
    {
      if StoreInv(St()) && MayRing(St(), cs) {
        CreateKeepsStore(St(), cs);
        OnCallIsBusy(Create(St(), cs), cs.id, cs.caller);
        OnCallIsBusy(Create(St(), cs), cs.id, cs.callee);
      }
      var deadline := now + RINGING_TTL;
      calls := calls[cs.id := Keyed(cs, deadline)];
      busy := busy[cs.caller := Keyed(cs.id, deadline)];
      busy := busy[cs.callee := Keyed(cs.id, deadline)];
    }

    method ExtendMarker(u: User, ttl: Time)
      modifies this`busy
      ensures busy == Extend(old(busy), u, now, ttl)
    {
      if u in busy && now < busy[u].expires {
        busy := busy[u := busy[u].(expires := now + ttl)];
      }
    }

    method MarkCallAnswered(c: CallId)
      modifies this`calls, this`busy
      ensures St() == MarkAnswered(old(St()), c)
      ensures StoreInv(old(St())) && old(Get(St(), c).Some? && Get(St(), c).value.phase == Ringing) ==>
        && StoreInv(St()) && Get(St(), c).Some? && Get(St(), c).value.phase == Connected
        && Deadline(Get(St(), c).value) == now + ANSWERED_TTL
        && forall d :: d != c ==> Get(St(), d) == old(Get(St(), d))
    {
      if StoreInv(St()) && Get(St(), c).Some? && Get(St(), c).value.phase == Ringing {
        AnswerKeepsStore(St(), c);
      }
      var found := GetCall(c);
      if found.Some? {
        var cs := found.value.(phase := Connected, answeredAt := Some(now));
        calls := calls[cs.id := Keyed(cs, now + ANSWERED_TTL)];
        ExtendMarker(cs.caller, ANSWERED_TTL);
        ExtendMarker(cs.callee, ANSWERED_TTL);
      }
    }

    method DeleteCall(c: CallId)
      modifies this`calls, this`busy
      ensures St() == Delete(old(St()), c)
      ensures StoreInv(old(St())) ==>
        && StoreInv(St()) && (forall u :: !OnCall(St(), c, u))
        && forall d, u :: d != c && OnCall(old(St()), d, u) ==> OnCall(St(), d, u) && IsBusy(St(), u)
    {
      if StoreInv(St()) {
        DeleteKeepsStore(St(), c);
        forall d, u | d != c && OnCall(St(), d, u)
          ensures OnCall(Delete(St(), c), d, u) && IsBusy(Delete(St(), c), u)
        {
          OnCallIsBusy(Delete(St(), c), d, u);
        }
      }
      var found := GetCall(c);
      calls := calls - {c};
      if found.Some? {
        busy := busy - {found.value.caller};
        busy := busy - {found.value.callee};
        assert busy == old(busy) - {found.value.caller, found.value.callee};
      }
    }

    /** Answers whether the user is on a live call, reaping an orphan marker. */
    method BusyOnLiveCall(u: User) returns (yes: bool)
      modifies this`busy
      ensures yes == IsBusy(old(St()), u)
      ensures St() == ReapOrphan(old(St()), u)
      ensures StoreInv(old(St())) ==> StoreInv(St()) && (yes <==> exists c :: OnCall(St(), c, u))
    {
      if StoreInv(St()) {
        ReapKeepsStore(St(), u);
        BusyMeansOnCall(St(), ReapOrphan(St(), u), u);
      }
      var marked := MarkerOf(u);
      if marked.None? {
        return false;
      }
      var found := GetCall(marked.value);
      if found.Some? && found.value.Involves(u) {
        return true;
      }
      busy := busy - {u};
      return false;
    }

    // ---- journal and publisher ----

    method FinalizeRow(id: LogId, status: Status, answered: Option<Time>)
      modifies this`journal
      ensures journal == Finalize(old(journal), id, status, answered, now)
      ensures journal.Keys == old(journal).Keys && forall l :: l in journal && l != id ==> journal[l] == old(journal)[l]
      ensures id in journal && MayClose(status, answered, now) ==> RowOk(journal[id])
    {
      var duration := 0;
      if answered.Some? && now - answered.value >= SECOND {
        duration := (now - answered.value) / SECOND;
      }
      if id in journal {
        journal := journal[id := journal[id].(status := status, answeredAt := answered,
                                              endedAt := Some(now), duration := duration)];
      }
    }

    method InstantRow(actor: User, to: User, chat: Uuid, id: LogId)
      modifies this`journal
      ensures W() == LogInstant(old(W()), actor, to, chat, id)
      ensures id in journal && RowOk(journal[id]) && journal[id].endedAt == Some(now)
      ensures forall l :: l in old(journal) && l != id ==> l in journal && journal[l] == old(journal)[l]
    {
      journal := journal[id := LogRow(actor, to, chat, Missed, now, None, None, 0)];
      FinalizeRow(id, Missed, None);
    }

    method Publish(cause: Option<User>, events: seq<Event>)
      modifies this`trace
      ensures W() == Emit(old(W()), cause, events)
    {
      var i := 0;
      while i < |events|
        invariant 0 <= i <= |events|
        invariant trace == Emit(old(W()), cause, events[..i]).trace
      {
        trace := trace + [Sent(cause, events[i])];
        i := i + 1;
      }
      assert events[..i] == events;
    }

    method Close(call: CallId, cs: CallState, status: Status)
      modifies this`journal, this`calls, this`busy
      ensures W() == Finish(old(W()), call, cs, status)
    {
      FinalizeRow(cs.log, status, cs.answeredAt);
      DeleteCall(call);
    }

    // ---- handlers ----

    /** Between two free users, the second reachable, an accepted invite rings. */
    method Invite(actor: User, call: CallId, to: User, chat: Uuid, sdp: string, env: InviteEnv) returns (reply: Reply)
      requires Valid() && env.logId !in journal
      modifies this
      ensures (W(), reply) == OnInvite(old(W()), actor, call, to, chat, sdp, env)
      ensures Valid()
      ensures trace == old(trace) + InviteNotices(old(St()), DoInvite(actor, call, to, chat, sdp, env))
      ensures reply == (if call == 0 || to == 0 || chat == 0 || sdp == "" || to == actor then ErrValidation
                        else if !env.rateOk then ErrRateLimited
                        else if !env.pairInChat || env.blocked then ErrForbidden
                        else Accepted)
      ensures reply != Accepted ==> W() == old(W())
      ensures reply == Accepted ==> Journalled(old(W()), W(), DoInvite(actor, call, to, chat, sdp, env))
      ensures reply == Accepted && env.reachable && !old(IsBusy(St(), actor)) && !old(IsBusy(St(), to)) ==>
        && Get(St(), call) == Some(CallState(call, actor, to, chat, env.logId, Ringing, sdp, now, None))
        && IsBusy(St(), actor) && IsBusy(St(), to)
    {
      Handled(W(), DoInvite(actor, call, to, chat, sdp, env));
      AcceptedRings(W(), DoInvite(actor, call, to, chat, sdp, env));
      InviteDoes(W(), DoInvite(actor, call, to, chat, sdp, env));
      reply := RunInvite(actor, call, to, chat, sdp, env);
    }

    method RunInvite(actor: User, call: CallId, to: User, chat: Uuid, sdp: string, env: InviteEnv) returns (reply: Reply)
      modifies this
      ensures (W(), reply) == OnInvite(old(W()), actor, call, to, chat, sdp, env)
    {
      if call == 0 || to == 0 || chat == 0 || sdp == "" {
        return ErrValidation;
      }
      if to == actor {
        return ErrValidation;
      }
      if !env.rateOk {
        return ErrRateLimited;
      }
      if !env.pairInChat || env.blocked {
        return ErrForbidden;
      }
      var callerBusy := BusyOnLiveCall(actor);
      if callerBusy {
        Publish(Some(actor), [Ended(actor, call, CallerBusy)]);
        return Accepted;
      }
      var calleeBusy := BusyOnLiveCall(to);
      if calleeBusy {
        InstantRow(actor, to, chat, env.logId);
        Publish(Some(actor), [BusyTone(actor, call)]);
        return Accepted;
      }
      if !env.reachable {
        InstantRow(actor, to, chat, env.logId);
        Publish(Some(actor), [TimedOut(actor, call)]);
        return Accepted;
      }
      CreateCall(CallState(call, actor, to, chat, env.logId, Ringing, sdp, now, None));
      journal := journal[env.logId := LogRow(actor, to, chat, Missed, now, None, None, 0)];
      timers := timers + {Timer(call, now + RING_TIMEOUT)};
      Publish(Some(actor), [Incoming(to, call, actor), WakeInvite(to, call)]);
      return Accepted;
    }

    /** Accepted, the actor is on the connected call. */
    method Answer(actor: User, call: CallId, sdp: string) returns (reply: Reply)
      requires Valid()
      modifies this
      ensures (W(), reply) == OnAnswer(old(W()), actor, call, sdp)
      ensures Valid()
      ensures trace == old(trace) + Notices(old(W()), DoAnswer(actor, call, sdp))
      ensures reply == (if call == 0 || sdp == "" then ErrValidation
                        else if old(Get(St(), call)).None? then ErrNotFound
                        else if actor != old(Get(St(), call)).value.callee then ErrForbidden
                        else Accepted)
      ensures reply == Accepted ==> Get(St(), call).Some? && Get(St(), call).value.phase == Connected && IsBusy(St(), actor)
      ensures reply == Accepted && old(Get(St(), call)).value.phase == Ringing ==>
        Get(St(), call).value.answeredAt == Some(now)
    {
      Handled(W(), DoAnswer(actor, call, sdp));
      if call == 0 || sdp == "" {
        return ErrValidation;
      }
      var found := GetCall(call);
      if found.None? {
        return ErrNotFound;
      }
      if found.value.callee != actor {
        return ErrForbidden;
      }
      if found.value.phase != Ringing {
        return Accepted;
      }
      MarkCallAnswered(call);
      Publish(Some(actor), [Answered(found.value.caller, call)]);
      return Accepted;
    }

    method Ice(actor: User, call: CallId, candidate: string) returns (reply: Reply)
      requires Valid()
      modifies this`trace
      ensures (W(), reply) == OnIce(old(W()), actor, call, candidate)
      ensures Valid()
      ensures trace == old(trace) + Notices(old(W()), DoIce(actor, call, candidate))
      ensures reply == (if call == 0 || candidate == "" then ErrValidation
                        else if (exists u :: OnCall(St(), call, u)) && !OnCall(St(), call, actor) then ErrForbidden
                        else Accepted)
    {
      Handled(W(), DoIce(actor, call, candidate));
      LiveHasParties(St(), call);
      if call == 0 || candidate == "" {
        return ErrValidation;
      }
      var found := GetCall(call);
      if found.None? {
        return Accepted;
      }
      if !found.value.Involves(actor) {
        return ErrForbidden;
      }
      Publish(Some(actor), [IceRelay(found.value.Other(actor), call, actor)]);
      return Accepted;
    }

    method Renegotiate(actor: User, call: CallId, kind: SdpKind, sdp: string) returns (reply: Reply)
      requires Valid()
      modifies this`trace
      ensures (W(), reply) == OnRenegotiate(old(W()), actor, call, kind, sdp)
      ensures Valid()
      ensures trace == old(trace) + Notices(old(W()), DoRenegotiate(actor, call, kind, sdp))
      ensures trace != old(trace) ==> OnCall(St(), call, actor) && Get(St(), call).value.answeredAt.Some?
      ensures reply == (if call == 0 || sdp == "" then ErrValidation
                        else if !exists u :: OnCall(St(), call, u) then Accepted
                        else if !OnCall(St(), call, actor) then ErrForbidden
                        else if kind == SdpUnknown then ErrValidation
                        else if trace == old(trace) then ErrForbidden
                        else Accepted)
    {
      Handled(W(), DoRenegotiate(actor, call, kind, sdp));
      LiveHasParties(St(), call);
      if call == 0 || sdp == "" {
        return ErrValidation;
      }
      var found := GetCall(call);
      if found.None? {
        return Accepted;
      }
      var cs := found.value;
      if !cs.Involves(actor) {
        return ErrForbidden;
      }
      var mayDoThis := false;
      match kind {
        case SdpOffer => mayDoThis := actor == cs.caller;
        case SdpAnswer => mayDoThis := actor == cs.callee;
        case SdpUnknown => return ErrValidation;
      }
      if !mayDoThis || cs.phase != Connected {
        return ErrForbidden;
      }
      Publish(Some(actor), [Renegotiated(cs.Other(actor), call, kind)]);
      return Accepted;
    }

    /** Accepted, nothing is live under the id. */
    method Terminate(actor: User, call: CallId, kind: TerminateKind) returns (reply: Reply)
      requires Valid()
      modifies this
      ensures (W(), reply) == OnTerminate(old(W()), actor, call, kind)
      ensures Valid()
      ensures trace == old(trace) + Notices(old(W()), DoTerminate(actor, call, kind))
      ensures reply == Accepted ==> forall u :: !OnCall(St(), call, u)
      ensures reply == (if call == 0 then ErrValidation
                        else if !exists u :: OnCall(old(St()), call, u) then Accepted
                        else if !OnCall(old(St()), call, actor) then ErrForbidden
                        else if kind == Reject && actor != old(Get(St(), call)).value.callee then ErrForbidden
                        else if kind == Cancel && actor != old(Get(St(), call)).value.caller then ErrForbidden
                        else Accepted)
    {
      LiveHasParties(St(), call);
      Handled(W(), DoTerminate(actor, call, kind));
      if call == 0 {
        return ErrValidation;
      }
      var found := GetCall(call);
      if found.None? {
        return Accepted;
      }
      var cs := found.value;
      if !cs.Involves(actor) {
        return ErrForbidden;
      }
      var status;
      match kind {
        case Reject =>
          if cs.callee != actor {
            return ErrForbidden;
          }
          status := RejectedCall;
          Publish(Some(actor), [Rejected(cs.caller, call)]);
        case Cancel =>
          if cs.caller != actor {
            return ErrForbidden;
          }
          status := CanceledCall;
          Publish(Some(actor), [Canceled(cs.callee, call), WakeCancel(cs.callee, call)]);
        case Hangup =>
          status := HangupStatus(cs, actor);
          Publish(Some(actor), [Ended(cs.Other(actor), call, HungUp)]);
      }
      Close(call, cs, status);
      return Accepted;
    }

    method Pending(u: User) returns (found: Option<CallState>)
      ensures found == PendingInvite(St(), u)
      ensures StoreInv(St()) ==> (found.Some? <==> exists c :: RingingFor(St(), c, u))
      ensures StoreInv(St()) ==> forall c :: RingingFor(St(), c, u) ==> found == Get(St(), c)
    {
      if StoreInv(St()) {
        PendingMeansRinging(St(), u);
      }
      var marked := MarkerOf(u);
      if marked.None? {
        return None;
      }
      found := GetCall(marked.value);
      if found.Some? && (found.value.callee != u || found.value.phase != Ringing) {
        return None;
      }
    }

    method RingTimeout(t: Timer)
      requires Valid() && t in timers && t.due <= now
      modifies this
      ensures W() == Step(old(W()), FireTimer(t))
      ensures Valid()
      ensures forall u :: !RingingFor(St(), t.call, u)
      ensures trace == old(trace) + Notices(old(W()), FireTimer(t))
    {
      Handled(W(), FireTimer(t));
      timers := timers - {t};
      var found := GetCall(t.call);
      if found.None? || found.value.phase != Ringing {
        return;
      }
      var cs := found.value;
      Close(t.call, cs, Missed);
      Publish(None, [TimedOut(cs.caller, t.call), TimedOut(cs.callee, t.call), WakeCancel(cs.callee, t.call)]);
    }

    /** All that is left of the user's calls is one still ringing for them. */
    method Disconnect(u: User)
      requires Valid()
      modifies this
      ensures W() == HandleDisconnect(old(W()), u)
      ensures Valid()
      ensures forall c :: OnCall(St(), c, u) ==> RingingFor(St(), c, u)
      ensures trace == old(trace) + Notices(old(W()), DropSocket(u))
    {
      Handled(W(), DropSocket(u));
      DropLeavesOnlyRinging(W(), u);
      var marked := MarkerOf(u);
      if marked.None? {
        return;
      }
      var found := GetCall(marked.value);
      if found.None? || !found.value.Involves(u) {
        busy := busy - {u};
        return;
      }
      var cs := found.value;
      if cs.answeredAt.None? && u != cs.caller {
        return;
      }
      var status := if cs.answeredAt.None? then CanceledCall else Completed;
      Close(marked.value, cs, status);
      Publish(Some(u), [Ended(cs.Other(u), marked.value, PeerDisconnected)]);
    }
  }
}
