/** What the users see. The trace of published events is read on its own,
    without the store: a call's parties and answers are what the trace said. */
module CallTrace {
  import opened Common
  import opened CallDomain
  import opened CallSafety

  /** A call as told by the events published so far. */
  datatype View = Unseen | Seen(caller: User, callee: User, answers: nat)

  ghost function Observe(v: View, e: Event): View {
    match e
    case Incoming(to, _, from) => Seen(from, to, 0)
    case Answered(_, _) => if v.Seen? then v.(answers := v.answers + 1) else v
    case _ => v
  }

  ghost function ViewOf(trace: seq<Sent>, c: CallId): View
    decreases |trace|
  {
    if trace == [] then Unseen
    else
      var before := ViewOf(trace[..|trace| - 1], c);
      var e := trace[|trace| - 1].event;
      if e.call == c then Observe(before, e) else before
  }

  ghost predicate Between(v: View, a: User, b: User) {
    v.Seen? && ((a == v.caller && b == v.callee) || (a == v.callee && b == v.caller))
  }

  /** May this event be published, given what the trace said about the call?
      Every event goes to a party of the call, or back to the very user whose
      own frame was refused. */
  ghost predicate Legal(v: View, s: Sent) {
    match s.event
    case Incoming(to, _, from) => s.cause == Some(from) && to != from
    case Answered(to, _) => v.Seen? && v.answers == 0 && to == v.caller && s.cause == Some(v.callee)
    case IceRelay(to, _, from) => s.cause == Some(from) && Between(v, from, to)
    case Renegotiated(to, _, kind) =>
      v.Seen? && v.answers == 1 && kind != SdpUnknown
      && (kind == SdpOffer ==> s.cause == Some(v.caller) && to == v.callee)
      && (kind == SdpAnswer ==> s.cause == Some(v.callee) && to == v.caller)
    case Rejected(to, _) => v.Seen? && to == v.caller && s.cause == Some(v.callee)
    case Canceled(to, _) => v.Seen? && to == v.callee && s.cause == Some(v.caller)
    case Ended(to, _, reason) =>
      if reason == CallerBusy then s.cause == Some(to)
      else s.cause.Some? && Between(v, s.cause.value, to)
    case BusyTone(to, _) => s.cause == Some(to)
    case TimedOut(to, _) =>
      if s.cause.Some? then s.cause == Some(to)
      else v.Seen? && v.answers == 0 && (to == v.caller || to == v.callee)
    case WakeInvite(to, _) => v.Seen? && to == v.callee && s.cause == Some(v.caller)
    case WakeCancel(to, _) => v.Seen? && to == v.callee && (s.cause == None || s.cause == Some(v.caller))
  }

  ghost predicate LegalTrace(trace: seq<Sent>)
    decreases |trace|
  {
    trace == []
    || (var n := |trace| - 1;
        LegalTrace(trace[..n]) && Legal(ViewOf(trace[..n], trace[n].event.call), trace[n]))
  }

  // ---- extending a trace ----

  lemma Append(trace: seq<Sent>, s: Sent)
    ensures LegalTrace(trace + [s]) <==> LegalTrace(trace) && Legal(ViewOf(trace, s.event.call), s)
    ensures ViewOf(trace + [s], s.event.call) == Observe(ViewOf(trace, s.event.call), s.event)
    ensures forall c :: c != s.event.call ==> ViewOf(trace + [s], c) == ViewOf(trace, c)
  {
  }

  // ---- the link between store and trace ----

  ghost predicate Told(trace: seq<Sent>, cs: CallState) {
    ViewOf(trace, cs.id) == Seen(cs.caller, cs.callee, if cs.phase == Ringing then 0 else 1)
  }

  ghost predicate TraceInv(w: World) {
    LegalTrace(w.trace) && forall c :: Get(w.store, c).Some? ==> Told(w.trace, Get(w.store, c).value)
  }

  lemma EmitOne(w: World, cause: Option<User>, e: Event)
    ensures Emit(w, cause, [e]).trace == w.trace + [Sent(cause, e)]
  {
  }

  lemma EmitTwo(w: World, cause: Option<User>, d: Event, e: Event)
    ensures Emit(w, cause, [d, e]).trace == w.trace + [Sent(cause, d)] + [Sent(cause, e)]
  {
  }

  lemma EmitThree(w: World, cause: Option<User>, c: Event, d: Event, e: Event)
    ensures Emit(w, cause, [c, d, e]).trace == w.trace + [Sent(cause, c)] + [Sent(cause, d)] + [Sent(cause, e)]
  {
  }

  /** A refused caller is told so; no call is touched. */
  lemma RefusalTold(w: World, w': World, actor: User, e: Event)
    requires TraceInv(w) && w'.trace == w.trace
    requires forall c :: Get(w'.store, c) == Get(w.store, c)
    requires e.to == actor && (e.BusyTone? || e.TimedOut? || (e.Ended? && e.reason == CallerBusy))
    ensures TraceInv(Emit(w', Some(actor), [e]))
  {
  }

  lemma InviteTold(w: World, actor: User, call: CallId, to: User, chat: Uuid, sdp: string, env: InviteEnv)
    requires StoreInv(w.store) && TraceInv(w)
    ensures TraceInv(OnInvite(w, actor, call, to, chat, sdp, env).0)
  {
    if InviteRefusal(actor, call, to, chat, sdp, env).Accepted? {
      ReapKeepsStore(w.store, actor);
      var w1 := w.(store := ReapOrphan(w.store, actor));
      if IsBusy(w.store, actor) {
        RefusalTold(w, w1, actor, Ended(actor, call, CallerBusy));
      } else {
        ReapKeepsStore(w1.store, to);
        var w2 := w1.(store := ReapOrphan(w1.store, to));
        var logged := LogInstant(w2, actor, to, chat, env.logId);
        if IsBusy(w1.store, to) {
          RefusalTold(w, logged, actor, BusyTone(actor, call));
        } else if !env.reachable {
          RefusalTold(w, logged, actor, TimedOut(actor, call));
        } else {
          RingTold(w2, actor, call, to, chat, sdp, env.logId);
        }
      }
    }
  }

  lemma RingTold(w: World, actor: User, call: CallId, to: User, chat: Uuid, sdp: string, log: LogId)
    requires StoreInv(w.store) && TraceInv(w) && actor != to && call != 0
    requires !IsBusy(w.store, actor) && !IsBusy(w.store, to)
    ensures TraceInv(StartRinging(w, actor, call, to, chat, sdp, log))
  {
    var now := w.store.now;
    var cs := CallState(call, actor, to, chat, log, Ringing, sdp, now, None);
    CreateKeepsStore(w.store, cs);
    var row := LogRow(actor, to, chat, Missed, now, None, None, 0);
    EmitTwo(w.(store := Create(w.store, cs), journal := w.journal[log := row],
               timers := w.timers + {Timer(call, now + RING_TIMEOUT)}),
            Some(actor), Incoming(to, call, actor), WakeInvite(to, call));
    var s1 := Sent(Some(actor), Incoming(to, call, actor));
    Append(w.trace, s1);
    Append(w.trace + [s1], Sent(Some(actor), WakeInvite(to, call)));
    var w' := StartRinging(w, actor, call, to, chat, sdp, log);
    forall c | Get(w'.store, c).Some?
      ensures Told(w'.trace, Get(w'.store, c).value)
    {
      if c != call {
        assert CallOk(w.store, c);
      }
    }
  }

  lemma AnswerTold(w: World, actor: User, call: CallId, sdp: string)
    requires Inv(w) && TraceInv(w)
    ensures TraceInv(OnAnswer(w, actor, call, sdp).0)
  {
    if Get(w.store, call).Some? {
      var cs := Get(w.store, call).value;
      assert CallOk(w.store, call);
      if call != 0 && sdp != "" && cs.callee == actor && cs.phase == Ringing {
        AnswerKeepsStore(w.store, call);
        EmitOne(w.(store := MarkAnswered(w.store, call)), Some(actor), Answered(cs.caller, call));
        Append(w.trace, Sent(Some(actor), Answered(cs.caller, call)));
        var w' := OnAnswer(w, actor, call, sdp).0;
        forall c | Get(w'.store, c).Some?
          ensures Told(w'.trace, Get(w'.store, c).value)
        {
          assert CallOk(w'.store, c) by { AnswerKeeps(w, actor, call, sdp); }
        }
      }
    }
  }

  lemma RelayTold(w: World, cs: CallState, actor: User, e: Event)
    requires Inv(w) && TraceInv(w) && Get(w.store, e.call) == Some(cs) && cs.Involves(actor)
    requires e == IceRelay(cs.Other(actor), e.call, actor)
      || (e.Renegotiated? && cs.phase == Connected && e.to == cs.Other(actor)
          && ((e.kind == SdpOffer && actor == cs.caller) || (e.kind == SdpAnswer && actor == cs.callee)))
    ensures TraceInv(Emit(w, Some(actor), [e]))
  {
  }

  lemma FinishTold(w: World, call: CallId, cs: CallState, status: Status)
    requires StoreInv(w.store) && LegalTrace(w.trace)
    requires forall c :: c != call && Get(w.store, c).Some? ==> Told(w.trace, Get(w.store, c).value)
    ensures TraceInv(Finish(w, call, cs, status))
  {
    DeleteKeepsStore(w.store, call);
  }

  /** Closing notices may only concern the call being closed. */
  lemma NoticeTold(w: World, call: CallId, s: Sent)
    requires LegalTrace(w.trace) && Legal(ViewOf(w.trace, call), s) && s.event.call == call
    requires forall c :: c != call && Get(w.store, c).Some? ==> Get(w.store, c).value.id == c
    requires forall c :: c != call && Get(w.store, c).Some? ==> Told(w.trace, Get(w.store, c).value)
    ensures LegalTrace(w.trace + [s])
    ensures forall c :: c != call && Get(w.store, c).Some? ==> Told(w.trace + [s], Get(w.store, c).value)
  {
  }

  lemma CloseTold(w: World, call: CallId, who: Option<User>, e: Event, status: Status)
    requires StoreInv(w.store) && TraceInv(w) && Get(w.store, call).Some?
    requires e.call == call && Legal(ViewOf(w.trace, call), Sent(who, e))
    ensures TraceInv(Finish(Emit(w, who, [e]), call, Get(w.store, call).value, status))
  {
    assert forall c :: Get(w.store, c).Some? ==> CallOk(w.store, c);
    EmitOne(w, who, e);
    NoticeTold(w, call, Sent(who, e));
    FinishTold(Emit(w, who, [e]), call, Get(w.store, call).value, status);
  }

  lemma CancelTold(w: World, call: CallId)
    requires StoreInv(w.store) && TraceInv(w) && Get(w.store, call).Some?
    ensures var cs := Get(w.store, call).value;
      TraceInv(Finish(Emit(w, Some(cs.caller), [Canceled(cs.callee, call), WakeCancel(cs.callee, call)]),
                      call, cs, CanceledCall))
  {
    var cs := Get(w.store, call).value;
    assert forall c :: Get(w.store, c).Some? ==> CallOk(w.store, c);
    assert Told(w.trace, cs);
    var s1, s2 := Sent(Some(cs.caller), Canceled(cs.callee, call)), Sent(Some(cs.caller), WakeCancel(cs.callee, call));
    NoticeTold(w, call, s1);
    Append(w.trace, s1);
    NoticeTold(w.(trace := w.trace + [s1]), call, s2);
    EmitTwo(w, Some(cs.caller), s1.event, s2.event);
    FinishTold(Emit(w, Some(cs.caller), [s1.event, s2.event]), call, cs, CanceledCall);
  }

  lemma TerminateTold(w: World, actor: User, call: CallId, kind: TerminateKind)
    requires Inv(w) && TraceInv(w)
    ensures TraceInv(OnTerminate(w, actor, call, kind).0)
  {
    if Get(w.store, call).Some? && Get(w.store, call).value.Involves(actor) {
      var cs := Get(w.store, call).value;
      assert CallOk(w.store, call) && Told(w.trace, cs);
      match kind
      case Reject =>
        if cs.callee == actor {
          CloseTold(w, call, Some(actor), Rejected(cs.caller, call), RejectedCall);
        }
      case Cancel => CancelTold(w, call);
      case Hangup =>
        CloseTold(w, call, Some(actor), Ended(cs.Other(actor), call, HungUp), HangupStatus(cs, actor));
    }
  }

  /** The three notices of a missed call. */
  lemma MissedTold(w: World, call: CallId, cs: CallState, s1: Sent, s2: Sent, s3: Sent)
    requires StoreInv(w.store) && TraceInv(w) && Get(w.store, call) == Some(cs) && cs.phase == Ringing
    requires s1 == Sent(None, TimedOut(cs.caller, call)) && s2 == Sent(None, TimedOut(cs.callee, call))
    requires s3 == Sent(None, WakeCancel(cs.callee, call))
    ensures LegalTrace(w.trace + [s1] + [s2] + [s3])
    ensures forall c :: c != call && Get(w.store, c).Some? ==> Told(w.trace + [s1] + [s2] + [s3], Get(w.store, c).value)
  {
    assert CallOk(w.store, call) && Told(w.trace, cs);
    assert forall c :: Get(w.store, c).Some? ==> CallOk(w.store, c);
    NoticeTold(w, call, s1);
    Append(w.trace, s1);
    var v1 := w.(trace := w.trace + [s1]);
    NoticeTold(v1, call, s2);
    Append(v1.trace, s2);
    NoticeTold(w.(trace := v1.trace + [s2]), call, s3);
  }

  lemma TimeoutTold(w: World, t: Timer)
    requires Inv(w) && TraceInv(w)
    ensures TraceInv(Step(w, FireTimer(t)))
  {
    var found := Get(w.store, t.call);
    if found.Some? && found.value.phase == Ringing {
      var cs, call := found.value, t.call;
      var s1, s2 := Sent(None, TimedOut(cs.caller, call)), Sent(None, TimedOut(cs.callee, call));
      var s3 := Sent(None, WakeCancel(cs.callee, call));
      MissedTold(w, call, cs, s1, s2, s3);
      FinishTold(w.(trace := w.trace + [s1] + [s2] + [s3]), call, cs, Missed);
      EmitThree(Finish(w.(timers := w.timers - {t}), call, cs, Missed), None, s1.event, s2.event, s3.event);
    }
  }

  lemma DisconnectTold(w: World, u: User)
    requires Inv(w) && TraceInv(w)
    ensures TraceInv(HandleDisconnect(w, u))
  {
    var marked := CallIdForUser(w.store, u);
    if marked.Some? {
      if !IsBusy(w.store, u) {
        ClearKeepsStore(w.store, u);
      } else {
        var call := marked.value;
        var cs := Get(w.store, call).value;
        assert CallOk(w.store, call) && Told(w.trace, cs);
        assert forall c :: Get(w.store, c).Some? ==> CallOk(w.store, c);
        if cs.answeredAt.Some? || u == cs.caller {
          var status := if cs.answeredAt.None? then CanceledCall else Completed;
          var e := Ended(cs.Other(u), call, PeerDisconnected);
          NoticeTold(w, call, Sent(Some(u), e));
          EmitOne(Finish(w, call, cs, status), Some(u), e);
          FinishTold(w.(trace := w.trace + [Sent(Some(u), e)]), call, cs, status);
        }
      }
    }
  }

  lemma StepTold(w: World, a: Action)
    requires Inv(w) && TraceInv(w) && Enabled(w, a)
    ensures TraceInv(Step(w, a))
  {
    match a
    case DoInvite(actor, call, to, chat, sdp, env) => InviteTold(w, actor, call, to, chat, sdp, env);
    case DoAnswer(actor, call, sdp) => AnswerTold(w, actor, call, sdp);
    case DoIce(actor, call, candidate) =>
      if Step(w, a) != w {
        var cs := Get(w.store, call).value;
        RelayTold(w, cs, actor, IceRelay(cs.Other(actor), call, actor));
      }
    case DoRenegotiate(actor, call, kind, sdp) =>
      if Step(w, a) != w {
        var cs := Get(w.store, call).value;
        RelayTold(w, cs, actor, Renegotiated(cs.Other(actor), call, kind));
      }
    case DoTerminate(actor, call, how) => TerminateTold(w, actor, call, how);
    case FireTimer(t) => TimeoutTold(w, t);
    case DropSocket(u) => DisconnectTold(w, u);
    case PassTime(d) =>
      forall c | Get(Step(w, a).store, c).Some?
        ensures Get(w.store, c) == Get(Step(w, a).store, c)
      {
      }
    case Crash =>
  }

  lemma {:induction false} RunTold(w: World, run: seq<Action>)
    requires Inv(w) && TraceInv(w) && IsRun(w, run)
    ensures TraceInv(Exec(w, run))
    decreases |run|
  {
    if run != [] {
      StepTold(w, run[0]);
      StepKeeps(w, run[0]);
      RunTold(Step(w, run[0]), run[1..]);
    }
  }

  /** Every run, whatever call ids the clients choose: only the callee answers,
      once per ring; renegotiation follows the answer and keeps its direction;
      nobody outside the call hears of it. */
  lemma EveryTraceIsLegal(now: Time, run: seq<Action>)
    requires IsRun(Initial(now), run)
    ensures LegalTrace(Exec(Initial(now), run).trace)
  {
    RunTold(Initial(now), run);
  }

  // ---- how often a call is answered ----

  ghost function Answers(trace: seq<Sent>, c: CallId): nat
    decreases |trace|
  {
    if trace == [] then 0
    else
      var n := |trace| - 1;
      Answers(trace[..n], c) + if trace[n].event.call == c && trace[n].event.Answered? then 1 else 0
  }

  ghost function Rings(trace: seq<Sent>, c: CallId): nat
    decreases |trace|
  {
    if trace == [] then 0
    else
      var n := |trace| - 1;
      Rings(trace[..n], c) + if trace[n].event.call == c && trace[n].event.Incoming? then 1 else 0
  }

  lemma {:induction false} OneAnswerPerRing(trace: seq<Sent>, c: CallId)
    requires LegalTrace(trace)
    ensures var v := ViewOf(trace, c);
      && (v.Unseen? ==> Rings(trace, c) == Answers(trace, c) == 0)
      && (v.Seen? ==> v.answers <= 1 && Answers(trace, c) + 1 <= Rings(trace, c) + v.answers)
    decreases |trace|
  {
    if trace != [] {
      OneAnswerPerRing(trace[..|trace| - 1], c);
    }
  }

  /** With call ids that are never reused, a call is answered at most once. */
  lemma AnsweredAtMostOnce(now: Time, run: seq<Action>, c: CallId)
    requires IsRun(Initial(now), run)
    ensures var trace := Exec(Initial(now), run).trace;
      Answers(trace, c) <= Rings(trace, c) && (Rings(trace, c) <= 1 ==> Answers(trace, c) <= 1)
  {
    EveryTraceIsLegal(now, run);
    OneAnswerPerRing(Exec(Initial(now), run).trace, c);
  }

  lemma Unroll(w: World, a: Action, rest: seq<Action>)
    ensures IsRun(w, [a] + rest) <==> Enabled(w, a) && IsRun(Step(w, a), rest)
    ensures Exec(w, [a] + rest) == Exec(Step(w, a), rest)
  {
  }

  lemma CountOne(trace: seq<Sent>, s: Sent, c: CallId)
    ensures Answers(trace + [s], c) == Answers(trace, c) + if s.event.call == c && s.event.Answered? then 1 else 0
    ensures Rings(trace + [s], c) == Rings(trace, c) + if s.event.call == c && s.event.Incoming? then 1 else 0
  {
  }

  lemma HangUpFreesTheId(w: World, c: CallId)
    requires Inv(w) && Get(w.store, c).Some? && c != 0
    ensures var cs := Get(w.store, c).value;
      var w' := Step(w, DoTerminate(cs.caller, c, Hangup));
      && !IsBusy(w'.store, cs.caller) && !IsBusy(w'.store, cs.callee) && w'.journal.Keys == w.journal.Keys
      && Answers(w'.trace, c) == Answers(w.trace, c) && Rings(w'.trace, c) == Rings(w.trace, c)
  {
  }

  lemma InviteRings(w: World, a: Action)
    requires StoreInv(w.store) && a.DoInvite? && Enabled(w, a) && a.env.reachable
    requires InviteRefusal(a.actor, a.call, a.to, a.chat, a.sdp, a.env).Accepted?
    requires !IsBusy(w.store, a.actor) && !IsBusy(w.store, a.to)
    ensures var w' := Step(w, a);
      && Get(w'.store, a.call)
         == Some(CallState(a.call, a.actor, a.to, a.chat, a.env.logId, Ringing, a.sdp, w.store.now, None))
      && Answers(w'.trace, a.call) == Answers(w.trace, a.call)
      && Rings(w'.trace, a.call) == Rings(w.trace, a.call) + 1
  {
    ReapKeepsStore(w.store, a.actor);
    var w1 := w.(store := ReapOrphan(w.store, a.actor));
    ReapKeepsStore(w1.store, a.to);
    var w2 := w1.(store := ReapOrphan(w1.store, a.to));
    var now := w.store.now;
    var cs := CallState(a.call, a.actor, a.to, a.chat, a.env.logId, Ringing, a.sdp, now, None);
    CreateKeepsStore(w2.store, cs);
    var s1, s2 := Sent(Some(a.actor), Incoming(a.to, a.call, a.actor)), Sent(Some(a.actor), WakeInvite(a.to, a.call));
    EmitTwo(w2, Some(a.actor), s1.event, s2.event);
    CountOne(w.trace, s1, a.call);
    CountOne(w.trace + [s1], s2, a.call);
  }

  /** The id comes from the client. From any world, a call that is hung up can
      be rung and answered again under the same id: the count of answers for
      one id is unbounded unless ids are fresh. */
  lemma ReusedIdIsAnsweredAgain(w: World, c: CallId, chat: Uuid, log: LogId) returns (run: seq<Action>)
    requires Inv(w) && Get(w.store, c).Some? && c != 0 && chat != 0 && log !in w.journal
    requires Get(w.store, c).value.callee != 0
    ensures IsRun(w, run)
    ensures Answers(Exec(w, run).trace, c) == Answers(w.trace, c) + 1
    ensures Rings(Exec(w, run).trace, c) == Rings(w.trace, c) + 1
  {
    var cs := Get(w.store, c).value;
    assert CallOk(w.store, c);
    var hangup := DoTerminate(cs.caller, c, Hangup);
    var ring := DoInvite(cs.caller, c, cs.callee, chat, "sdp", InviteEnv(true, true, false, true, log));
    var answer := DoAnswer(cs.callee, c, "sdp");
    HangUpFreesTheId(w, c);
    StepKeeps(w, hangup);
    var w1 := Step(w, hangup);
    InviteRings(w1, ring);
    var w2 := Step(w1, ring);
    Unroll(w2, answer, []);
    Unroll(w1, ring, [answer]);
    Unroll(w, hangup, [ring, answer]);
    assert [ring] + [answer] == [ring, answer];
    run := [hangup] + [ring, answer];
  }
}
