/** What every timed run of call signaling keeps: the busy index agrees with
    a scan of the live calls, rings end in time, and journal rows close once. */
module CallSafety {
  import opened Common
  import opened CallDomain

  ghost predicate OnCall(st: Store, c: CallId, u: User) {
    Get(st, c).Some? && Get(st, c).value.Involves(u)
  }

  // ---- the store invariant ----

  ghost predicate Marked(st: Store, u: User, c: CallId, until: Time) {
    u in st.busy && st.busy[u] == Keyed(c, until)
  }

  ghost predicate CallOk(st: Store, c: CallId)
    requires Get(st, c).Some?
  {
    var Keyed(cs, expires) := st.calls[c];
    && cs.id == c != 0
    && cs.caller != cs.callee
    && Marked(st, cs.caller, c, expires)
    && Marked(st, cs.callee, c, expires)
    && (cs.phase == Ringing <==> cs.answeredAt.None?)
    && cs.startedAt <= st.now
    && (cs.answeredAt.None? ==> expires == cs.startedAt + RINGING_TTL)
    && (cs.answeredAt.Some? ==> cs.startedAt <= cs.answeredAt.value <= st.now
                                && expires == cs.answeredAt.value + ANSWERED_TTL)
  }

  ghost predicate StoreInv(st: Store) {
    forall c :: Get(st, c).Some? ==> CallOk(st, c)
  }

  lemma OnCallIsBusy(st: Store, c: CallId, u: User)
    requires StoreInv(st) && OnCall(st, c, u)
    ensures CallIdForUser(st, u) == Some(c) && IsBusy(st, u)
  {
  }

  lemma BusyMeansOnCall(st: Store, st': Store, u: User)
    requires StoreInv(st) && forall c :: Get(st', c) == Get(st, c)
    ensures IsBusy(st, u) <==> exists c :: OnCall(st', c, u)
  {
    if c :| OnCall(st', c, u) {
      assert OnCall(st, c, u);
      OnCallIsBusy(st, c, u);
    }
    if IsBusy(st, u) {
      assert OnCall(st', CallIdForUser(st, u).value, u);
    }
  }

  ghost predicate RingingFor(st: Store, c: CallId, u: User) {
    Get(st, c).Some? && Get(st, c).value.callee == u && Get(st, c).value.phase == Ringing
  }

  lemma PendingMeansRinging(st: Store, u: User)
    requires StoreInv(st)
    ensures PendingInvite(st, u).Some? <==> exists c :: RingingFor(st, c, u)
    ensures forall c :: RingingFor(st, c, u) ==> PendingInvite(st, u) == Get(st, c)
  {
    forall c | RingingFor(st, c, u)
      ensures PendingInvite(st, u) == Get(st, c)
    {
      OnCallIsBusy(st, c, u);
    }
    if PendingInvite(st, u).Some? {
      assert RingingFor(st, CallIdForUser(st, u).value, u);
    }
  }

  lemma ReapKeepsStore(st: Store, u: User)
    requires StoreInv(st)
    ensures StoreInv(ReapOrphan(st, u))
    ensures forall c :: Get(ReapOrphan(st, u), c) == Get(st, c)
    ensures forall v :: IsBusy(ReapOrphan(st, u), v) == IsBusy(st, v)
  {
    var st' := ReapOrphan(st, u);
    forall c | Get(st', c).Some?
      ensures CallOk(st', c)
    {
      assert CallOk(st, c);
      if st' != st && Get(st, c).value.Involves(u) {
        OnCallIsBusy(st, c, u);
      }
    }
  }

  lemma CreateKeepsStore(st: Store, cs: CallState)
    requires StoreInv(st)
    requires cs.id != 0 && cs.caller != cs.callee && !IsBusy(st, cs.caller) && !IsBusy(st, cs.callee)
    requires cs.phase == Ringing && cs.answeredAt == None && cs.startedAt == st.now
    ensures StoreInv(Create(st, cs))
    ensures Get(Create(st, cs), cs.id) == Some(cs)
    ensures forall c :: c != cs.id ==> Get(Create(st, cs), c) == Get(st, c)
  {
    var st' := Create(st, cs);
    forall c | Get(st', c).Some?
      ensures CallOk(st', c)
    {
      if c != cs.id {
        assert CallOk(st, c);
        if Get(st, c).value.Involves(cs.caller) { OnCallIsBusy(st, c, cs.caller); }
        if Get(st, c).value.Involves(cs.callee) { OnCallIsBusy(st, c, cs.callee); }
      }
    }
  }

  lemma AnswerKeepsStore(st: Store, c: CallId)
    requires StoreInv(st)
    requires Get(st, c).Some? && Get(st, c).value.phase == Ringing
    ensures StoreInv(MarkAnswered(st, c))
    ensures Get(MarkAnswered(st, c), c) == Some(Get(st, c).value.(phase := Connected, answeredAt := Some(st.now)))
    ensures forall d :: d != c ==> Get(MarkAnswered(st, c), d) == Get(st, d)
  {
    var st' := MarkAnswered(st, c);
    var cs := Get(st, c).value;
    assert CallOk(st, c);
    forall d | Get(st', d).Some?
      ensures CallOk(st', d)
    {
      if d != c {
        assert CallOk(st, d);
        if Get(st, d).value.Involves(cs.caller) { OnCallIsBusy(st, d, cs.caller); }
        if Get(st, d).value.Involves(cs.callee) { OnCallIsBusy(st, d, cs.callee); }
      }
    }
  }

  lemma DeleteKeepsStore(st: Store, c: CallId)
    requires StoreInv(st)
    ensures StoreInv(Delete(st, c))
    ensures Get(Delete(st, c), c) == None
    ensures forall d :: d != c ==> Get(Delete(st, c), d) == Get(st, d)
  {
    var st' := Delete(st, c);
    forall d | Get(st', d).Some?
      ensures CallOk(st', d)
    {
      assert CallOk(st, d);
      if Get(st, c).Some? {
        var cs := Get(st, c).value;
        if Get(st, d).value.Involves(cs.caller) { OnCallIsBusy(st, d, cs.caller); OnCallIsBusy(st, c, cs.caller); }
        if Get(st, d).value.Involves(cs.callee) { OnCallIsBusy(st, d, cs.callee); OnCallIsBusy(st, c, cs.callee); }
      }
    }
  }

  lemma ClearKeepsStore(st: Store, u: User)
    requires StoreInv(st) && !IsBusy(st, u)
    ensures StoreInv(ClearUserBusy(st, u))
    ensures forall c :: Get(ClearUserBusy(st, u), c) == Get(st, c)
  {
    forall c | Get(ClearUserBusy(st, u), c).Some?
      ensures CallOk(ClearUserBusy(st, u), c)
    {
      assert CallOk(st, c);
      if Get(st, c).value.Involves(u) { OnCallIsBusy(st, c, u); }
    }
  }

  // ---- the journal invariant ----

  /** An ended row tells the truth about the call: completed means answered,
      missed means not, and the duration is the whole seconds in between. */
  ghost predicate RowOk(row: LogRow) {
    && row.duration >= 0
    && (row.endedAt.None? ==> row.answeredAt.None? && row.duration == 0)
    && (row.endedAt.Some? && row.status == Completed ==> row.answeredAt.Some?)
    && (row.endedAt.Some? && row.status == Missed ==> row.answeredAt.None?)
    && (row.answeredAt.None? ==> row.duration == 0)
    && (row.answeredAt.Some? ==>
          row.endedAt.Some? &&
          row.duration * SECOND <= row.endedAt.value - row.answeredAt.value < (row.duration + 1) * SECOND)
  }

  ghost predicate OpenRow(w: World, cs: CallState) {
    cs.log in w.journal && w.journal[cs.log].endedAt.None?
    && w.journal[cs.log].caller == cs.caller && w.journal[cs.log].callee == cs.callee
  }

  ghost predicate JournalInv(w: World) {
    && (forall c :: Get(w.store, c).Some? ==> OpenRow(w, Get(w.store, c).value))
    && (forall c, d :: c != d && Get(w.store, c).Some? && Get(w.store, d).Some? ==>
          Get(w.store, c).value.log != Get(w.store, d).value.log)
    && (forall l :: l in w.journal ==> RowOk(w.journal[l]))
  }

  // ---- the timers ----

  ghost predicate TimerInv(w: World) {
    !w.crashed ==>
      forall c :: Get(w.store, c).Some? && Get(w.store, c).value.phase == Ringing ==>
        Timer(c, Get(w.store, c).value.startedAt + RING_TIMEOUT) in w.timers
  }

  ghost predicate Inv(w: World) {
    StoreInv(w.store) && JournalInv(w) && TimerInv(w)
  }

  /** What is published is no part of the invariant. */
  lemma EmitKeeps(w: World, cause: Option<User>, events: seq<Event>)
    requires Inv(w)
    ensures Inv(Emit(w, cause, events))
  {
  }

  lemma LogInstantKeeps(w: World, actor: User, to: User, chat: Uuid, id: LogId)
    requires Inv(w) && id !in w.journal
    ensures Inv(LogInstant(w, actor, to, chat, id))
  {
  }

  /** A call added under a fresh journal row, with its timer. */
  lemma AddedCallKeeps(w: World, w': World, cs: CallState)
    requires JournalInv(w) && TimerInv(w) && cs.log !in w.journal
    requires forall c :: c != cs.id ==> Get(w'.store, c) == Get(w.store, c)
    requires Get(w'.store, cs.id) == Some(cs)
    requires w'.journal == w.journal[cs.log := LogRow(cs.caller, cs.callee, cs.chat, Missed, cs.startedAt, None, None, 0)]
    requires w'.timers == w.timers + {Timer(cs.id, cs.startedAt + RING_TIMEOUT)} && w'.crashed == w.crashed
    ensures JournalInv(w') && TimerInv(w')
  {
  }

  lemma StartRingingKeeps(w: World, actor: User, call: CallId, to: User, chat: Uuid, sdp: string, log: LogId)
    requires Inv(w) && log !in w.journal && actor != to && call != 0
    requires !IsBusy(w.store, actor) && !IsBusy(w.store, to)
    ensures Inv(StartRinging(w, actor, call, to, chat, sdp, log))
  {
    var cs := CallState(call, actor, to, chat, log, Ringing, sdp, w.store.now, None);
    CreateKeepsStore(w.store, cs);
    AddedCallKeeps(w, StartRinging(w, actor, call, to, chat, sdp, log), cs);
  }

  lemma FinishKeeps(w: World, call: CallId, status: Status)
    requires Inv(w) && Get(w.store, call).Some?
    requires var cs := Get(w.store, call).value;
      (status == Completed ==> cs.answeredAt.Some?) && (status == Missed ==> cs.answeredAt.None?)
    ensures Inv(Finish(w, call, Get(w.store, call).value, status))
  {
    DeleteKeepsStore(w.store, call);
    assert CallOk(w.store, call);
  }

  lemma ReapKeeps(w: World, u: User)
    requires Inv(w)
    ensures Inv(w.(store := ReapOrphan(w.store, u)))
    ensures forall v :: IsBusy(ReapOrphan(w.store, u), v) == IsBusy(w.store, v)
  {
    ReapKeepsStore(w.store, u);
  }

  lemma InviteKeeps(w: World, actor: User, call: CallId, to: User, chat: Uuid, sdp: string, env: InviteEnv)
    requires Inv(w) && env.logId !in w.journal
    ensures Inv(OnInvite(w, actor, call, to, chat, sdp, env).0)
  {
    if InviteRefusal(actor, call, to, chat, sdp, env).Accepted? {
      var w1 := w.(store := ReapOrphan(w.store, actor));
      ReapKeeps(w, actor);
      if IsBusy(w.store, actor) {
        EmitKeeps(w1, Some(actor), [Ended(actor, call, CallerBusy)]);
      } else {
        var w2 := w1.(store := ReapOrphan(w1.store, to));
        ReapKeeps(w1, to);
        if IsBusy(w1.store, to) || !env.reachable {
          LogInstantKeeps(w2, actor, to, chat, env.logId);
          var logged := LogInstant(w2, actor, to, chat, env.logId);
          EmitKeeps(logged, Some(actor), [BusyTone(actor, call)]);
          EmitKeeps(logged, Some(actor), [TimedOut(actor, call)]);
        } else {
          StartRingingKeeps(w2, actor, call, to, chat, sdp, env.logId);
        }
      }
    }
  }

  lemma AnswerKeeps(w: World, actor: User, call: CallId, sdp: string)
    requires Inv(w)
    ensures Inv(OnAnswer(w, actor, call, sdp).0)
  {
    if Get(w.store, call).Some? && Get(w.store, call).value.phase == Ringing {
      AnswerKeepsStore(w.store, call);
    }
  }

  lemma TerminateKeeps(w: World, actor: User, call: CallId, kind: TerminateKind)
    requires Inv(w)
    ensures Inv(OnTerminate(w, actor, call, kind).0)
  {
    if Get(w.store, call).Some? {
      var cs := Get(w.store, call).value;
      var (events, status) := match kind
        case Reject => ([Rejected(cs.caller, call)], RejectedCall)
        case Cancel => ([Canceled(cs.callee, call), WakeCancel(cs.callee, call)], CanceledCall)
        case Hangup => ([Ended(cs.Other(actor), call, HungUp)], HangupStatus(cs, actor));
      var told := Emit(w, Some(actor), events);
      EmitKeeps(w, Some(actor), events);
      FinishKeeps(told, call, status);
    }
  }

  lemma TimeoutKeeps(w: World, t: Timer)
    requires Inv(w) && t in w.timers && t.due <= w.store.now
    ensures Inv(Step(w, FireTimer(t)))
  {
    var w1 := w.(timers := w.timers - {t});
    var found := Get(w.store, t.call);
    if found.Some? {
      assert CallOk(w.store, t.call);
      if found.value.phase == Ringing {
        FinishKeeps(w, t.call, Missed);
        DeleteKeepsStore(w.store, t.call);
      }
    }
  }

  lemma DisconnectKeeps(w: World, u: User)
    requires Inv(w)
    ensures Inv(HandleDisconnect(w, u))
  {
    var marked := CallIdForUser(w.store, u);
    if marked.Some? {
      if IsBusy(w.store, u) {
        var cs := Get(w.store, marked.value).value;
        FinishKeeps(w, marked.value, if cs.answeredAt.None? then CanceledCall else Completed);
      } else {
        ClearKeepsStore(w.store, u);
      }
    }
  }

  lemma StepKeeps(w: World, a: Action)
    requires Inv(w) && Enabled(w, a)
    ensures Inv(Step(w, a))
  {
    match a
    case DoInvite(actor, call, to, chat, sdp, env) => InviteKeeps(w, actor, call, to, chat, sdp, env);
    case DoAnswer(actor, call, sdp) => AnswerKeeps(w, actor, call, sdp);
    case DoIce(actor, call, candidate) =>
    case DoRenegotiate(actor, call, kind, sdp) =>
    case DoTerminate(actor, call, how) => TerminateKeeps(w, actor, call, how);
    case FireTimer(t) => TimeoutKeeps(w, t);
    case DropSocket(u) => DisconnectKeeps(w, u);
    case PassTime(d) =>
      var w' := Step(w, a);
      forall c | Get(w'.store, c).Some?
        ensures Get(w.store, c) == Get(w'.store, c) && CallOk(w'.store, c)
      {
        assert CallOk(w.store, c);
      }
    case Crash =>
  }

  lemma {:induction false} RunKeeps(w: World, run: seq<Action>)
    requires Inv(w) && IsRun(w, run)
    ensures Inv(Exec(w, run))
    decreases |run|
  {
    if run != [] {
      StepKeeps(w, run[0]);
      RunKeeps(Step(w, run[0]), run[1..]);
    }
  }

  // ---- theorems over every run from an empty store ----

  lemma Reached(now: Time, run: seq<Action>) returns (w: World)
    requires IsRun(Initial(now), run)
    ensures w == Exec(Initial(now), run) && Inv(w)
  {
    RunKeeps(Initial(now), run);
    w := Exec(Initial(now), run);
  }

  /** The busy index answers exactly what a scan of the live calls would. */
  lemma BusyExactlyWhenOnLiveCall(now: Time, run: seq<Action>, u: User)
    requires IsRun(Initial(now), run)
    ensures var st := Exec(Initial(now), run).store;
      IsBusy(st, u) <==> exists c :: OnCall(st, c, u)
  {
    var w := Reached(now, run);
    BusyMeansOnCall(w.store, w.store, u);
  }

  lemma NeverOnTwoCalls(now: Time, run: seq<Action>, u: User, c: CallId, d: CallId)
    requires IsRun(Initial(now), run)
    requires var st := Exec(Initial(now), run).store; OnCall(st, c, u) && OnCall(st, d, u)
    ensures c == d
  {
    var w := Reached(now, run);
    OnCallIsBusy(w.store, c, u);
    OnCallIsBusy(w.store, d, u);
  }

  /** Delete clears both parties' markers without looking at them; no marker
      of any other live call is ever among them. */
  lemma DeleteSparesOtherCalls(now: Time, run: seq<Action>, c: CallId, d: CallId, u: User)
    requires IsRun(Initial(now), run)
    requires d != c && OnCall(Exec(Initial(now), run).store, d, u)
    ensures var st := Delete(Exec(Initial(now), run).store, c);
      OnCall(st, d, u) && CallIdForUser(st, u) == Some(d)
  {
    var w := Reached(now, run);
    DeleteKeepsStore(w.store, c);
    OnCallIsBusy(Delete(w.store, c), d, u);
  }

  lemma PendingInviteExactlyWhenRinging(now: Time, run: seq<Action>, u: User)
    requires IsRun(Initial(now), run)
    ensures var st := Exec(Initial(now), run).store;
      && (PendingInvite(st, u).Some? <==> exists c :: RingingFor(st, c, u))
      && (forall c :: RingingFor(st, c, u) ==> PendingInvite(st, u) == Get(st, c))
  {
    var w := Reached(now, run);
    PendingMeansRinging(w.store, u);
  }

  /** A callee whose socket drops while the phone rings has refused nothing. */
  lemma CalleeDropLeavesTheRing(now: Time, run: seq<Action>, u: User, c: CallId)
    requires IsRun(Initial(now), run)
    requires RingingFor(Exec(Initial(now), run).store, c, u)
    ensures Step(Exec(Initial(now), run), DropSocket(u)) == Exec(Initial(now), run)
  {
    var w := Reached(now, run);
    assert CallOk(w.store, c);
    OnCallIsBusy(w.store, c, u);
  }

  /** A call rings no longer than the TTL; and where no crash lost the timers
      and none is overdue, no longer than the ring timeout. */
  lemma RingsEndInTime(now: Time, run: seq<Action>, c: CallId)
    requires IsRun(Initial(now), run)
    requires var st := Exec(Initial(now), run).store; Get(st, c).Some? && Get(st, c).value.phase == Ringing
    ensures var w := Exec(Initial(now), run);
      var started := Get(w.store, c).value.startedAt;
      && w.store.now < started + RINGING_TTL
      && (!w.crashed && (forall t :: t in w.timers ==> w.store.now < t.due) ==> w.store.now < started + RING_TIMEOUT)
  {
    var w := Reached(now, run);
    assert CallOk(w.store, c);
  }

  ghost predicate NoCallOf(w: World, l: LogId) {
    forall c :: Get(w.store, c).Some? ==> Get(w.store, c).value.log != l
  }

  /** A row changes only while its call is live. */
  lemma RowsFollowTheirCall(w: World, a: Action, l: LogId)
    requires Inv(w) && Enabled(w, a) && l in w.journal && NoCallOf(w, l)
    ensures l in Step(w, a).journal && Step(w, a).journal[l] == w.journal[l]
  {
    match a {
      case DoInvite(actor, call, to, chat, sdp, env) =>
      case _ =>
    }
  }

  /** No step touches a row that has ended, and no row is ever lost. */
  lemma StepFreezesEndedRows(w: World, a: Action, l: LogId)
    requires Inv(w) && Enabled(w, a)
    requires l in w.journal
    ensures l in Step(w, a).journal
    ensures w.journal[l].endedAt.Some? ==> Step(w, a).journal[l] == w.journal[l]
  {
    if w.journal[l].endedAt.Some? {
      forall c | Get(w.store, c).Some?
        ensures Get(w.store, c).value.log != l
      {
        assert OpenRow(w, Get(w.store, c).value);
      }
      RowsFollowTheirCall(w, a, l);
    }
  }

  lemma {:induction false} JournalRowsCloseOnce(w: World, run: seq<Action>, l: LogId)
    requires Inv(w) && IsRun(w, run)
    requires l in w.journal && w.journal[l].endedAt.Some?
    ensures l in Exec(w, run).journal && Exec(w, run).journal[l] == w.journal[l]
    decreases |run|
  {
    if run != [] {
      StepKeeps(w, run[0]);
      StepFreezesEndedRows(w, run[0], l);
      JournalRowsCloseOnce(Step(w, run[0]), run[1..], l);
    }
  }

  lemma JournalTellsTheTruth(now: Time, run: seq<Action>, l: LogId)
    requires IsRun(Initial(now), run)
    requires l in Exec(Initial(now), run).journal
    ensures RowOk(Exec(Initial(now), run).journal[l])
  {
    var w := Reached(now, run);
  }
}
