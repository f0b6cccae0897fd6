/** How a call ends, step by step and over whole runs, whatever call ids the
    clients choose: a call is told apart from a later one under the same id by
    its journal row. */
module CallEndings {
  import opened Common
  import opened CallDomain
  import opened CallSafety

  ghost predicate Live(w: World, c: CallId, cs: CallState) { Get(w.store, c) == Some(cs) }

  /** The call that was live under c is gone, or another one took its place. */
  ghost predicate Lost(w: World, w': World, c: CallId, cs: CallState) {
    Live(w, c, cs) && (Get(w'.store, c).None? || Get(w'.store, c).value.log != cs.log)
  }

  /** What the journal will say of the call, if this action ends it. */
  function EndingStatus(cs: CallState, c: CallId, a: Action): Option<Status> {
    var answered := cs.answeredAt.Some?;
    match a
    case DoTerminate(actor, call, Hangup) =>
      if call != c || !cs.Involves(actor) then None
      else Some(if answered then Completed else if actor == cs.caller then CanceledCall else RejectedCall)
    case DoTerminate(actor, call, Reject) => if call == c && actor == cs.callee then Some(RejectedCall) else None
    case DoTerminate(actor, call, Cancel) => if call == c && actor == cs.caller then Some(CanceledCall) else None
    case DropSocket(u) =>
      if answered && cs.Involves(u) then Some(Completed)
      else if !answered && u == cs.caller then Some(CanceledCall)
      else None
    case FireTimer(t) => if t.call == c && !answered then Some(Missed) else None
    case _ => None
  }

  /** An invite that rings under c: accepted, between two users who are free and
      of whom the second is reachable. A call that is live under c is taken over. */
  ghost predicate RingsUnder(w: World, a: Action, c: CallId) {
    && a.DoInvite? && a.call == c && a.env.reachable
    && InviteRefusal(a.actor, a.call, a.to, a.chat, a.sdp, a.env).Accepted?
    && !IsBusy(w.store, a.actor) && !IsBusy(w.store, a.to)
  }

  function Deadline(cs: CallState): Time {
    if cs.answeredAt.None? then cs.startedAt + RINGING_TTL else cs.answeredAt.value + ANSWERED_TTL
  }

  ghost predicate RunsOut(w: World, a: Action, cs: CallState) {
    a.PassTime? && Deadline(cs) <= w.store.now + a.d
  }

  ghost predicate ClosedAs(w: World, w': World, cs: CallState, status: Status) {
    && cs.log in w'.journal
    && w'.journal[cs.log].status == status && w'.journal[cs.log].endedAt == Some(w.store.now)
    && w'.journal[cs.log].answeredAt == cs.answeredAt
  }

  ghost predicate RowKept(w: World, w': World, cs: CallState) {
    cs.log in w.journal && cs.log in w'.journal && w'.journal[cs.log] == w.journal[cs.log]
  }

  // ---- one handler at a time ----

  lemma TerminateEnds(w: World, actor: User, call: CallId, kind: TerminateKind, c: CallId, cs: CallState)
    requires Inv(w) && Live(w, c, cs)
    ensures var w', ended := OnTerminate(w, actor, call, kind).0, EndingStatus(cs, c, DoTerminate(actor, call, kind));
      if ended.Some? then Lost(w, w', c, cs) && ClosedAs(w, w', cs, ended.value) else Get(w'.store, c) == Some(cs)
  {
  }

  lemma DropEnds(w: World, u: User, c: CallId, cs: CallState)
    requires Inv(w) && Live(w, c, cs)
    ensures var w', ended := HandleDisconnect(w, u), EndingStatus(cs, c, DropSocket(u));
      if ended.Some? then Lost(w, w', c, cs) && ClosedAs(w, w', cs, ended.value) else Get(w'.store, c) == Some(cs)
  {
  }

  /** An invite either rings or leaves every call alone; one that rings is in
      nobody's way but that of a call under its own id. */
  lemma InviteEnds(w: World, a: Action, c: CallId, cs: CallState)
    requires Inv(w) && a.DoInvite? && Enabled(w, a) && Live(w, c, cs)
    ensures if RingsUnder(w, a, c) then Lost(w, Step(w, a), c, cs) && RowKept(w, Step(w, a), cs)
            else Get(Step(w, a).store, c) == Some(cs)
  {
    var w1 := w.(store := ReapOrphan(w.store, a.actor));
    ReapKeeps(w, a.actor);
    ReapKeepsStore(w.store, a.actor);
    var w2 := w1.(store := ReapOrphan(w1.store, a.to));
    ReapKeeps(w1, a.to);
    ReapKeepsStore(w1.store, a.to);
    assert OpenRow(w, cs);
    if InviteRefusal(a.actor, a.call, a.to, a.chat, a.sdp, a.env).Accepted?
       && !IsBusy(w.store, a.actor) && !IsBusy(w.store, a.to) && a.env.reachable {
      var ring := CallState(a.call, a.actor, a.to, a.chat, a.env.logId, Ringing, a.sdp, w.store.now, None);
      CreateKeepsStore(w2.store, ring);
    }
  }

  lemma TimeEnds(w: World, a: Action, c: CallId, cs: CallState)
    requires Inv(w) && a.PassTime? && Live(w, c, cs)
    ensures if RunsOut(w, a, cs) then Lost(w, Step(w, a), c, cs) && RowKept(w, Step(w, a), cs)
            else Get(Step(w, a).store, c) == Some(cs)
  {
  }

  // ---- every way a call can end ----

  /** Any action on any reachable world. A live call is lost if and only if a
      party, its socket or its timer ends it, its key runs out, or its id is
      taken over; its row is closed, under the name of what ended it, in the
      first case only. */
  lemma CallEndsExactly(w: World, a: Action, c: CallId, cs: CallState)
    requires Inv(w) && Enabled(w, a) && Live(w, c, cs)
    ensures var w', ended := Step(w, a), EndingStatus(cs, c, a);
      && (Lost(w, w', c, cs) <==> ended.Some? || RunsOut(w, a, cs) || RingsUnder(w, a, c))
      && (ended.Some? ==> ClosedAs(w, w', cs, ended.value))
      && (RunsOut(w, a, cs) || RingsUnder(w, a, c) ==> RowKept(w, w', cs))
  {
    match a {
      case DoInvite(_, _, _, _, _, _) => InviteEnds(w, a, c, cs);
      case DoAnswer(actor, call, sdp) =>
      case DoTerminate(actor, call, kind) => TerminateEnds(w, actor, call, kind, c, cs);
      case DropSocket(u) => DropEnds(w, u, c, cs);
      case FireTimer(t) =>
      case PassTime(_) => TimeEnds(w, a, c, cs);
      case _ =>
    }
  }

  /** A call that is not lost, or lost by itself, keeps its row open. */
  lemma StillOpen(w: World, a: Action, c: CallId, cs: CallState)
    requires Inv(w) && Enabled(w, a) && Live(w, c, cs) && EndingStatus(cs, c, a).None?
    ensures cs.log in Step(w, a).journal && Step(w, a).journal[cs.log].endedAt.None?
  {
    CallEndsExactly(w, a, c, cs);
    assert OpenRow(w, cs);
    if !Lost(w, Step(w, a), c, cs) {
      StepKeeps(w, a);
      assert OpenRow(Step(w, a), Get(Step(w, a).store, c).value);
    }
  }

  lemma ClosedExactlyAs(now: Time, run: seq<Action>, a: Action, c: CallId, cs: CallState, status: Status)
    requires IsRun(Initial(now), run) && Enabled(Exec(Initial(now), run), a) && Live(Exec(Initial(now), run), c, cs)
    ensures ClosedAs(Exec(Initial(now), run), Step(Exec(Initial(now), run), a), cs, status)
      <==> EndingStatus(cs, c, a) == Some(status)
    ensures cs.answeredAt.None? <==> cs.phase == Ringing
    ensures cs.caller != cs.callee
  {
    var w := Reached(now, run);
    assert CallOk(w.store, c);
    CallEndsExactly(w, a, c, cs);
    if EndingStatus(cs, c, a).None? {
      StillOpen(w, a, c, cs);
    }
  }

  /** An answered call is journalled as completed if and only if a party hangs
      up or a party's socket drops. */
  lemma AnsweredCompletesExactly(now: Time, run: seq<Action>, a: Action, c: CallId, cs: CallState)
    requires IsRun(Initial(now), run) && Enabled(Exec(Initial(now), run), a)
    requires Live(Exec(Initial(now), run), c, cs) && cs.answeredAt.Some?
    ensures var w := Exec(Initial(now), run);
      ClosedAs(w, Step(w, a), cs, Completed) <==>
      || a in {DoTerminate(cs.caller, c, Hangup), DoTerminate(cs.callee, c, Hangup)}
      || a in {DropSocket(cs.caller), DropSocket(cs.callee)}
  {
    ClosedExactlyAs(now, run, a, c, cs, Completed);
  }

  /** An unanswered one is journalled under the name of whoever ended it. */
  lemma UnansweredNamesTheEnder(now: Time, run: seq<Action>, a: Action, c: CallId, cs: CallState)
    requires IsRun(Initial(now), run) && Enabled(Exec(Initial(now), run), a)
    requires Live(Exec(Initial(now), run), c, cs) && cs.answeredAt.None?
    ensures var w := Exec(Initial(now), run);
      && (ClosedAs(w, Step(w, a), cs, CanceledCall) <==>
            a in {DoTerminate(cs.caller, c, Cancel), DoTerminate(cs.caller, c, Hangup), DropSocket(cs.caller)})
      && (ClosedAs(w, Step(w, a), cs, RejectedCall) <==>
            a in {DoTerminate(cs.callee, c, Reject), DoTerminate(cs.callee, c, Hangup)})
      && (ClosedAs(w, Step(w, a), cs, Missed) <==> a.FireTimer? && a.timer.call == c)
  {
    ClosedExactlyAs(now, run, a, c, cs, CanceledCall);
    ClosedExactlyAs(now, run, a, c, cs, RejectedCall);
    ClosedExactlyAs(now, run, a, c, cs, Missed);
  }

  // ---- a taken-over call ----

  /** The two who were on the call hear nothing and are free again. */
  lemma TakeoverIsSilent(w: World, a: Action, c: CallId, cs: CallState)
    requires Inv(w) && Enabled(w, a) && Live(w, c, cs) && RingsUnder(w, a, c)
    ensures var w' := Step(w, a);
      && !IsBusy(w'.store, cs.caller) && !IsBusy(w'.store, cs.callee)
      && w.trace <= w'.trace
      && forall i :: |w.trace| <= i < |w'.trace| ==> !cs.Involves(w'.trace[i].event.to)
  {
    OnCallIsBusy(w.store, c, cs.caller);
    OnCallIsBusy(w.store, c, cs.callee);
    TakeoverFrees(w, a, c, cs.caller);
    TakeoverFrees(w, a, c, cs.callee);
  }

  lemma TakeoverFrees(w: World, a: Action, c: CallId, u: User)
    requires Inv(w) && Enabled(w, a) && RingsUnder(w, a, c) && CallIdForUser(w.store, u) == Some(c)
    requires u != a.actor && u != a.to
    ensures !IsBusy(Step(w, a).store, u)
  {
  }

  // ---- rows left open ----

  /** An open row that no live call will close. */
  ghost predicate LeftOpen(w: World, l: LogId) {
    l in w.journal && w.journal[l].endedAt.None? && NoCallOf(w, l)
  }

  /** This action loses the call of row l to its key's expiry or to a reused id. */
  ghost predicate Abandons(w: World, a: Action, l: LogId) {
    exists c, cs :: Live(w, c, cs) && cs.log == l && (RunsOut(w, a, cs) || RingsUnder(w, a, c))
  }

  lemma InviteTakesNoRow(w: World, a: Action, c: CallId, l: LogId)
    requires Inv(w) && Enabled(w, a) && a.DoInvite? && l in w.journal
    requires Get(Step(w, a).store, c).Some? && Get(Step(w, a).store, c).value.log == l
    ensures Get(w.store, c).Some? && Get(w.store, c).value.log == l
  {
  }

  lemma NoOtherCallTakesTheRow(w: World, a: Action, c: CallId, l: LogId)
    requires Inv(w) && Enabled(w, a) && l in w.journal
    requires Get(Step(w, a).store, c).Some? && Get(Step(w, a).store, c).value.log == l
    ensures Get(w.store, c).Some? && Get(w.store, c).value.log == l
  {
    match a {
      case DoInvite(_, _, _, _, _, _) => InviteTakesNoRow(w, a, c, l);
      case DoAnswer(actor, call, sdp) =>
        if Get(w.store, call).Some? && Get(w.store, call).value.phase == Ringing {
          AnswerKeepsStore(w.store, call);
        }
      case DoTerminate(_, call, _) => DeleteKeepsStore(w.store, call);
      case FireTimer(t) => DeleteKeepsStore(w.store, t.call);
      case DropSocket(u) =>
        if CallIdForUser(w.store, u).Some? {
          DeleteKeepsStore(w.store, CallIdForUser(w.store, u).value);
        }
      case _ =>
    }
  }

  /** A row that is new is closed at once or has its call. */
  lemma NewRowHasItsCall(w: World, a: Action, l: LogId)
    requires Inv(w) && Enabled(w, a) && l !in w.journal && l in Step(w, a).journal
    ensures !LeftOpen(Step(w, a), l)
  {
    var w' := Step(w, a);
    assert a.DoInvite? && l == a.env.logId;
    if RingsUnder(w, a, a.call) {
      var w1 := w.(store := ReapOrphan(w.store, a.actor));
      ReapKeepsStore(w.store, a.actor);
      var w2 := w1.(store := ReapOrphan(w1.store, a.to));
      assert w' == StartRinging(w2, a.actor, a.call, a.to, a.chat, a.sdp, l);
      assert Get(w'.store, a.call).Some? && Get(w'.store, a.call).value.log == l;
    } else {
      ReapKeepsStore(w.store, a.actor);
      assert w'.journal[l].endedAt.Some?;
    }
  }

  lemma StepLeavesOpen(w: World, a: Action, l: LogId)
    requires Inv(w) && Enabled(w, a)
    ensures LeftOpen(Step(w, a), l) <==> LeftOpen(w, l) || Abandons(w, a, l)
  {
    var w' := Step(w, a);
    if l in w.journal {
      StepFreezesEndedRows(w, a, l);
      forall c | Get(w'.store, c).Some? && Get(w'.store, c).value.log == l
        ensures Get(w.store, c).Some? && Get(w.store, c).value.log == l
      {
        NoOtherCallTakesTheRow(w, a, c, l);
      }
      if NoCallOf(w, l) {
        RowsFollowTheirCall(w, a, l);
      } else {
        var c :| Get(w.store, c).Some? && Get(w.store, c).value.log == l;
        LiveRowLeftOpen(w, a, c, Get(w.store, c).value);
      }
    } else {
      if l in w'.journal {
        NewRowHasItsCall(w, a, l);
      }
      forall c, cs | Live(w, c, cs)
        ensures cs.log != l
      {
        assert OpenRow(w, cs);
      }
    }
  }

  lemma LiveRowLeftOpen(w: World, a: Action, c: CallId, cs: CallState)
    requires Inv(w) && Enabled(w, a) && Live(w, c, cs)
    requires forall d :: Get(Step(w, a).store, d).Some? && Get(Step(w, a).store, d).value.log == cs.log ==>
      Get(w.store, d).Some? && Get(w.store, d).value.log == cs.log
    ensures LeftOpen(Step(w, a), cs.log) <==> Abandons(w, a, cs.log)
  {
    CallEndsExactly(w, a, c, cs);
    assert OpenRow(w, cs);
    assert forall d :: Get(w.store, d).Some? && Get(w.store, d).value.log == cs.log ==> d == c;
    if RunsOut(w, a, cs) || RingsUnder(w, a, c) {
      assert Abandons(w, a, cs.log);
    }
  }

  /** On every run, the open rows without a live call are exactly those whose
      call was lost to its key's expiry or to a reused id; they stay open. */
  lemma {:induction false} LeftOpenExactly(w: World, run: seq<Action>, l: LogId)
    requires Inv(w) && IsRun(w, run)
    ensures LeftOpen(Exec(w, run), l) <==>
      LeftOpen(w, l) || exists k :: 0 <= k < |run| && Abandons(Exec(w, run[..k]), run[k], l)
    decreases |run|
  {
    if run != [] {
      var w', rest := Step(w, run[0]), run[1..];
      StepKeeps(w, run[0]);
      StepLeavesOpen(w, run[0], l);
      LeftOpenExactly(w', rest, l);
      assert Exec(w, run[..0]) == w;
      forall k | 0 < k <= |run|
        ensures Exec(w, run[..k]) == Exec(w', rest[..k - 1])
      {
        assert run[..k][1..] == rest[..k - 1];
      }
      if LeftOpen(w', l) && !LeftOpen(w, l) {
        assert Abandons(Exec(w, run[..0]), run[0], l);
      }
      if k :| 0 <= k < |rest| && Abandons(Exec(w', rest[..k]), rest[k], l) {
        assert Abandons(Exec(w, run[..k + 1]), run[k + 1], l);
      }
      if k :| 0 <= k < |run| && Abandons(Exec(w, run[..k]), run[k], l) {
        if k > 0 {
          assert Abandons(Exec(w', rest[..k - 1]), rest[k - 1], l);
        }
      }
    }
  }

  /** A row whose call's id was taken over is never closed. */
  lemma TakenOverRowStaysOpen(w: World, a: Action, c: CallId, cs: CallState, later: seq<Action>)
    requires Inv(w) && Enabled(w, a) && Live(w, c, cs) && RingsUnder(w, a, c) && IsRun(Step(w, a), later)
    ensures LeftOpen(Exec(Step(w, a), later), cs.log)
  {
    StepKeeps(w, a);
    assert Abandons(w, a, cs.log);
    StepLeavesOpen(w, a, cs.log);
    LeftOpenExactly(Step(w, a), later, cs.log);
  }

  /** It happens: 1 rings 2, and 3 rings 4 under the same id. */
  lemma TakeoverHappens(now: Time) returns (first: Action, second: Action)
    ensures var w0 := Initial(now);
      && Enabled(w0, first) && Get(Step(w0, first).store, 9).Some?
      && Enabled(Step(w0, first), second) && RingsUnder(Step(w0, first), second, 9)
  {
    var w0 := Initial(now);
    first := DoInvite(1, 9, 2, 5, "sdp", InviteEnv(true, true, false, true, 1));
    second := DoInvite(3, 9, 4, 6, "sdp", InviteEnv(true, true, false, true, 2));
    assert InviteRefusal(3, 9, 4, 6, "sdp", second.env).Accepted?;
    assert ReapOrphan(w0.store, 1) == w0.store && ReapOrphan(w0.store, 2) == w0.store;
    assert Step(w0, first) == StartRinging(w0, 1, 9, 2, 5, "sdp", 1);
  }
}
