/** Ring timers know a call by its id alone. What a timer does to a later ring
    under the same id. */
module CallTimers {
  import opened Common
  import opened CallDomain
  import opened CallSafety
  import opened CallTrace
  import opened CallEndings

  /** This action rings under t's id and starts the timer t. */
  ghost predicate Starts(w: World, a: Action, t: Timer) {
    RingsUnder(w, a, t.call) && t.due == w.store.now + RING_TIMEOUT
  }

  lemma StepTimers(w: World, a: Action, t: Timer)
    requires Inv(w) && Enabled(w, a)
    ensures t in Step(w, a).timers <==> (t in w.timers && a != FireTimer(t) && a != Crash) || Starts(w, a, t)
  {
    if a.DoInvite? {
      ReapKeepsStore(w.store, a.actor);
    }
  }

  /** From step k on, t neither fires nor is lost in a crash. */
  ghost predicate Spared(run: seq<Action>, k: nat, t: Timer) {
    forall j :: k <= j < |run| ==> run[j] != FireTimer(t) && run[j] != Crash
  }

  /** The timers that are pending are those that some ring started and that have
      neither fired nor been lost since. */
  lemma {:induction false} PendingTimers(w: World, run: seq<Action>, t: Timer)
    requires Inv(w) && IsRun(w, run)
    ensures t in Exec(w, run).timers <==>
      || (t in w.timers && Spared(run, 0, t))
      || exists k :: 0 <= k < |run| && Starts(Exec(w, run[..k]), run[k], t) && Spared(run, k + 1, t)
    decreases |run|
  {
    if run != [] {
      var w', rest := Step(w, run[0]), run[1..];
      StepKeeps(w, run[0]);
      StepTimers(w, run[0], t);
      PendingTimers(w', rest, t);
      forall k | 0 <= k <= |rest|
        ensures Spared(rest, k, t) <==> Spared(run, k + 1, t)
      {
        assert forall j :: 0 <= j < |rest| ==> rest[j] == run[j + 1];
        if Spared(rest, k, t) {
          assert forall j :: k + 1 <= j < |run| ==> run[j] == rest[j - 1];
        }
      }
      forall k | 0 < k < |run|
        ensures Exec(w, run[..k]) == Exec(w', rest[..k - 1])
      {
        assert run[..k][1..] == rest[..k - 1];
      }
      assert Exec(w, run[..0]) == w;
      TimersShift(w, run, t);
    }
  }

  lemma TimersShift(w: World, run: seq<Action>, t: Timer)
    requires run != [] && Inv(w) && IsRun(w, run)
    requires forall k :: 0 < k < |run| ==> Exec(w, run[..k]) == Exec(Step(w, run[0]), run[1..][..k - 1])
    requires forall k :: 0 <= k <= |run| - 1 ==> (Spared(run[1..], k, t) <==> Spared(run, k + 1, t))
    ensures (exists k :: 0 <= k < |run| && Starts(Exec(w, run[..k]), run[k], t) && Spared(run, k + 1, t)) <==>
      || (Starts(w, run[0], t) && Spared(run[1..], 0, t))
      || exists k :: 0 <= k < |run[1..]| && Starts(Exec(Step(w, run[0]), run[1..][..k]), run[1..][k], t) && Spared(run[1..], k + 1, t)
  {
  }

  /** The moment step k of the run is taken. */
  ghost function TimeAt(now: Time, run: seq<Action>, k: nat): Time
    requires k <= |run|
  {
    Exec(Initial(now), run[..k]).store.now
  }

  /** Step k rang under c, long enough ago for its timer, and that timer has
      neither fired nor been lost. */
  ghost predicate OldRing(now: Time, run: seq<Action>, c: CallId, k: nat) {
    && k < |run| && RingsUnder(Exec(Initial(now), run[..k]), run[k], c)
    && TimeAt(now, run, k) + RING_TIMEOUT <= Exec(Initial(now), run).store.now
    && Spared(run, k + 1, Timer(c, TimeAt(now, run, k) + RING_TIMEOUT))
  }

  lemma OldRingCloses(now: Time, run: seq<Action>, c: CallId, cs: CallState, k: nat)
    requires IsRun(Initial(now), run) && Live(Exec(Initial(now), run), c, cs) && cs.answeredAt.None?
    requires OldRing(now, run, c, k)
    ensures var w, fire := Exec(Initial(now), run), FireTimer(Timer(c, TimeAt(now, run, k) + RING_TIMEOUT));
      Enabled(w, fire) && ClosedAs(w, Step(w, fire), cs, Missed)
  {
    var t := Timer(c, TimeAt(now, run, k) + RING_TIMEOUT);
    assert Starts(Exec(Initial(now), run[..k]), run[k], t);
    PendingTimers(Initial(now), run, t);
    ClosedExactlyAs(now, run, FireTimer(t), c, cs, Missed);
  }

  lemma ClosedByOldRing(now: Time, run: seq<Action>, c: CallId, cs: CallState, a: Action) returns (k: nat)
    requires IsRun(Initial(now), run) && Live(Exec(Initial(now), run), c, cs) && cs.answeredAt.None?
    requires Enabled(Exec(Initial(now), run), a) && ClosedAs(Exec(Initial(now), run), Step(Exec(Initial(now), run), a), cs, Missed)
    ensures OldRing(now, run, c, k)
  {
    ClosedExactlyAs(now, run, a, c, cs, Missed);
    PendingTimers(Initial(now), run, a.timer);
    k :| 0 <= k < |run| && Starts(Exec(Initial(now), run[..k]), run[k], a.timer) && Spared(run, k + 1, a.timer);
    assert a.timer == Timer(c, TimeAt(now, run, k) + RING_TIMEOUT);
  }

  /** A ring can be closed as missed if and only if a ring of its id, itself or an
      earlier one, is old enough for its timer, which is still to fire. Where the
      ring itself is younger than the timeout, it is an earlier one. */
  lemma MissedIff(now: Time, run: seq<Action>, c: CallId, cs: CallState)
    requires IsRun(Initial(now), run) && Live(Exec(Initial(now), run), c, cs) && cs.answeredAt.None?
    ensures var w := Exec(Initial(now), run);
      (exists a :: Enabled(w, a) && ClosedAs(w, Step(w, a), cs, Missed)) <==> (exists k :: OldRing(now, run, c, k))
    ensures var w := Exec(Initial(now), run);
      w.store.now < cs.startedAt + RING_TIMEOUT ==> forall k :: OldRing(now, run, c, k) ==> TimeAt(now, run, k) < cs.startedAt
  {
    var w := Exec(Initial(now), run);
    if a :| Enabled(w, a) && ClosedAs(w, Step(w, a), cs, Missed) {
      var k := ClosedByOldRing(now, run, c, cs, a);
    }
    if k :| OldRing(now, run, c, k) {
      OldRingCloses(now, run, c, cs, k);
    }
  }

  lemma FiveSteps(w0: World, a: Action, b: Action, c: Action, d: Action, e: Action)
    ensures var w1 := Step(w0, a);
      var w2 := Step(w1, b);
      var w3 := Step(w2, c);
      var w4 := Step(w3, d);
      && (IsRun(w0, [a, b, c, d, e]) <==>
            Enabled(w0, a) && Enabled(w1, b) && Enabled(w2, c) && Enabled(w3, d) && Enabled(w4, e))
      && Exec(w0, [a, b, c, d, e]) == Step(w4, e)
  {
    var w1 := Step(w0, a);
    var w2 := Step(w1, b);
    var w3 := Step(w2, c);
    var w4 := Step(w3, d);
    Unroll(w4, e, []);
    Unroll(w3, d, [e]);
    Unroll(w2, c, [d, e]);
    Unroll(w1, b, [c, d, e]);
    Unroll(w0, a, [b, c, d, e]);
    assert [e] + [] == [e] && [d] + [e] == [d, e] && [c] + [d, e] == [c, d, e];
    assert [b] + [c, d, e] == [b, c, d, e] && [a] + [b, c, d, e] == [a, b, c, d, e];
  }

  /** Time passes while nobody is on a call. */
  lemma Waits(w: World, d: nat, t: Timer) returns (w': World)
    requires Inv(w) && t in w.timers && !IsBusy(w.store, 1) && !IsBusy(w.store, 2)
    ensures w' == Step(w, PassTime(d)) && Inv(w') && t in w'.timers && w'.journal == w.journal
    ensures !IsBusy(w'.store, 1) && !IsBusy(w'.store, 2) && w'.store.now == w.store.now + d
  {
    w' := Step(w, PassTime(d));
    StepKeeps(w, PassTime(d));
    StepTimers(w, PassTime(d), t);
  }

  /** A second into its ring, a call meets a timer of its id that is due. */
  lemma MeetsOldTimer(w: World, cs: CallState, t: Timer) returns (w': World)
    requires Inv(w) && Live(w, 9, cs) && cs.phase == Ringing && cs.startedAt == w.store.now
    requires t in w.timers && t.call == 9 && t.due == w.store.now + SECOND
    ensures w' == Step(w, PassTime(SECOND)) && Live(w', 9, cs) && w'.store.now == cs.startedAt + SECOND
    ensures Enabled(w', FireTimer(t)) && ClosedAs(w', Step(w', FireTimer(t)), cs, Missed)
  {
    w' := Step(w, PassTime(SECOND));
    assert CallOk(w.store, 9);
    StepKeeps(w, PassTime(SECOND));
    StepTimers(w, PassTime(SECOND), t);
    TimeEnds(w, PassTime(SECOND), 9, cs);
    CallEndsExactly(w', FireTimer(t), 9, cs);
  }

  /** It happens: id 9 rings and is hung up; 44 seconds later it rings again, and
      one second after that the first ring's timer closes the second ring. */
  lemma MissedEarlyHappens(now: Time) returns (run: seq<Action>, cs: CallState, fire: Action)
    ensures IsRun(Initial(now), run)
    ensures var w := Exec(Initial(now), run);
      && Live(w, 9, cs) && w.store.now == cs.startedAt + SECOND
      && Enabled(w, fire) && ClosedAs(w, Step(w, fire), cs, Missed)
  {
    var first := DoInvite(1, 9, 2, 5, "sdp", InviteEnv(true, true, false, true, 1));
    var hangup := DoTerminate(1, 9, Hangup);
    var again := DoInvite(1, 9, 2, 5, "sdp", InviteEnv(true, true, false, true, 2));
    var wait, tick := PassTime(44 * SECOND), PassTime(SECOND);
    var w0, t := Initial(now), Timer(9, now + RING_TIMEOUT);
    var w1 := Ring(w0, first);
    var w2 := HungUp(w1, hangup, t);
    var w3 := Waits(w2, 44 * SECOND, t);
    var w4 := Ring(w3, again);
    StepTimers(w3, again, t);
    cs := Get(w4.store, 9).value;
    var w := MeetsOldTimer(w4, cs, t);
    fire, run := FireTimer(t), [first, hangup, wait, again, tick];
    FiveSteps(w0, first, hangup, wait, again, tick);
  }

  /** 1 rings 2 under id 9. */
  lemma Ring(w: World, a: Action) returns (w': World)
    requires Inv(w) && a.DoInvite? && Enabled(w, a) && a.env == InviteEnv(true, true, false, true, a.env.logId)
    requires a == DoInvite(1, 9, 2, 5, "sdp", a.env) && !IsBusy(w.store, 1) && !IsBusy(w.store, 2)
    ensures w' == Step(w, a) && Inv(w') && Starts(w, a, Timer(9, w.store.now + RING_TIMEOUT))
    ensures Timer(9, w.store.now + RING_TIMEOUT) in w'.timers && w'.store.now == w.store.now
    ensures w'.journal.Keys == w.journal.Keys + {a.env.logId}
    ensures Get(w'.store, 9).Some? && Get(w'.store, 9).value.startedAt == w.store.now
    ensures Get(w'.store, 9).value.caller == 1 && Get(w'.store, 9).value.callee == 2 && Get(w'.store, 9).value.phase == Ringing
  {
    w' := Step(w, a);
    StepKeeps(w, a);
    InviteRings(w, a);
    StepTimers(w, a, Timer(9, w.store.now + RING_TIMEOUT));
    ReapKeepsStore(w.store, 1);
  }

  lemma HungUp(w: World, a: Action, t: Timer) returns (w': World)
    requires Inv(w) && a == DoTerminate(1, 9, Hangup) && t in w.timers
    requires Get(w.store, 9).Some? && Get(w.store, 9).value.caller == 1 && Get(w.store, 9).value.callee == 2
    ensures w' == Step(w, a) && Inv(w') && t in w'.timers && w'.store.now == w.store.now
    ensures !IsBusy(w'.store, 1) && !IsBusy(w'.store, 2) && w'.journal.Keys == w.journal.Keys
  {
    w' := Step(w, a);
    StepKeeps(w, a);
    HangUpFreesTheId(w, 9);
    StepTimers(w, a, t);
  }
}
