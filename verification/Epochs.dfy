/** The epoch gate of the MLS delivery service. Advancing the recorded epoch
    and storing the commit are two statements, so any number of publishers may
    interleave between them (section 14 of RFC 9420 is what the gate serves). */
module Epochs {
  import opened Common

  /** A chat is its type and its id. */
  datatype ChatType = Private | Group
  datatype Chat = Chat(kind: ChatType, id: Uuid)
  type Publisher = Uuid

  datatype Kind = Commit | Proposal

  datatype Frame = Frame(chat: Chat, kind: Kind, epoch: Option<int>, sender: Uuid)

  /** A commit that names an epoch has to pass the gate. */
  predicate Gated(f: Frame) { f.kind == Commit && f.epoch.Some? }

  /** `holding` are the publishers past the gate whose insert is still to come. */
  datatype State = State(epochs: map<Chat, int>, mailbox: seq<Frame>, holding: map<Publisher, Frame>)

  /** INSERT ... ON CONFLICT DO UPDATE ... WHERE epoch < EXCLUDED.epoch. */
  predicate Moves(epochs: map<Chat, int>, chat: Chat, epoch: int) {
    chat !in epochs || epochs[chat] < epoch
  }

  datatype Step =
    | Advance(who: Publisher, frame: Frame)
    | Insert(who: Publisher)
    | GiveUp(who: Publisher)
    | InsertUngated(frame: Frame)

  predicate Enabled(s: State, step: Step) {
    match step
    case Advance(p, f) => p !in s.holding && Gated(f)
    case Insert(p) => p in s.holding
    case GiveUp(p) => p in s.holding
    case InsertUngated(f) => !Gated(f)
  }

  function Next(s: State, step: Step): State
    requires Enabled(s, step)
  {
    match step
    case Advance(p, f) =>
      if Moves(s.epochs, f.chat, f.epoch.value)
      then s.(epochs := s.epochs[f.chat := f.epoch.value], holding := s.holding[p := f])
      else s
    case Insert(p) => s.(mailbox := s.mailbox + [s.holding[p]], holding := s.holding - {p})
    case GiveUp(p) => s.(holding := s.holding - {p})
    case InsertUngated(f) => s.(mailbox := s.mailbox + [f])
  }

  // ---- the invariant ----

  ghost predicate Below(s: State, f: Frame) {
    Gated(f) ==> f.chat in s.epochs && f.epoch.value <= s.epochs[f.chat]
  }

  ghost predicate Apart(f: Frame, g: Frame) {
    Gated(f) && Gated(g) && f.chat == g.chat ==> f.epoch != g.epoch
  }

  ghost predicate Inv(s: State) {
    && (forall i :: 0 <= i < |s.mailbox| ==> Below(s, s.mailbox[i]))
    && (forall p :: p in s.holding ==> Gated(s.holding[p]) && Below(s, s.holding[p]))
    && (forall i, j :: 0 <= i < j < |s.mailbox| ==> Apart(s.mailbox[i], s.mailbox[j]))
    && (forall i, p :: 0 <= i < |s.mailbox| && p in s.holding ==> Apart(s.mailbox[i], s.holding[p]))
    && (forall p, q :: p in s.holding && q in s.holding && p != q ==> Apart(s.holding[p], s.holding[q]))
  }

  lemma StepKeeps(s: State, step: Step)
    requires Inv(s) && Enabled(s, step)
    ensures Inv(Next(s, step))
    ensures forall c :: c in s.epochs ==> c in Next(s, step).epochs && s.epochs[c] <= Next(s, step).epochs[c]
    ensures s.mailbox <= Next(s, step).mailbox
  {
  }

  // ---- runs ----

  const EMPTY: State := State(map[], [], map[])

  ghost predicate IsRun(s: State, run: seq<Step>)
    decreases |run|
  {
    run == [] || (Enabled(s, run[0]) && IsRun(Next(s, run[0]), run[1..]))
  }

  ghost function Exec(s: State, run: seq<Step>): State
    requires IsRun(s, run)
    decreases |run|
  {
    if run == [] then s else Exec(Next(s, run[0]), run[1..])
  }

  lemma Unroll(s: State, step: Step, rest: seq<Step>)
    requires Enabled(s, step) && IsRun(Next(s, step), rest)
    ensures IsRun(s, [step] + rest) && Exec(s, [step] + rest) == Exec(Next(s, step), rest)
  {
  }

  lemma {:induction false} RunKeeps(s: State, run: seq<Step>)
    requires Inv(s) && IsRun(s, run)
    ensures Inv(Exec(s, run))
    ensures forall c :: c in s.epochs ==> c in Exec(s, run).epochs && s.epochs[c] <= Exec(s, run).epochs[c]
    ensures s.mailbox <= Exec(s, run).mailbox
    decreases |run|
  {
    if run != [] {
      StepKeeps(s, run[0]);
      RunKeeps(Next(s, run[0]), run[1..]);
    }
  }

  /** No two stored commits of a chat carry the same epoch: the group cannot fork. */
  lemma CommitsNeverShareAnEpoch(run: seq<Step>, i: nat, j: nat)
    requires IsRun(EMPTY, run)
    requires var box := Exec(EMPTY, run).mailbox;
      && i < |box| && j < |box| && i != j && box[i].chat == box[j].chat
      && box[i].kind == Commit && box[i].epoch.Some? && box[j].kind == Commit && box[j].epoch.Some?
    ensures Exec(EMPTY, run).mailbox[i].epoch != Exec(EMPTY, run).mailbox[j].epoch
  {
    RunKeeps(EMPTY, run);
    var box := Exec(EMPTY, run).mailbox;
    assert Apart(box[if i < j then i else j], box[if i < j then j else i]);
  }

  lemma StoredAtMostRecorded(run: seq<Step>, i: nat)
    requires IsRun(EMPTY, run)
    requires var box := Exec(EMPTY, run).mailbox; i < |box| && box[i].kind == Commit && box[i].epoch.Some?
    ensures var s := Exec(EMPTY, run);
      s.mailbox[i].chat in s.epochs && s.mailbox[i].epoch.value <= s.epochs[s.mailbox[i].chat]
  {
    RunKeeps(EMPTY, run);
    assert Below(Exec(EMPTY, run), Exec(EMPTY, run).mailbox[i]);
  }

  /** The recorded epoch only grows, and the mailbox is only appended to. */
  lemma RecordedEpochOnlyGrows(earlier: seq<Step>, later: seq<Step>, c: Chat)
    requires IsRun(EMPTY, earlier) && IsRun(Exec(EMPTY, earlier), later)
    requires c in Exec(EMPTY, earlier).epochs
    ensures var s, s' := Exec(EMPTY, earlier), Exec(Exec(EMPTY, earlier), later);
      c in s'.epochs && s.epochs[c] <= s'.epochs[c] && s.mailbox <= s'.mailbox
  {
    RunKeeps(EMPTY, earlier);
    RunKeeps(Exec(EMPTY, earlier), later);
  }

  /** Two publishers race for one epoch: the one that comes second is stale,
      whatever happens in between. */
  lemma {:induction false} SecondRacerIsStale(s: State, step: Step, between: seq<Step>, rival: Frame)
    requires Inv(s) && Enabled(s, step) && step.Advance? && Next(s, step) != s
    requires IsRun(Next(s, step), between)
    requires Gated(rival) && rival.chat == step.frame.chat && rival.epoch.value <= step.frame.epoch.value
    ensures !Moves(Exec(Next(s, step), between).epochs, rival.chat, rival.epoch.value)
  {
    StepKeeps(s, step);
    RunKeeps(Next(s, step), between);
  }

  // ---- the order of the mailbox ----

  /** A chat's stored commits, in mailbox order. */
  ghost function CommitsOf(box: seq<Frame>, chat: Chat): seq<Frame> {
    if box == [] then []
    else
      var n := |box| - 1;
      CommitsOf(box[..n], chat) + if Gated(box[n]) && box[n].chat == chat then [box[n]] else []
  }

  ghost predicate InOrder(box: seq<Frame>, chat: Chat) {
    var commits := CommitsOf(box, chat);
    forall i, j :: 0 <= i < j < |commits| ==> Gated(commits[i]) && Gated(commits[j]) && commits[i].epoch.value < commits[j].epoch.value
  }

  // ---- the schedule alone ----

  /** The step at which a publisher last went to the gate, -1 if it never did. */
  function LastAdvance(run: seq<Step>, p: Publisher): int {
    if run == [] then -1
    else
      var n := |run| - 1;
      if run[n].Advance? && run[n].who == p then n else LastAdvance(run[..n], p)
  }

  lemma {:induction false} LastAdvanceIs(run: seq<Step>, p: Publisher)
    ensures -1 <= LastAdvance(run, p) < |run|
    ensures LastAdvance(run, p) >= 0 ==> run[LastAdvance(run, p)].Advance? && run[LastAdvance(run, p)].who == p
  {
    if run != [] {
      LastAdvanceIs(run[..|run| - 1], p);
    }
  }

  /** For each insert of the chat, in their order, the step at which its
      publisher went to the gate. */
  ghost function GateOrder(run: seq<Step>, chat: Chat): seq<int> {
    if run == [] then []
    else
      var n := |run| - 1;
      GateOrder(run[..n], chat) +
      if run[n].Insert? then
        LastAdvanceIs(run[..n], run[n].who);
        var j := LastAdvance(run[..n], run[n].who);
        if j >= 0 && run[j].frame.chat == chat then [j] else []
      else []
  }

  /** The inserts come in the order in which their publishers passed the gate. */
  ghost predicate InsertsInGateOrder(run: seq<Step>, chat: Chat) {
    var gates := GateOrder(run, chat);
    forall i, j :: 0 <= i < j < |gates| ==> gates[i] < gates[j]
  }

  lemma {:induction false} LastStep(s: State, run: seq<Step>)
    requires IsRun(s, run) && run != []
    ensures var n := |run| - 1;
      IsRun(s, run[..n]) && Enabled(Exec(s, run[..n]), run[n]) && Exec(s, run) == Next(Exec(s, run[..n]), run[n])
    decreases |run|
  {
    var n := |run| - 1;
    if n > 0 {
      LastStep(Next(s, run[0]), run[1..]);
      assert run[1..][..n - 1] == run[..n][1..] && run[1..][n - 1] == run[n];
    }
  }

  lemma {:induction false} Prefix(s: State, run: seq<Step>, k: nat)
    requires IsRun(s, run) && k <= |run|
    ensures IsRun(s, run[..k]) && IsRun(Exec(s, run[..k]), run[k..])
    ensures Exec(s, run) == Exec(Exec(s, run[..k]), run[k..])
    decreases |run|
  {
    if k > 0 {
      Prefix(Next(s, run[0]), run[1..], k - 1);
      TailSlices(run, k);
    } else {
      assert run[..0] == [] && run[0..] == run;
    }
  }

  /** Step j took the chat to a new epoch. */
  ghost predicate PassedAt(run: seq<Step>, j: int)
    requires IsRun(EMPTY, run)
  {
    && 0 <= j < |run| && run[j].Advance? && Gated(run[j].frame)
    && IsRun(EMPTY, run[..j])
    && Moves(Exec(EMPTY, run[..j]).epochs, run[j].frame.chat, run[j].frame.epoch.value)
  }

  /** Later through the gate means a later epoch. */
  lemma GateOrdersEpochs(run: seq<Step>, i: int, j: int)
    requires IsRun(EMPTY, run) && PassedAt(run, i) && PassedAt(run, j) && i < j && run[i].frame.chat == run[j].frame.chat
    ensures run[i].frame.epoch.value < run[j].frame.epoch.value
  {
    var upTo := run[..j];
    Prefix(EMPTY, run, j);
    Prefix(EMPTY, upTo, i);
    assert upTo[..i] == run[..i] && upTo[i..][0] == run[i];
    var s := Exec(EMPTY, run[..i]);
    RunKeeps(EMPTY, run[..i]);
    StepKeeps(s, run[i]);
    RunKeeps(Next(s, run[i]), upTo[i..][1..]);
  }

  /** Whoever holds the right to insert has it from the last time it went to
      the gate. */
  lemma {:induction false} HoldersPassed(run: seq<Step>, p: Publisher)
    requires IsRun(EMPTY, run) && p in Exec(EMPTY, run).holding
    ensures PassedAt(run, LastAdvance(run, p)) && run[LastAdvance(run, p)].frame == Exec(EMPTY, run).holding[p]
    decreases |run|
  {
    if run != [] {
      var n := |run| - 1;
      LastStep(EMPTY, run);
      var s := Exec(EMPTY, run[..n]);
      if !(run[n].Advance? && run[n].who == p) {
        HoldersPassed(run[..n], p);
        var j := LastAdvance(run[..n], p);
        assert run[..n][..j] == run[..j];
      }
    }
  }

  /** The commits stored are those of the inserts, one by one. */
  lemma {:induction false} StoredAsInserted(run: seq<Step>, chat: Chat)
    requires IsRun(EMPTY, run)
    ensures var gates, commits := GateOrder(run, chat), CommitsOf(Exec(EMPTY, run).mailbox, chat);
      && |gates| == |commits|
      && forall i :: 0 <= i < |gates| ==> PassedAt(run, gates[i]) && run[gates[i]].frame == commits[i] && commits[i].chat == chat
    decreases |run|
  {
    if run != [] {
      var n := |run| - 1;
      var init := run[..n];
      LastStep(EMPTY, run);
      StoredAsInserted(init, chat);
      forall j | PassedAt(init, j)
        ensures PassedAt(run, j)
      {
        assert init[..j] == run[..j];
      }
      var box := Exec(EMPTY, init).mailbox;
      if run[n].Insert? {
        HoldersPassed(init, run[n].who);
        assert (box + [Exec(EMPTY, init).holding[run[n].who]])[..|box|] == box;
      } else if run[n].InsertUngated? {
        assert (box + [run[n].frame])[..|box|] == box;
      }
    }
  }

  /** Over every run, a chat's mailbox is in epoch order if and only if its
      inserts come in the order in which their publishers went to the gate. The
      gate orders epochs; nothing orders the inserts. */
  lemma MailboxInOrderIff(run: seq<Step>, chat: Chat)
    requires IsRun(EMPTY, run)
    ensures InOrder(Exec(EMPTY, run).mailbox, chat) <==> InsertsInGateOrder(run, chat)
  {
    var gates, commits := GateOrder(run, chat), CommitsOf(Exec(EMPTY, run).mailbox, chat);
    StoredAsInserted(run, chat);
    forall i, j | 0 <= i < j < |gates|
      ensures gates[i] < gates[j] <==> commits[i].epoch.value < commits[j].epoch.value
    {
      if gates[i] < gates[j] {
        GateOrdersEpochs(run, gates[i], gates[j]);
      } else if gates[j] < gates[i] {
        GateOrdersEpochs(run, gates[j], gates[i]);
      }
    }
  }

  /** Overtaking happens: two publishers, the later epoch stored first. */
  lemma MailboxMayBeOutOfOrder(chat: Chat, p: Publisher, q: Publisher) returns (run: seq<Step>)
    requires p != q
    ensures IsRun(EMPTY, run)
    ensures !InOrder(Exec(EMPTY, run).mailbox, chat)
  {
    var f, g := Frame(chat, Commit, Some(1), p), Frame(chat, Commit, Some(2), q);
    var s1 := Next(EMPTY, Advance(p, f));
    var s2 := Next(s1, Advance(q, g));
    var s3 := Next(s2, Insert(q));
    Unroll(s3, Insert(p), []);
    Unroll(s2, Insert(q), [Insert(p)]);
    Unroll(s1, Advance(q, g), [Insert(q)] + [Insert(p)]);
    run := [Advance(p, f)] + ([Advance(q, g)] + ([Insert(q)] + [Insert(p)]));
    Unroll(EMPTY, Advance(p, f), [Advance(q, g)] + ([Insert(q)] + [Insert(p)]));
    var box := Next(s3, Insert(p)).mailbox;
    assert [Insert(p)] + [] == [Insert(p)];
    assert box == [g, f] && box[..1] == [g] && [g][..0] == [];
    assert CommitsOf([g], chat) == [g] && CommitsOf(box, chat) == [g, f];
  }

  // ---- the service ----

  const MAX_HANDSHAKE_BYTES: nat := 262144

  datatype Reply = Published | ErrValidation | ErrForbidden | ErrStaleEpoch

  class DeliveryService {
    var epochs: map<Chat, int>
    var mailbox: seq<Frame>

    ghost function S(): State
      reads this
    {
      State(epochs, mailbox, map[])
    }

    method AdvanceEpoch(chat: Chat, epoch: int) returns (moved: bool)
      modifies this`epochs
      ensures moved <==> chat !in old(epochs) || old(epochs)[chat] < epoch
      ensures epochs == if moved then old(epochs)[chat := epoch] else old(epochs)
    {
      if chat in epochs && epochs[chat] >= epoch {
        return false;
      }
      epochs := epochs[chat := epoch];
      return true;
    }

    /** A commit or proposal published with nobody else in between: an
        undisturbed run of the steps above. */
    method PublishHandshake(f: Frame, payload: seq<bv8>, authorized: bool, ownsDevice: bool)
      returns (reply: Reply, ghost steps: seq<Step>)
      modifies this
      ensures IsRun(old(S()), steps) && S() == Exec(old(S()), steps)
      ensures reply ==
        if |payload| == 0 || |payload| > 262144 then ErrValidation
        else if !authorized || !ownsDevice then ErrForbidden
        else if f.kind == Commit && f.epoch.Some? && f.chat in old(epochs) && f.epoch.value <= old(epochs)[f.chat]
        then ErrStaleEpoch
        else Published
      ensures mailbox == old(mailbox) + if reply == Published then [f] else []
      ensures epochs ==
        if reply == Published && f.kind == Commit && f.epoch.Some? then old(epochs)[f.chat := f.epoch.value] else old(epochs)
    {
      steps := [];
      if |payload| == 0 || |payload| > MAX_HANDSHAKE_BYTES {
        return ErrValidation, steps;
      }
      if !authorized || !ownsDevice {
        return ErrForbidden, steps;
      }
      if f.kind == Commit && f.epoch.Some? {
        var moved := AdvanceEpoch(f.chat, f.epoch.value);
        if !moved {
          return ErrStaleEpoch, steps;
        }
        ghost var s1 := Next(old(S()), Advance(f.sender, f));
        Unroll(s1, Insert(f.sender), []);
        Unroll(old(S()), Advance(f.sender, f), [Insert(f.sender)] + []);
        steps := [Advance(f.sender, f)] + ([Insert(f.sender)] + []);
        assert s1.holding - {f.sender} == map[];
      } else {
        Unroll(old(S()), InsertUngated(f), []);
        steps := [InsertUngated(f)] + [];
      }
      mailbox := mailbox + [f];
      reply := Published;
    }
  }
}
