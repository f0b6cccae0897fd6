/** The life of attachment rows and the objects their keys name, under any
    interleaving of uploads, links, forwards, the two reapers and failures.
    A transaction is one step; a write to the object store is another. */
module Attachments {
  import opened Common
  import opened Disappear

  /** `uploading` are keys whose object is written and whose row is not yet
      committed; `doomed` are keys whose rows are committed away and whose
      purge is still to run; `leaked` are objects a failed step left behind. */
  datatype State = State(
    rows: map<AttId, Attachment>, objects: set<Key>,
    minted: set<Key>, uploading: set<Key>, doomed: set<Key>, leaked: set<Key>)

  datatype Step =
    | PutObject(key: Key)
    | PutFailed(key: Key, stored: bool)
    | CommitRow(id: AttId, uploader: Uuid, key: Key)
    | CommitInline(id: AttId, uploader: Uuid)
    | DropUpload(key: Key, removed: bool)
    | LeaveUpload(key: Key)
    | LinkRows(ids: set<AttId>, message: MsgId, uploader: Uuid)
    | CopyRows(source: MsgId, target: MsgId, uploader: Uuid, copies: map<AttId, AttId>)
    | ExpireRows(messages: set<MsgId>)
    | ReapRows(stale: set<AttId>, awaited: set<AttId>)
    | Purge(key: Key, done: bool)

  // ---- the statements ----

  /** UPDATE ... WHERE id = ANY(ids) AND message_id IS NULL AND uploaded_by = uploader. */
  function Link(rows: map<AttId, Attachment>, ids: set<AttId>, message: MsgId, uploader: Uuid): map<AttId, Attachment> {
    map a | a in rows ::
      if a in ids && rows[a].message.None? && rows[a].uploader == uploader
      then rows[a].(message := Some(message)) else rows[a]
  }

  function RowsOf(rows: map<AttId, Attachment>, message: MsgId): set<AttId> {
    set a | a in rows && rows[a].message == Some(message)
  }

  /** Fresh ids, one for each row of the source message. */
  ghost predicate IsCopy(rows: map<AttId, Attachment>, source: MsgId, copies: map<AttId, AttId>) {
    && copies.Keys !! rows.Keys
    && copies.Values == RowsOf(rows, source)
    && (forall x, y :: x in copies && y in copies && copies[x] == copies[y] ==> x == y)
  }

  /** INSERT ... SELECT: the row is new, the object key is shared. */
  function Copy(rows: map<AttId, Attachment>, target: MsgId, uploader: Uuid, copies: map<AttId, AttId>)
    : map<AttId, Attachment>
    requires forall x :: x in copies ==> copies[x] in rows
  {
    rows + map x | x in copies :: Attachment(Some(target), rows[copies[x]].path, uploader)
  }

  /** DELETE ... WHERE message_id IS NULL AND old enough AND not awaited by a
      pending scheduled message. */
  function Unlinked(rows: map<AttId, Attachment>, stale: set<AttId>, awaited: set<AttId>): set<AttId> {
    set a | a in rows && rows[a].message.None? && a in stale && a !in awaited
  }

  function PathsOf(rows: map<AttId, Attachment>, ids: set<AttId>): set<Key> {
    set a | a in rows && a in ids && rows[a].path != "" :: rows[a].path
  }

  ghost predicate Enabled(s: State, step: Step) {
    match step
    case PutObject(k) => k != "" && k !in s.minted
    case PutFailed(k, _) => k != "" && k !in s.minted
    case CommitRow(id, _, k) => id !in s.rows && k in s.uploading
    case CommitInline(id, _) => id !in s.rows
    case DropUpload(k, _) => k in s.uploading
    case LeaveUpload(k) => k in s.uploading
    case CopyRows(source, _, _, copies) => IsCopy(s.rows, source, copies)
    case Purge(k, _) => k in s.doomed
    case LinkRows(_, _, _) => true
    case ExpireRows(_) => true
    case ReapRows(_, _) => true
  }

  ghost function Next(s: State, step: Step): State
    requires Enabled(s, step)
  {
    match step
    case PutObject(k) => s.(objects := s.objects + {k}, minted := s.minted + {k}, uploading := s.uploading + {k})
    case PutFailed(k, stored) =>
      if stored then s.(objects := s.objects + {k}, minted := s.minted + {k}, leaked := s.leaked + {k})
      else s.(minted := s.minted + {k})
    case CommitRow(id, uploader, k) =>
      s.(rows := s.rows[id := Attachment(None, k, uploader)], uploading := s.uploading - {k})
    case CommitInline(id, uploader) => s.(rows := s.rows[id := Attachment(None, "", uploader)])
    case DropUpload(k, removed) =>
      if removed then s.(uploading := s.uploading - {k}, objects := s.objects - {k})
      else s.(uploading := s.uploading - {k}, leaked := s.leaked + {k})
    case LeaveUpload(k) => s.(uploading := s.uploading - {k}, leaked := s.leaked + {k})
    case LinkRows(ids, message, uploader) => s.(rows := Link(s.rows, ids, message, uploader))
    case CopyRows(source, target, uploader, copies) =>
      assert forall x :: x in copies ==> copies[x] in copies.Values;
      s.(rows := Copy(s.rows, target, uploader, copies))
    case ExpireRows(messages) =>
      s.(rows := Cascade(s.rows, messages), doomed := s.doomed + ExclusiveKeys(s.rows, messages))
    case ReapRows(stale, awaited) =>
      var gone := Unlinked(s.rows, stale, awaited);
      s.(rows := s.rows - gone, doomed := s.doomed + PathsOf(s.rows, gone))
    case Purge(k, done) =>
      if done then s.(doomed := s.doomed - {k}, objects := s.objects - {k})
      else s.(doomed := s.doomed - {k}, leaked := s.leaked + {k})
  }

  // ---- the invariant ----

  ghost function Referenced(rows: map<AttId, Attachment>): set<Key> {
    set a | a in rows && rows[a].path != "" :: rows[a].path
  }

  /** A file picked and not yet sent is the only holder of its key. */
  ghost predicate SoleOwners(rows: map<AttId, Attachment>) {
    forall a, b ::
      a in rows && b in rows && rows[a].message.None? && rows[a].path != "" && rows[b].path == rows[a].path ==>
        a == b
  }

  ghost predicate Inv(s: State) {
    var used := Referenced(s.rows);
    && SoleOwners(s.rows)
    && used !! s.uploading && used !! s.doomed && used !! s.leaked
    && s.uploading !! s.doomed && s.uploading !! s.leaked && s.doomed !! s.leaked
    && s.objects == used + s.uploading + s.doomed + s.leaked
    && s.objects <= s.minted
    && "" !in s.minted
  }

  lemma CopyKeeps(s: State, step: Step)
    requires Inv(s) && step.CopyRows? && Enabled(s, step)
    ensures Inv(Next(s, step))
  {
    var s' := Next(s, step);
    forall k | k in Referenced(s'.rows)
      ensures k in Referenced(s.rows)
    {
      var a :| a in s'.rows && s'.rows[a].path == k && k != "";
      if a in step.copies {
        assert step.copies[a] in step.copies.Values;
        assert s.rows[step.copies[a]].path == k;
      }
    }
    forall a | a in s.rows
      ensures s'.rows[a] == s.rows[a]
    {
    }
    assert Referenced(s'.rows) == Referenced(s.rows) by {
      forall k | k in Referenced(s.rows)
        ensures k in Referenced(s'.rows)
      {
        var a :| a in s.rows && s.rows[a].path == k && k != "";
        assert s'.rows[a].path == k;
      }
    }
    forall b | b in step.copies
      ensures var c := step.copies[b]; c in s.rows && s.rows[c].message.Some? && s'.rows[b].path == s.rows[c].path
    {
      assert step.copies[b] in step.copies.Values;
    }
    forall a, b | a in s'.rows && b in s'.rows && s'.rows[a].message.None? && s'.rows[a].path != ""
                  && s'.rows[b].path == s'.rows[a].path
      ensures a == b
    {
      assert a in s.rows;
    }
  }

  lemma LinkKeeps(s: State, step: Step)
    requires Inv(s) && step.LinkRows?
    ensures Inv(Next(s, step))
  {
    var s' := Next(s, step);
    assert s'.rows.Keys == s.rows.Keys && forall a :: a in s.rows ==> s'.rows[a].path == s.rows[a].path;
    assert Referenced(s'.rows) == Referenced(s.rows);
  }

  lemma ExpireKeeps(s: State, step: Step)
    requires Inv(s) && step.ExpireRows?
    ensures Inv(Next(s, step))
  {
    var s' := Next(s, step);
    var keys := ExclusiveKeys(s.rows, step.messages);
    forall k
      ensures k in Referenced(s.rows) <==> k in Referenced(s'.rows) + keys
      ensures k in keys ==> k !in Referenced(s'.rows)
    {
      PurgedExactlyWhenUnreferenced(s.rows, step.messages, k);
      if k in Referenced(s'.rows) {
        var a :| a in s'.rows && s'.rows[a].path == k && k != "";
        assert a in Refs(s'.rows, k);
        assert s.rows[a].path == k;
      }
      if k in Referenced(s.rows) {
        var a :| a in s.rows && s.rows[a].path == k && k != "";
        if InBatch(s.rows[a], step.messages) {
          assert a in BatchRefs(s.rows, step.messages, k);
          if b :| b in Refs(s'.rows, k) {
            assert s'.rows[b].path == k;
          }
        } else {
          assert s'.rows[a].path == k;
        }
      }
    }
  }

  lemma ReapKeeps(s: State, step: Step)
    requires Inv(s) && step.ReapRows?
    ensures Inv(Next(s, step))
  {
    var s' := Next(s, step);
    var gone := Unlinked(s.rows, step.stale, step.awaited);
    var keys := PathsOf(s.rows, gone);
    forall k
      ensures k in Referenced(s.rows) <==> k in Referenced(s'.rows) + keys
      ensures k in keys ==> k !in Referenced(s'.rows)
    {
      if k in keys {
        var a :| a in s.rows && a in gone && s.rows[a].path == k;
        assert forall b :: b in s'.rows ==> b != a && s'.rows[b].path != k;
      }
      if k in Referenced(s.rows) && k !in keys {
        var a :| a in s.rows && s.rows[a].path == k && k != "";
        assert a in s'.rows && s'.rows[a].path == k;
      }
    }
  }

  lemma CommitKeeps(s: State, step: Step)
    requires Inv(s) && (step.CommitRow? || step.CommitInline?) && Enabled(s, step)
    ensures Inv(Next(s, step))
  {
    var s' := Next(s, step);
    var added: set<Key> := if step.CommitRow? then {step.key} else {};
    forall k
      ensures k in Referenced(s'.rows) <==> k in Referenced(s.rows) + added
    {
      if k in Referenced(s.rows) {
        var a :| a in s.rows && s.rows[a].path == k && k != "";
        assert s'.rows[a].path == k;
      }
      if k in added {
        assert s'.rows[step.id].path == k;
      }
    }
    assert Referenced(s'.rows) == Referenced(s.rows) + added;
    forall b | b in s.rows && step.CommitRow?
      ensures s.rows[b].path != step.key
    {
      assert s.rows[b].path != "" ==> s.rows[b].path in Referenced(s.rows);
    }
  }

  lemma StepKeeps(s: State, step: Step)
    requires Inv(s) && Enabled(s, step)
    ensures Inv(Next(s, step))
  {
    match step
    case CommitRow(_, _, _) => CommitKeeps(s, step);
    case CommitInline(_, _) => CommitKeeps(s, step);
    case LinkRows(_, _, _) => LinkKeeps(s, step);
    case CopyRows(_, _, _, _) => CopyKeeps(s, step);
    case ExpireRows(_) => ExpireKeeps(s, step);
    case ReapRows(_, _) => ReapKeeps(s, step);
    case PutObject(_) =>
    case PutFailed(_, _) =>
    case DropUpload(_, _) =>
    case LeaveUpload(_) =>
    case Purge(_, _) =>
  }

  // ---- runs ----

  const EMPTY: State := State(map[], {}, {}, {}, {}, {})

  ghost predicate IsRun(s: State, run: seq<Step>)
    decreases |run|
  {
    run == [] || (Enabled(s, run[0]) && IsRun(Next(s, run[0]), run[1..]))
  }

  ghost function Exec(s: State, run: seq<Step>): State
    requires IsRun(s, run)
    decreases |run|
  {
    if run == [] then s else Exec(Next(s, run[0]), run[1..])
  }

  lemma {:induction false} Snoc(s: State, run: seq<Step>, step: Step)
    requires IsRun(s, run) && Enabled(Exec(s, run), step)
    ensures IsRun(s, run + [step])
    ensures Exec(s, run + [step]) == Next(Exec(s, run), step)
    decreases |run|
  {
    if run == [] {
      assert run + [step] == [step];
      assert [step][1..] == [];
    } else {
      assert (run + [step])[1..] == run[1..] + [step];
      Snoc(Next(s, run[0]), run[1..], step);
    }
  }

  lemma {:induction false} RunKeeps(s: State, run: seq<Step>)
    requires Inv(s) && IsRun(s, run)
    ensures Inv(Exec(s, run))
    decreases |run|
  {
    if run != [] {
      StepKeeps(s, run[0]);
      RunKeeps(Next(s, run[0]), run[1..]);
    }
  }

  /** No attachment row ever points at a missing object. */
  lemma NoDanglingRow(run: seq<Step>, a: AttId)
    requires IsRun(EMPTY, run)
    requires a in Exec(EMPTY, run).rows && Exec(EMPTY, run).rows[a].path != ""
    ensures Exec(EMPTY, run).rows[a].path in Exec(EMPTY, run).objects
  {
    RunKeeps(EMPTY, run);
    assert Exec(EMPTY, run).rows[a].path in Referenced(Exec(EMPTY, run).rows);
  }

  /** The key of an unlinked upload is referenced by that row alone, which is
      what lets ReapUnlinked purge without a reference check. */
  lemma UnlinkedKeyIsUnshared(run: seq<Step>, a: AttId, b: AttId)
    requires IsRun(EMPTY, run)
    requires var rows := Exec(EMPTY, run).rows;
      a in rows && b in rows && rows[a].message.None? && rows[a].path != "" && rows[b].path == rows[a].path
    ensures a == b
  {
    RunKeeps(EMPTY, run);
  }

  /** The steps that leave an object nobody will delete: a failed write that
      stored all the same, a take-back or a purge that failed, and a promotion
      that gave up without taking its object back. */
  ghost predicate Leaks(step: Step) {
    || (step.PutFailed? && step.stored) || (step.DropUpload? && !step.removed)
    || step.LeaveUpload? || (step.Purge? && !step.done)
  }

  /** A run leaks an object if and only if one of these steps is in it. */
  lemma {:induction false} RunLeaksIff(s: State, run: seq<Step>)
    requires Inv(s) && IsRun(s, run)
    ensures s.leaked <= Exec(s, run).leaked
    ensures Exec(s, run).leaked == s.leaked <==> forall i :: 0 <= i < |run| ==> !Leaks(run[i])
    decreases |run|
  {
    if run != [] {
      StepKeeps(s, run[0]);
      RunLeaksIff(Next(s, run[0]), run[1..]);
      assert forall i :: 0 < i < |run| ==> run[i] == run[1..][i - 1];
    }
  }

  /** With no upload and no purge under way, what is stored is what is referenced
      if and only if the run held no leaking step. */
  lemma GoneMeansGoneIff(run: seq<Step>)
    requires IsRun(EMPTY, run)
    ensures var s := Exec(EMPTY, run);
      s.uploading == {} && s.doomed == {} ==>
        (s.objects == Referenced(s.rows) <==> forall i :: 0 <= i < |run| ==> !Leaks(run[i]))
  {
    RunKeeps(EMPTY, run);
    RunLeaksIff(EMPTY, run);
    var s := Exec(EMPTY, run);
    if s.uploading == {} && s.doomed == {} && s.objects == Referenced(s.rows) {
      assert s.leaked * Referenced(s.rows) == {};
      assert s.leaked == {};
    }
  }

  // ---- the reap is one transaction, but two statements ----

  /** What is left if a forward of `source` commits after the expiry worker
      has selected its keys and before it deletes the rows. */
  ghost function ForwardInsideReap(s: State, messages: set<MsgId>, step: Step): State
    requires step.CopyRows? && Enabled(s, step)
  {
    var keys := ExclusiveKeys(s.rows, messages);
    var s1 := Next(s, step);
    s1.(rows := Cascade(s1.rows, messages), objects := s1.objects - keys)
  }

  /** The forwarded copy is broken exactly when the forward picks up a key the
      open reap has already selected. */
  lemma ForwardInsideReapBreaks(s: State, messages: set<MsgId>, step: Step)
    requires Inv(s) && step.CopyRows? && Enabled(s, step) && step.target !in messages
    ensures var s' := ForwardInsideReap(s, messages, step);
      (exists a :: a in s'.rows && s'.rows[a].path != "" && s'.rows[a].path !in s'.objects)
      <==> (exists b :: b in RowsOf(s.rows, step.source) && s.rows[b].path in ExclusiveKeys(s.rows, messages))
  {
    var s' := ForwardInsideReap(s, messages, step);
    var keys := ExclusiveKeys(s.rows, messages);
    forall a | a in s.rows && a in s'.rows && s.rows[a].path != ""
      ensures s'.rows[a].path in s'.objects
    {
      var k := s.rows[a].path;
      assert k in Referenced(s.rows);
      PurgedExactlyWhenUnreferenced(s.rows, messages, k);
      assert a in Refs(Cascade(s.rows, messages), k);
    }
    if a :| a in s'.rows && s'.rows[a].path != "" && s'.rows[a].path !in s'.objects {
      assert a !in s.rows;
      var b := step.copies[a];
      assert b in step.copies.Values;
      assert s.rows[b].path in Referenced(s.rows);
      assert b in RowsOf(s.rows, step.source) && s.rows[b].path in keys;
    }
    if b :| b in RowsOf(s.rows, step.source) && s.rows[b].path in keys {
      assert b in step.copies.Values;
      var a :| a in step.copies && step.copies[a] == b;
      assert a in s'.rows && s'.rows[a].path == s.rows[b].path;
      PurgedExactlyWhenUnreferenced(s.rows, messages, s.rows[b].path);
    }
  }

  /** One file, uploaded and sent with message 5. */
  lemma OneFileSent() returns (run: seq<Step>)
    ensures IsRun(EMPTY, run) && Exec(EMPTY, run).rows == map[1 := Attachment(Some(5), "k", 3)]
  {
    var put, commit, link := PutObject("k"), CommitRow(1, 3, "k"), LinkRows({1}, 5, 3);
    run := [];
    Snoc(EMPTY, run, put);
    run := run + [put];
    Snoc(EMPTY, run, commit);
    run := run + [commit];
    Snoc(EMPTY, run, link);
    run := run + [link];
  }

  lemma OneFileIsExclusive(rows: map<AttId, Attachment>)
    requires rows == map[1 := Attachment(Some(5), "k", 3)]
    ensures IsCopy(rows, 5, map[2 := 1])
    ensures 1 in RowsOf(rows, 5) && rows[1].path in ExclusiveKeys(rows, {5})
  {
    var copies: map<AttId, AttId> := map[2 := 1];
    assert copies[2] == 1 && copies.Keys == {2};
    assert forall v :: v in copies.Values ==> v == 1;
    assert rows.Keys == {1} && rows[1].message == Some(5);
    assert copies.Values == {1} == RowsOf(rows, 5);
    assert BatchRefs(rows, {5}, "k") == {1} && Refs(rows, "k") == {1};
  }

  /** Such a forward exists: message 5 expires while it is forwarded. */
  lemma ForwardInsideReapHappens() returns (run: seq<Step>, forward: Step)
    ensures IsRun(EMPTY, run) && forward.CopyRows? && forward.target !in {5}
    ensures Enabled(Exec(EMPTY, run), forward)
    ensures var s' := ForwardInsideReap(Exec(EMPTY, run), {5}, forward);
      exists a :: a in s'.rows && s'.rows[a].path != "" && s'.rows[a].path !in s'.objects
  {
    run := OneFileSent();
    var s := Exec(EMPTY, run);
    forward := CopyRows(5, 6, 4, map[2 := 1]);
    OneFileIsExclusive(s.rows);
    RunKeeps(EMPTY, run);
    ForwardInsideReapBreaks(s, {5}, forward);
  }
}
