/** Uploads, links, forwards and the unlinked reaper as the service runs them,
    store failures included. Every method reports the atomic steps it took, so
    it is one of the runs the Attachments theorems quantify over. */
module AttachmentStore {
  import opened Common
  import opened Disappear
  import opened Attachments

  /** How an upload ended. */
  datatype Upload = Stored | WriteFailed(stored: bool) | RowFailed(removed: bool) | Abandoned

  class Service {
    var rows: map<AttId, Attachment>
    var objects: set<Key>
    var sessions: set<Uuid>
    ghost var minted: set<Key>
    ghost var uploading: set<Key>
    ghost var doomed: set<Key>
    ghost var leaked: set<Key>

    ghost function S(): State
      reads this
    {
      State(rows, objects, minted, uploading, doomed, leaked)
    }

    constructor ()
      ensures S() == EMPTY
    {
      rows, objects, sessions := map[], {}, {};
      minted, uploading, doomed, leaked := {}, {}, {}, {};
    }

    /** Moves the bookkeeping along one step. */
    ghost method Note(s0: State, steps: seq<Step>, step: Step) returns (steps': seq<Step>)
      requires IsRun(s0, steps) && Enabled(Exec(s0, steps), step)
      requires rows == Next(Exec(s0, steps), step).rows && objects == Next(Exec(s0, steps), step).objects
      modifies this`minted, this`uploading, this`doomed, this`leaked
      ensures steps' == steps + [step] && IsRun(s0, steps')
      ensures S() == Exec(s0, steps') == Next(Exec(s0, steps), step)
    {
      Snoc(s0, steps, step);
      var s := Next(Exec(s0, steps), step);
      minted, uploading, doomed, leaked := s.minted, s.uploading, s.doomed, s.leaked;
      steps' := steps + [step];
    }

    /** The object goes first, the row second; a row that cannot be written
        takes its object back where it can. The object is left behind exactly
        when the failed write had stored it, or the take-back failed. */
    method StoreFile(id: AttId, uploader: Uuid, key: Key) returns (r: Upload, ghost steps: seq<Step>)
      requires key != "" && key !in minted && id !in rows
      modifies this
      ensures IsRun(old(S()), steps) && S() == Exec(old(S()), steps)
      ensures rows == if r.Stored? then old(rows)[id := Attachment(None, key, uploader)] else old(rows)
      ensures objects - {key} == old(objects) - {key} && (r.Stored? ==> key in objects)
      ensures leaked == old(leaked) + if r in {WriteFailed(true), RowFailed(false)} then {key} else {}
      ensures !r.Abandoned?
    {
      ghost var s0 := S();
      r, steps := Write(key);
      if r != Stored {
        return;
      }
      var committed: bool := *;
      if !committed {
        r, steps := TakeBack(s0, steps, key);
        return;
      }
      rows := rows[id := Attachment(None, key, uploader)];
      steps := Note(s0, steps, CommitRow(id, uploader, key));
    }

    /** The promotion of a completed upload: as StoreFile, but that the session
        is deleted in the row's transaction and an object whose transaction then
        fails is left behind. */
    method Promote(session: Uuid, id: AttId, uploader: Uuid, key: Key) returns (r: Upload, ghost steps: seq<Step>)
      requires key != "" && key !in minted && id !in rows
      modifies this
      ensures IsRun(old(S()), steps) && S() == Exec(old(S()), steps)
      ensures rows == if r.Stored? then old(rows)[id := Attachment(None, key, uploader)] else old(rows)
      ensures sessions == if r.Stored? then old(sessions) - {session} else old(sessions)
      ensures objects - {key} == old(objects) - {key} && (r.Stored? ==> key in objects)
      ensures leaked == old(leaked) + if r in {WriteFailed(true), RowFailed(false), Abandoned} then {key} else {}
    {
      ghost var s0 := S();
      r, steps := Write(key);
      if r != Stored {
        return;
      }
      var created: bool := *;
      if !created {
        r, steps := TakeBack(s0, steps, key);
        return;
      }
      var sessionDeleted: bool, committed: bool := *, *;
      if !sessionDeleted || !committed {
        steps := Note(s0, steps, LeaveUpload(key));
        return Abandoned, steps;
      }
      rows := rows[id := Attachment(None, key, uploader)];
      sessions := sessions - {session};
      steps := Note(s0, steps, CommitRow(id, uploader, key));
    }

    /** blobs.Put, which may fail with the object stored all the same. */
    method Write(key: Key) returns (r: Upload, ghost steps: seq<Step>)
      requires key != "" && key !in minted
      modifies this`objects, this`minted, this`uploading, this`doomed, this`leaked
      ensures r.Stored? || r.WriteFailed?
      ensures steps == [if r.WriteFailed? then PutFailed(key, r.stored) else PutObject(key)]
      ensures IsRun(old(S()), steps) && S() == Exec(old(S()), steps) == Next(old(S()), steps[0])
    {
      ghost var s0 := S();
      var ok: bool, stored: bool := *, *;
      if ok || stored {
        objects := objects + {key};
      }
      r := if ok then Stored else WriteFailed(stored);
      steps := Note(s0, [], if ok then PutObject(key) else PutFailed(key, stored));
    }

    /** The row failed: a best-effort delete of its object. */
    method TakeBack(ghost s0: State, ghost sofar: seq<Step>, key: Key) returns (r: Upload, ghost steps: seq<Step>)
      requires IsRun(s0, sofar) && S() == Exec(s0, sofar) && key in uploading
      modifies this`objects, this`minted, this`uploading, this`doomed, this`leaked
      ensures r.RowFailed? && steps == sofar + [DropUpload(key, r.removed)]
      ensures IsRun(s0, steps) && S() == Exec(s0, steps) == Next(old(S()), DropUpload(key, r.removed))
    {
      var removed: bool := *;
      if removed {
        objects := objects - {key};
      }
      steps := Note(s0, sofar, DropUpload(key, removed));
      r := RowFailed(removed);
    }

    /** Links the uploader's own files that are not sent yet; a link once made is
        never redirected, and no file changes hands. */
    method LinkFiles(ids: set<AttId>, message: MsgId, uploader: Uuid) returns (ghost steps: seq<Step>)
      modifies this
      ensures IsRun(old(S()), steps) && S() == Exec(old(S()), steps)
      ensures rows.Keys == old(rows).Keys
      ensures forall a :: a in rows ==> rows[a].path == old(rows)[a].path && rows[a].uploader == old(rows)[a].uploader
      ensures forall a :: a in rows ==> rows[a].message == old(rows)[a].message || rows[a].message == Some(message)
      ensures forall a :: a in rows && old(rows)[a].message.Some? ==> rows[a] == old(rows)[a]
      ensures forall a :: a in rows && old(rows)[a].message.None? ==>
        (rows[a].message.Some? <==> a in ids && rows[a].uploader == uploader)
    {
      ghost var s0 := S();
      rows := Link(rows, ids, message, uploader);
      steps := Note(s0, [], LinkRows(ids, message, uploader));
    }

    method CopyToMessage(source: MsgId, target: MsgId, uploader: Uuid, copies: map<AttId, AttId>)
      returns (ghost steps: seq<Step>)
      requires IsCopy(rows, source, copies)
      modifies this
      ensures IsRun(old(S()), steps) && S() == Exec(old(S()), steps)
      ensures forall x :: x in copies ==>
        x in rows && copies[x] in old(rows) && rows[x] == Attachment(Some(target), old(rows)[copies[x]].path, uploader)
      ensures forall a :: a in old(rows) ==> a in rows && rows[a] == old(rows)[a]
      ensures rows.Keys == old(rows).Keys + copies.Keys
      ensures forall a :: a in old(rows) ==>
        (old(rows)[a].message == Some(source) <==> exists x :: x in copies && copies[x] == a)
    {
      ghost var s0 := S();
      assert forall x :: x in copies ==> copies[x] in copies.Values;
      assert forall a :: a in rows ==> (rows[a].message == Some(source) <==> a in RowsOf(rows, source));
      rows := Copy(rows, target, uploader, copies);
      steps := Note(s0, [], CopyRows(source, target, uploader, copies));
    }

    /** Deletes stale unlinked rows, then their objects; the first object that
        cannot be deleted ends the pass and leaves the rest behind. */
    method ReapUnlinked(stale: set<AttId>, awaited: set<AttId>) returns (n: nat, ok: bool, ghost steps: seq<Step>)
      modifies this
      ensures IsRun(old(S()), steps) && S() == Exec(old(S()), steps)
      ensures rows == old(rows) - Unlinked(old(rows), stale, awaited) && n == |Unlinked(old(rows), stale, awaited)|
      ensures rows.Keys <= old(rows).Keys && forall a :: a in rows ==> rows[a] == old(rows)[a]
      ensures forall a :: a in old(rows) ==>
        (a !in rows <==> old(rows)[a].message == None && a in stale && a !in awaited)
      ensures ok ==> objects == old(objects) - PathsOf(old(rows), Unlinked(old(rows), stale, awaited))
      ensures ok ==> forall k :: k in objects <==>
        k in old(objects) && !(k != "" && exists a :: a in old(rows) && a !in rows && old(rows)[a].path == k)
      ensures objects <= old(objects)
      ensures Inv(old(S())) ==> Inv(S()) && forall a :: a in rows && rows[a].path != "" ==> rows[a].path in objects
    {
      ghost var s0 := S();
      var gone := Unlinked(rows, stale, awaited);
      var paths := PathsOf(rows, gone);
      rows := rows - gone;
      n, ok := |gone|, true;
      steps := Note(s0, [], ReapRows(stale, awaited));
      ghost var kept, all := rows, paths;
      while paths != {}
        invariant IsRun(s0, steps) && S() == Exec(s0, steps)
        invariant rows == kept && paths <= doomed && paths <= all
        invariant ok ==> objects == old(objects) - (all - paths)
        invariant objects <= old(objects)
        decreases paths
      {
        var p :| p in paths;
        var deleted: bool := *;
        ok := ok && deleted;
        if ok {
          objects := objects - {p};
        }
        paths := paths - {p};
        steps := Note(s0, steps, Purge(p, ok));
      }
      if Inv(s0) {
        RunKeeps(s0, steps);
        assert forall a :: a in rows && rows[a].path != "" ==> rows[a].path in Referenced(rows);
      }
    }
  }
}
