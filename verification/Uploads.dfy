/** Chunked uploads: the arithmetic of chunk sizes, idempotent sends in any
    order, and the assembly of the file. */
module Uploads {
  import opened Common

  type Bytes = seq<bv8>

  /** What InitUpload fixes for good. */
  datatype Session = Session(declared: int, chunk: int)

  ghost predicate Valid(s: Session) {
    s.declared > 0 && s.chunk > 0
  }

  datatype InitError = ErrEmpty | ErrTooLarge | ErrQuarantined | ErrMeta | ErrQuota

  datatype InitResult = Opened(session: Session) | Refused(error: InitError)

  /** What the quarantine, the shape check of the metadata and the quota said. */
  datatype Checks = Checks(allowed: bool, shaped: bool, room: bool)

  /** A session opens for a size that is positive and within the maximum, when
      nothing else objects; and then it can be filled. */
  function InitUpload(declared: int, maxBytes: int, chunk: int, checks: Checks): (r: InitResult)
    ensures r.Opened? <==> 0 < declared <= maxBytes && checks == Checks(true, true, true)
    ensures r.Opened? ==> r.session.declared == declared && r.session.chunk == chunk && (chunk > 0 ==> Valid(r.session))
    ensures r == Refused(ErrEmpty) <==> declared <= 0
    ensures r == Refused(ErrTooLarge) <==> 0 < declared && maxBytes < declared
    ensures r == Refused(ErrQuarantined) <==> 0 < declared <= maxBytes && !checks.allowed
    ensures r == Refused(ErrMeta) <==> 0 < declared <= maxBytes && checks.allowed && !checks.shaped
  {
    if declared <= 0 then Refused(ErrEmpty)
    else if declared > maxBytes then Refused(ErrTooLarge)
    else if !checks.allowed then Refused(ErrQuarantined)
    else if !checks.shaped then Refused(ErrMeta)
    else if !checks.room then Refused(ErrQuota)
    else Opened(Session(declared, chunk))
  }

  function ChunkCount(s: Session): int
    requires Valid(s)
  {
    (s.declared + s.chunk - 1) / s.chunk
  }

  predicate Accepts(s: Session, idx: int, data: Bytes)
    requires Valid(s)
  {
    var count := ChunkCount(s);
    && 0 <= idx < count && 0 < |data| <= s.chunk
    && (idx < count - 1 ==> |data| == s.chunk)
    && (idx == count - 1 ==> |data| == s.declared - (count - 1) * s.chunk)
  }

  // ---- where a chunk lies in the file ----

  /** The first byte of chunk i; past the last chunk, the end of the file. */
  function Offset(s: Session, i: nat): int {
    if i * s.chunk < s.declared then i * s.chunk else s.declared
  }

  /** The ceiling division: count - 1 full chunks do not suffice, count do. */
  lemma CountIsCeiling(s: Session)
    requires Valid(s)
    ensures var n := ChunkCount(s); n >= 1 && (n - 1) * s.chunk < s.declared <= n * s.chunk
  {
  }

  lemma OffsetSteps(s: Session, i: nat)
    requires Valid(s)
    ensures 0 <= Offset(s, i) <= Offset(s, i + 1) <= s.declared
    ensures Offset(s, 0) == 0 && Offset(s, ChunkCount(s)) == s.declared
    ensures i < ChunkCount(s) - 1 ==> Offset(s, i + 1) - Offset(s, i) == s.chunk
    ensures i == ChunkCount(s) - 1 ==> Offset(s, i + 1) - Offset(s, i) == s.declared - i * s.chunk
    ensures i < ChunkCount(s) ==> 0 < Offset(s, i + 1) - Offset(s, i) <= s.chunk
  {
    CountIsCeiling(s);
    var n := ChunkCount(s);
    assert (i + 1) * s.chunk == i * s.chunk + s.chunk;
    assert 0 <= i * s.chunk;
    if i < n - 1 {
      Scale(i + 1, n - 1, s.chunk);
    } else if i >= n {
      Scale(n, i, s.chunk);
    }
  }

  /** A chunk is accepted exactly when it is as long as its place in the file. */
  lemma AcceptedIffItFits(s: Session, idx: int, data: Bytes)
    requires Valid(s)
    ensures Accepts(s, idx, data) <==>
      0 <= idx < ChunkCount(s) && |data| == Offset(s, idx + 1) - Offset(s, idx)
  {
    if 0 <= idx < ChunkCount(s) {
      OffsetSteps(s, idx);
    }
  }

  // ---- stored chunks ----

  type Chunks = map<int, Bytes>

  datatype Send = Send(idx: int, data: Bytes)

  /** INSERT ... ON CONFLICT DO UPDATE, once the sizes check out. */
  function PutChunk(s: Session, chunks: Chunks, idx: int, data: Bytes): Chunks
    requires Valid(s)
  {
    if Accepts(s, idx, data) then chunks[idx := data] else chunks
  }

  function PutAll(s: Session, sends: seq<Send>): Chunks
    requires Valid(s)
    decreases |sends|
  {
    if sends == [] then map[]
    else
      var n := |sends| - 1;
      PutChunk(s, PutAll(s, sends[..n]), sends[n].idx, sends[n].data)
  }

  ghost predicate Fits(s: Session, chunks: Chunks)
    requires Valid(s)
  {
    forall i :: i in chunks ==> 0 <= i < ChunkCount(s) && |chunks[i]| == Offset(s, i + 1) - Offset(s, i)
  }

  lemma {:induction false} SendsFit(s: Session, sends: seq<Send>)
    requires Valid(s)
    ensures Fits(s, PutAll(s, sends))
    decreases |sends|
  {
    if sends != [] {
      var last := sends[|sends| - 1];
      SendsFit(s, sends[..|sends| - 1]);
      AcceptedIffItFits(s, last.idx, last.data);
    }
  }

  /** SELECT idx ... ORDER BY idx, over the indexes below n. */
  function Indexes(chunks: Chunks, n: nat): seq<int> {
    if n == 0 then [] else Indexes(chunks, n - 1) + if n - 1 in chunks then [n - 1] else []
  }

  function Total(chunks: Chunks, n: nat): int {
    if n == 0 then 0 else Total(chunks, n - 1) + if n - 1 in chunks then |chunks[n - 1]| else 0
  }

  /** SELECT data ... ORDER BY idx, appended one after another. */
  function Assembled(chunks: Chunks, n: nat): Bytes {
    if n == 0 then [] else Assembled(chunks, n - 1) + if n - 1 in chunks then chunks[n - 1] else []
  }

  /** The check CompleteUpload makes before it assembles. */
  predicate Complete(s: Session, chunks: Chunks)
    requires Valid(s)
  {
    var n := ChunkCount(s);
    n >= 0 && (
      var received := Indexes(chunks, n);
      && |received| == n && Total(chunks, n) == s.declared
      && forall i :: 0 <= i < n ==> received[i] == i)
  }

  ghost predicate AllPresent(chunks: Chunks, n: nat) {
    forall i :: 0 <= i < n ==> i in chunks
  }

  lemma {:induction false} IndexesCount(chunks: Chunks, n: nat)
    ensures |Indexes(chunks, n)| <= n
    ensures |Indexes(chunks, n)| == n <==> AllPresent(chunks, n)
    ensures AllPresent(chunks, n) ==> forall i :: 0 <= i < n ==> Indexes(chunks, n)[i] == i
  {
    if n > 0 {
      IndexesCount(chunks, n - 1);
    }
  }

  lemma {:induction false} TotalUpTo(s: Session, chunks: Chunks, n: nat)
    requires Valid(s) && Fits(s, chunks) && n <= ChunkCount(s)
    ensures 0 <= Total(chunks, n) <= Offset(s, n)
    ensures Total(chunks, n) == Offset(s, n) <==> AllPresent(chunks, n)
  {
    if n == 0 {
      OffsetSteps(s, 0);
    } else {
      TotalUpTo(s, chunks, n - 1);
      OffsetSteps(s, n - 1);
    }
  }

  /** However the client sends, a session never stores more than it declared. */
  lemma StoredWithinDeclared(s: Session, sends: seq<Send>)
    requires Valid(s)
    ensures ChunkCount(s) >= 0
    ensures var chunks := PutAll(s, sends);
      (forall i :: i in chunks ==> 0 <= i < ChunkCount(s)) && Total(chunks, ChunkCount(s)) <= s.declared
  {
    CountIsCeiling(s);
    SendsFit(s, sends);
    TotalUpTo(s, PutAll(s, sends), ChunkCount(s));
    OffsetSteps(s, 0);
  }

  /** Sends in any order, with repeats and rejected ones among them: the upload
      completes exactly when every index has been accepted. */
  lemma CompletesExactlyWhenAllPresent(s: Session, sends: seq<Send>)
    requires Valid(s)
    ensures Complete(s, PutAll(s, sends)) <==>
      forall i :: 0 <= i < ChunkCount(s) ==> i in PutAll(s, sends)
  {
    CountIsCeiling(s);
    var chunks, n := PutAll(s, sends), ChunkCount(s);
    SendsFit(s, sends);
    IndexesCount(chunks, n);
    TotalUpTo(s, chunks, n);
    OffsetSteps(s, 0);
  }

  // ---- the file comes back ----

  /** What the last accepted send of an index carried. */
  ghost function LastSent(s: Session, sends: seq<Send>, idx: int): Option<Bytes>
    requires Valid(s)
    decreases |sends|
  {
    if sends == [] then None
    else
      var last := sends[|sends| - 1];
      if last.idx == idx && Accepts(s, idx, last.data) then Some(last.data)
      else LastSent(s, sends[..|sends| - 1], idx)
  }

  lemma {:induction false} StoredIsLastSent(s: Session, sends: seq<Send>, idx: int)
    requires Valid(s)
    ensures LastSent(s, sends, idx) ==
      (if idx in PutAll(s, sends) then Some(PutAll(s, sends)[idx]) else None)
    decreases |sends|
  {
    if sends != [] {
      StoredIsLastSent(s, sends[..|sends| - 1], idx);
    }
  }

  lemma {:induction false} AssembledLength(s: Session, chunks: Chunks, n: nat)
    requires Valid(s) && Fits(s, chunks) && n <= ChunkCount(s) && AllPresent(chunks, n)
    ensures |Assembled(chunks, n)| == Offset(s, n)
  {
    if n == 0 {
      OffsetSteps(s, 0);
    } else {
      AssembledLength(s, chunks, n - 1);
      OffsetSteps(s, n - 1);
    }
  }

  lemma {:induction false} AssembledStretch(chunks: Chunks, n: nat, i: nat)
    requires AllPresent(chunks, n) && i < n
    ensures |Assembled(chunks, i)| <= |Assembled(chunks, i + 1)| <= |Assembled(chunks, n)|
    ensures Assembled(chunks, n)[|Assembled(chunks, i)|..|Assembled(chunks, i + 1)|] == chunks[i]
    decreases n
  {
    if i < n - 1 {
      AssembledStretch(chunks, n - 1, i);
      var before := Assembled(chunks, n - 1);
      assert (before + chunks[n - 1])[..|before|] == before;
    }
  }

  lemma AssembledPrefix(s: Session, chunks: Chunks, n: nat, i: nat)
    requires Valid(s) && Fits(s, chunks) && i < n <= ChunkCount(s) && AllPresent(chunks, n)
    ensures |Assembled(chunks, n)| == Offset(s, n)
    ensures Offset(s, i) <= Offset(s, i + 1) <= Offset(s, n)
    ensures Assembled(chunks, n)[Offset(s, i)..Offset(s, i + 1)] == chunks[i]
  {
    AssembledLength(s, chunks, i);
    AssembledLength(s, chunks, i + 1);
    AssembledLength(s, chunks, n);
    AssembledStretch(chunks, n, i);
  }

  /** A completed upload is exactly as long as declared, and every stretch of
      it is what was sent last for that index. */
  lemma CompletedIsWhatWasSent(s: Session, sends: seq<Send>, i: nat)
    requires Valid(s) && Complete(s, PutAll(s, sends)) && i < ChunkCount(s)
    ensures var file := Assembled(PutAll(s, sends), ChunkCount(s));
      && |file| == s.declared
      && 0 <= Offset(s, i) <= Offset(s, i + 1) <= |file|
      && LastSent(s, sends, i) == Some(file[Offset(s, i)..Offset(s, i + 1)])
  {
    var chunks, n := PutAll(s, sends), ChunkCount(s);
    CompletesExactlyWhenAllPresent(s, sends);
    SendsFit(s, sends);
    AssembledPrefix(s, chunks, n, i);
    StoredIsLastSent(s, sends, i);
    OffsetSteps(s, i);
  }

  /** The stretch of the file that chunk i carries. */
  ghost function Slice(s: Session, file: Bytes, i: nat): Bytes
    requires Valid(s) && |file| == s.declared
  {
    OffsetSteps(s, i);
    file[Offset(s, i)..Offset(s, i + 1)]
  }

  ghost predicate SlicesOf(s: Session, file: Bytes, sends: seq<Send>)
    requires Valid(s) && |file| == s.declared
  {
    forall k :: 0 <= k < |sends| && Accepts(s, sends[k].idx, sends[k].data) ==>
      sends[k].data == Slice(s, file, sends[k].idx)
  }

  lemma {:induction false} LastSentIsSlice(s: Session, file: Bytes, sends: seq<Send>, i: nat)
    requires Valid(s) && |file| == s.declared && SlicesOf(s, file, sends)
    requires LastSent(s, sends, i).Some?
    ensures LastSent(s, sends, i).value == Slice(s, file, i)
    decreases |sends|
  {
    var n := |sends| - 1;
    if !(sends[n].idx == i && Accepts(s, i, sends[n].data)) {
      LastSentIsSlice(s, file, sends[..n], i);
    }
  }

  lemma {:induction false} AssembledIsFilePrefix(s: Session, file: Bytes, chunks: Chunks, n: nat)
    requires Valid(s) && |file| == s.declared && n <= ChunkCount(s)
    requires forall i :: 0 <= i < n ==> i in chunks && chunks[i] == Slice(s, file, i)
    ensures 0 <= Offset(s, n) <= |file| && Assembled(chunks, n) == file[..Offset(s, n)]
  {
    if n == 0 {
      OffsetSteps(s, 0);
    } else {
      AssembledIsFilePrefix(s, file, chunks, n - 1);
      OffsetSteps(s, n - 1);
      assert chunks[n - 1] == Slice(s, file, n - 1);
    }
  }

  /** The round trip: cut a file, send the pieces in any order and as often as
      you like; once complete, the assembly is the file. */
  lemma AssembledIsTheFile(s: Session, file: Bytes, sends: seq<Send>)
    requires Valid(s) && |file| == s.declared && SlicesOf(s, file, sends)
    requires Complete(s, PutAll(s, sends))
    ensures Assembled(PutAll(s, sends), ChunkCount(s)) == file
  {
    var chunks, n := PutAll(s, sends), ChunkCount(s);
    CompletesExactlyWhenAllPresent(s, sends);
    forall i | 0 <= i < n
      ensures i in chunks && chunks[i] == Slice(s, file, i)
    {
      StoredIsLastSent(s, sends, i);
      LastSentIsSlice(s, file, sends, i);
    }
    AssembledIsFilePrefix(s, file, chunks, n);
    OffsetSteps(s, 0);
    assert file[..|file|] == file;
  }

  // ---- the session as the service runs it ----

  datatype CompleteResult = Done(file: Bytes) | ErrIncomplete | ErrContent | ErrMismatch

  class UploadSession {
    const session: Session
    var chunks: Chunks

    ghost predicate Ok()
      reads this
    {
      Valid(session) && Fits(session, chunks)
    }

    constructor (s: Session)
      requires Valid(s)
      ensures Ok() && session == s && chunks == map[]
    {
      session, chunks := s, map[];
    }

    method Put(idx: int, data: Bytes) returns (ok: bool)
      requires Ok()
      modifies this
      ensures Ok() && chunks == PutChunk(session, old(chunks), idx, data)
      ensures chunks == if ok then old(chunks)[idx := data] else old(chunks)
      ensures ok <==> 0 <= idx < ChunkCount(session) && |data| == Offset(session, idx + 1) - Offset(session, idx)
    {
      AcceptedIffItFits(session, idx, data);
      var count := ChunkCount(session);
      if idx < 0 || idx >= count || |data| == 0 || |data| > session.chunk {
        return false;
      }
      if idx < count - 1 && |data| != session.chunk {
        return false;
      }
      if idx == count - 1 && |data| != session.declared - (count - 1) * session.chunk {
        return false;
      }
      chunks := chunks[idx := data];
      return true;
    }

    method ChunkIndexes() returns (received: seq<int>, total: int)
      requires Ok()
      ensures ChunkCount(session) >= 0
      ensures received == Indexes(chunks, ChunkCount(session)) && total == Total(chunks, ChunkCount(session))
    {
      CountIsCeiling(session);
      received, total := [], 0;
      for i := 0 to ChunkCount(session)
        invariant received == Indexes(chunks, i) && total == Total(chunks, i)
      {
        if i in chunks {
          received := received + [i];
          total := total + |chunks[i]|;
        }
      }
    }

    method AssembleChunks() returns (out: Bytes)
      requires Ok()
      ensures ChunkCount(session) >= 0 && out == Assembled(chunks, ChunkCount(session))
    {
      CountIsCeiling(session);
      out := [];
      for i := 0 to ChunkCount(session)
        invariant out == Assembled(chunks, i)
      {
        if i in chunks {
          out := out + chunks[i];
        }
      }
    }

    /** `clean` is what the inspection says of the assembled bytes, `fits` whether
        the session's metadata agrees with the content found. */
    method CompleteUpload(clean: bool, fits: bool) returns (r: CompleteResult)
      requires Ok()
      ensures r.Done? <==> clean && fits && forall i :: 0 <= i < ChunkCount(session) ==> i in chunks
      ensures r == ErrIncomplete <==> !forall i :: 0 <= i < ChunkCount(session) ==> i in chunks
      ensures r.Done? ==> ChunkCount(session) >= 0 && r.file == Assembled(chunks, ChunkCount(session))
      ensures r.Done? ==> |r.file| == session.declared
    {
      var count := ChunkCount(session);
      CountIsCeiling(session);
      IndexesCount(chunks, count);
      TotalUpTo(session, chunks, count);
      OffsetSteps(session, 0);
      var received, total := ChunkIndexes();
      if |received| != count || total != session.declared {
        return ErrIncomplete;
      }
      for i := 0 to |received| {
        if received[i] != i {
          return ErrIncomplete;
        }
      }
      var file := AssembleChunks();
      AssembledPrefix(session, chunks, count, 0);
      if !clean {
        return ErrContent;
      }
      if !fits {
        return ErrMismatch;
      }
      return Done(file);
    }
  }
}
