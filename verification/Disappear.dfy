/** The disappearing-message reaper: expired rows, their thread counters, the
    cascade onto attachments and the purge of stored objects. */
module Disappear {
  import opened Common

  type MsgId = Uuid
  type AttId = Uuid
  type Key = string

  datatype Message = Message(expiresAt: Option<int>, root: Option<MsgId>, replies: int)

  /** An attachment row; the empty path means the bytes are inline. */
  datatype Attachment = Attachment(message: Option<MsgId>, path: Key, uploader: Uuid)

  datatype Db = Db(messages: map<MsgId, Message>, attachments: map<AttId, Attachment>, objects: set<Key>)

  predicate IsExpired(m: Message, now: int) {
    m.expiresAt.Some? && m.expiresAt.value <= now
  }

  function Expired(messages: map<MsgId, Message>, now: int): set<MsgId> {
    set id | id in messages && IsExpired(messages[id], now)
  }

  // ---- DeleteMessages ----

  /** Rows of the batch that are replies to `root` (the "gone" CTE). */
  function Gone(messages: map<MsgId, Message>, ids: set<MsgId>, root: MsgId): set<MsgId> {
    set id | id in messages && id in ids && messages[id].root == Some(root)
  }

  /** A surviving row: GREATEST(count - gone, 0) where the batch held replies to
      it, and a dangling thread root set to NULL. */
  function Survivor(messages: map<MsgId, Message>, ids: set<MsgId>, id: MsgId): Message
    requires id in messages
  {
    var m := messages[id];
    var n := |Gone(messages, ids, id)|;
    m.(root := if m.root.Some? && m.root.value in ids then None else m.root,
       replies := if n > 0 then Max(m.replies - n, 0) else m.replies)
  }

  function DeleteMessages(messages: map<MsgId, Message>, ids: set<MsgId>): map<MsgId, Message> {
    map id | id in messages && id !in ids :: Survivor(messages, ids, id)
  }

  // ---- attachments ----

  predicate InBatch(a: Attachment, ids: set<MsgId>) {
    a.message.Some? && a.message.value in ids
  }

  function Refs(atts: map<AttId, Attachment>, key: Key): set<AttId> {
    set a | a in atts && atts[a].path == key
  }

  function BatchRefs(atts: map<AttId, Attachment>, ids: set<MsgId>, key: Key): set<AttId> {
    set a | a in atts && atts[a].path == key && InBatch(atts[a], ids)
  }

  /** The keys whose count of references inside the batch equals their count
      of references anywhere (GROUP BY ... HAVING COUNT). */
  function ExclusiveKeys(atts: map<AttId, Attachment>, ids: set<MsgId>): set<Key> {
    set a | a in atts && InBatch(atts[a], ids) && atts[a].path != ""
            && |BatchRefs(atts, ids, atts[a].path)| == |Refs(atts, atts[a].path)| :: atts[a].path
  }

  function Cascade(atts: map<AttId, Attachment>, ids: set<MsgId>): map<AttId, Attachment> {
    map a | a in atts && !InBatch(atts[a], ids) :: atts[a]
  }

  function Reap(db: Db, ids: set<MsgId>): Db {
    Db(DeleteMessages(db.messages, ids), Cascade(db.attachments, ids),
       db.objects - ExclusiveKeys(db.attachments, ids))
  }

  /** The count comparison says what the comment promises: a key is purged
      exactly when every row that references it leaves with the batch. */
  lemma PurgedExactlyWhenUnreferenced(atts: map<AttId, Attachment>, ids: set<MsgId>, key: Key)
    ensures key in ExclusiveKeys(atts, ids) <==>
      key != "" && (exists a :: a in BatchRefs(atts, ids, key)) && Refs(Cascade(atts, ids), key) == {}
  {
    SubsetSize(BatchRefs(atts, ids, key), Refs(atts, key));
    assert Refs(Cascade(atts, ids), key) == Refs(atts, key) - BatchRefs(atts, ids, key);
    if a :| a in BatchRefs(atts, ids, key) && key != "" && Refs(Cascade(atts, ids), key) == {} {
      forall x | x in Refs(atts, key)
        ensures x in BatchRefs(atts, ids, key)
      {
        assert x !in Refs(Cascade(atts, ids), key);
      }
      assert BatchRefs(atts, ids, key) == Refs(atts, key);
      assert atts[a].path == key;
    }
    if key in ExclusiveKeys(atts, ids) {
      var a :| a in atts && InBatch(atts[a], ids) && atts[a].path == key;
      assert a in BatchRefs(atts, ids, key);
    }
  }

  // ---- two batches are one ----

  lemma GoneTwice(messages: map<MsgId, Message>, a: set<MsgId>, b: set<MsgId>, root: MsgId)
    requires root !in a
    ensures |Gone(messages, a + b, root)| == |Gone(messages, a, root)| + |Gone(DeleteMessages(messages, a), b, root)|
  {
    var first, second := Gone(messages, a, root), Gone(DeleteMessages(messages, a), b, root);
    assert first !! second;
    assert Gone(messages, a + b, root) == first + second;
  }

  lemma DeleteTwice(messages: map<MsgId, Message>, a: set<MsgId>, b: set<MsgId>)
    ensures DeleteMessages(DeleteMessages(messages, a), b) == DeleteMessages(messages, a + b)
  {
    var twice, once := DeleteMessages(DeleteMessages(messages, a), b), DeleteMessages(messages, a + b);
    assert twice.Keys == once.Keys;
    forall id | id in once
      ensures twice[id] == once[id]
    {
      GoneTwice(messages, a, b, id);
    }
  }

  lemma ExclusiveTwice(atts: map<AttId, Attachment>, a: set<MsgId>, b: set<MsgId>)
    ensures ExclusiveKeys(atts, a + b) == ExclusiveKeys(atts, a) + ExclusiveKeys(Cascade(atts, a), b)
    ensures Cascade(Cascade(atts, a), b) == Cascade(atts, a + b)
  {
    var rest := Cascade(atts, a);
    assert Cascade(rest, b) == Cascade(atts, a + b);
    forall key
      ensures key in ExclusiveKeys(atts, a + b) <==> key in ExclusiveKeys(atts, a) + ExclusiveKeys(rest, b)
    {
      PurgedExactlyWhenUnreferenced(atts, a + b, key);
      PurgedExactlyWhenUnreferenced(atts, a, key);
      PurgedExactlyWhenUnreferenced(rest, b, key);
      assert BatchRefs(atts, a + b, key) == BatchRefs(atts, a, key) + BatchRefs(rest, b, key);
      if Refs(rest, key) == {} {
        assert Refs(Cascade(rest, b), key) == {} && BatchRefs(rest, b, key) == {};
      } else if Refs(Cascade(rest, b), key) == {} {
        var x :| x in Refs(rest, key);
        assert x !in Refs(Cascade(rest, b), key);
        assert x in BatchRefs(rest, b, key);
      }
    }
  }

  /** Reaping one batch after another is reaping their union: same survivors,
      same counters in spite of the clamp, same objects in spite of sharing. */
  lemma ReapTwice(db: Db, a: set<MsgId>, b: set<MsgId>)
    ensures Reap(Reap(db, a), b) == Reap(db, a + b)
  {
    DeleteTwice(db.messages, a, b);
    ExclusiveTwice(db.attachments, a, b);
  }

  lemma ExpiredAfterReap(db: Db, ids: set<MsgId>, now: int)
    ensures Expired(Reap(db, ids).messages, now) == Expired(db.messages, now) - ids
  {
  }

  /** What the one-shot reap means for a row that survives it: its counter
      drops by exactly the expired replies, but never below zero. */
  lemma SurvivorCounter(db: Db, now: int, id: MsgId)
    requires id in db.messages && !IsExpired(db.messages[id], now) && db.messages[id].replies >= 0
    ensures var gone := Gone(db.messages, Expired(db.messages, now), id);
      && id in Reap(db, Expired(db.messages, now)).messages
      && Reap(db, Expired(db.messages, now)).messages[id].replies == Max(db.messages[id].replies - |gone|, 0)
  {
  }

  /** Nothing that is kept loses its bytes: a purged key has no row left. */
  lemma ReapSparesReferencedObjects(db: Db, ids: set<MsgId>, a: AttId)
    requires a in Reap(db, ids).attachments
    requires db.attachments[a].path in db.objects
    ensures Reap(db, ids).attachments[a].path in Reap(db, ids).objects
  {
    var key := db.attachments[a].path;
    PurgedExactlyWhenUnreferenced(db.attachments, ids, key);
    assert a in Refs(Cascade(db.attachments, ids), key);
  }

  // ---- claiming ----

  /** SELECT ... WHERE expires_at <= now ORDER BY expires_at LIMIT limit. */
  ghost predicate IsClaim(messages: map<MsgId, Message>, now: int, limit: nat, refs: seq<MsgId>) {
    && (forall i :: 0 <= i < |refs| ==> Due(messages, now, refs[i]))
    && (forall i, j :: 0 <= i < j < |refs| ==> refs[i] != refs[j])
    && (forall i, j :: 0 <= i < j < |refs| ==> messages[refs[i]].expiresAt.value <= messages[refs[j]].expiresAt.value)
    && (forall i, id :: 0 <= i < |refs| && Due(messages, now, id) && id !in refs ==>
          messages[refs[i]].expiresAt.value <= messages[id].expiresAt.value)
    && |refs| <= limit
    && (|refs| < limit ==> forall id :: Due(messages, now, id) ==> id in refs)
  }

  /** The message has an expiry, and it is not later than now. */
  ghost predicate Due(messages: map<MsgId, Message>, now: int, id: MsgId) {
    id in messages && messages[id].expiresAt != None && messages[id].expiresAt.value <= now
  }

  lemma {:induction false} EarliestExists(messages: map<MsgId, Message>, ids: set<MsgId>) returns (first: MsgId)
    requires ids != {} && forall id :: id in ids ==> id in messages && messages[id].expiresAt.Some?
    ensures first in ids
    ensures forall id :: id in ids ==> messages[first].expiresAt.value <= messages[id].expiresAt.value
    decreases |ids|
  {
    first :| first in ids;
    if x :| x in ids && x != first {
      assert x in ids - {first};
      var other := EarliestExists(messages, ids - {first});
      if messages[other].expiresAt.value < messages[first].expiresAt.value {
        first := other;
      }
    }
  }

  // ---- what a drain means ----

  /** The rows after a drain, told from the rows before it and the time. */
  ghost predicate Drained(was: Db, now: int, left: Db) {
    && left.messages.Keys <= was.messages.Keys
    && (forall id :: id in was.messages ==>
          (id in left.messages <==> was.messages[id].expiresAt == None || was.messages[id].expiresAt.value > now))
    && (forall id :: id in left.messages ==> SurvivesAs(was, left, id))
    && (forall a :: a in left.attachments ==> a in was.attachments && left.attachments[a] == was.attachments[a])
    && (forall a :: a in was.attachments ==>
          (a in left.attachments <==>
             was.attachments[a].message == None || Stays(was, left, was.attachments[a].message.value)))
    && (forall k :: k in left.objects <==>
          k in was.objects && !(k != "" && !Uses(left, k) && Orphaned(was, left, k)))
  }

  ghost predicate Stays(was: Db, left: Db, id: MsgId) { id in was.messages ==> id in left.messages }

  /** A message that stays loses its root if that is gone, and as many replies from
      its counter as are gone, but not below zero. */
  ghost predicate SurvivesAs(was: Db, left: Db, id: MsgId)
    requires id in left.messages && left.messages.Keys <= was.messages.Keys
  {
    var m := was.messages[id];
    var gone := set r | r in was.messages && r !in left.messages && was.messages[r].root == Some(id);
    && left.messages[id].expiresAt == m.expiresAt
    && left.messages[id].root == (if m.root != None && !Stays(was, left, m.root.value) then None else m.root)
    && (m.replies >= 0 ==> left.messages[id].replies == Max(m.replies - |gone|, 0))
  }

  ghost predicate Uses(db: Db, k: Key) { exists a :: a in db.attachments && db.attachments[a].path == k }

  /** Some file with this key went with a message. */
  ghost predicate Orphaned(was: Db, left: Db, k: Key) {
    exists a :: a in was.attachments && a !in left.attachments && was.attachments[a].path == k
  }

  lemma ReapDrainsMessages(db: Db, now: int)
    ensures var left := Reap(db, Expired(db.messages, now));
      && left.messages.Keys <= db.messages.Keys
      && (forall id :: id in db.messages ==>
            (id in left.messages <==> db.messages[id].expiresAt == None || db.messages[id].expiresAt.value > now))
      && (forall id :: id in left.messages ==> SurvivesAs(db, left, id))
  {
    var left := Reap(db, Expired(db.messages, now));
    forall id | id in left.messages
      ensures SurvivesAs(db, left, id)
    {
      assert Gone(db.messages, Expired(db.messages, now), id)
        == set r | r in db.messages && r !in left.messages && db.messages[r].root == Some(id);
    }
  }

  lemma ReapDrainsObjects(db: Db, now: int, k: Key)
    ensures var left := Reap(db, Expired(db.messages, now));
      k in left.objects <==> k in db.objects && !(k != "" && !Uses(left, k) && Orphaned(db, left, k))
  {
    var ids := Expired(db.messages, now);
    var left := Reap(db, ids);
    PurgedExactlyWhenUnreferenced(db.attachments, ids, k);
    if a :| a in BatchRefs(db.attachments, ids, k) {
      assert a in db.attachments && a !in left.attachments && db.attachments[a].path == k;
    }
    if a :| a in db.attachments && a !in left.attachments && db.attachments[a].path == k {
      assert a in BatchRefs(db.attachments, ids, k);
    }
    if a :| a in left.attachments && left.attachments[a].path == k {
      assert a in Refs(Cascade(db.attachments, ids), k);
    }
    if a :| a in Refs(Cascade(db.attachments, ids), k) {
      assert a in left.attachments && left.attachments[a].path == k;
    }
  }

  /** Reaping everything expired leaves exactly what was described. */
  lemma ReapDrains(db: Db, now: int)
    ensures Drained(db, now, Reap(db, Expired(db.messages, now)))
  {
    ReapDrainsMessages(db, now);
    forall k
      ensures var left := Reap(db, Expired(db.messages, now));
        k in left.objects <==> k in db.objects && !(k != "" && !Uses(left, k) && Orphaned(db, left, k))
    {
      ReapDrainsObjects(db, now, k);
    }
  }

  // ---- the worker ----

  const BATCH: nat := 100

  /** A claim under way: `refs` taken in order, `left` still to come. */
  ghost predicate Claiming(messages: map<MsgId, Message>, now: int, refs: seq<MsgId>, left: set<MsgId>) {
    && left <= Expired(messages, now)
    && (forall id :: id in Expired(messages, now) ==> (id in left <==> id !in refs))
    && (forall i :: 0 <= i < |refs| ==> refs[i] in Expired(messages, now))
    && (forall i, j :: 0 <= i < j < |refs| ==> refs[i] != refs[j])
    && (forall i, j :: 0 <= i < j < |refs| ==>
          messages[refs[i]].expiresAt.value <= messages[refs[j]].expiresAt.value)
    && (forall i, id :: 0 <= i < |refs| && id in left ==>
          messages[refs[i]].expiresAt.value <= messages[id].expiresAt.value)
  }

  lemma ClaimOneMore(messages: map<MsgId, Message>, now: int, refs: seq<MsgId>, left: set<MsgId>, first: MsgId)
    requires Claiming(messages, now, refs, left) && first in left
    requires forall id :: id in left ==> messages[first].expiresAt.value <= messages[id].expiresAt.value
    ensures Claiming(messages, now, refs + [first], left - {first})
  {
    assert forall id :: id in refs + [first] <==> id in refs || id == first;
  }

  lemma ClaimMade(messages: map<MsgId, Message>, now: int, limit: nat, refs: seq<MsgId>, left: set<MsgId>)
    requires Claiming(messages, now, refs, left) && |refs| <= limit && (left == {} || |refs| == limit)
    ensures IsClaim(messages, now, limit, refs)
  {
    assert forall id :: Due(messages, now, id) <==> id in Expired(messages, now);
  }

  class Reaper {
    var messages: map<MsgId, Message>
    var attachments: map<AttId, Attachment>
    var objects: set<Key>
    /** message.deleted frames sent, in order. */
    var announced: seq<MsgId>

    ghost function D(): Db
      reads this
    {
      Db(messages, attachments, objects)
    }

    method ClaimExpired(now: int, limit: nat) returns (refs: seq<MsgId>)
      ensures IsClaim(messages, now, limit, refs)
    {
      refs := [];
      var left := Expired(messages, now);
      while left != {} && |refs| < limit
        invariant Claiming(messages, now, refs, left) && |refs| <= limit
        decreases left
      {
        ghost var earliest := EarliestExists(messages, left);
        var first :| first in left
          && forall id :: id in left ==> messages[first].expiresAt.value <= messages[id].expiresAt.value;
        ClaimOneMore(messages, now, refs, left, first);
        left := left - {first};
        refs := refs + [first];
      }
      ClaimMade(messages, now, limit, refs, left);
    }

    /** One transaction on the rows, then the purge and the fan-out. */
    method ProcessExpired(now: int, batch: nat) returns (n: nat, ghost refs: seq<MsgId>)
      modifies this
      ensures IsClaim(old(messages), now, batch, refs) && n == |refs|
      ensures D() == Reap(old(D()), ToSet(refs))
      ensures announced == old(announced) + refs
    {
      var claimed := ClaimExpired(now, batch);
      refs := claimed;
      if |claimed| == 0 {
        assert ToSet(refs) == {};
        return 0, claimed;
      }
      var ids := ToSet(claimed);
      var keys := ExclusiveKeys(attachments, ids);
      messages := DeleteMessages(messages, ids);
      attachments := Cascade(attachments, ids);
      ghost var all := keys;
      while keys != {}
        invariant messages == DeleteMessages(old(messages), ids)
        invariant attachments == Cascade(old(attachments), ids)
        invariant announced == old(announced)
        invariant objects == old(objects) - (all - keys)
        invariant keys <= all
        decreases keys
      {
        var key :| key in keys;
        objects := objects - {key};
        keys := keys - {key};
      }
      assert objects == old(objects) - all;
      var i := 0;
      while i < |claimed|
        invariant 0 <= i <= |claimed|
        invariant D() == Reap(old(D()), ids)
        invariant announced == old(announced) + claimed[..i]
      {
        announced := announced + [claimed[i]];
        i := i + 1;
      }
      assert claimed[..i] == claimed;
      n := |claimed|;
    }

    /** How far a drain that started from `db` has come. */
    ghost predicate Reaped(db: Db, now: int, told: seq<MsgId>)
      reads this
    {
      && ToSet(told) <= Expired(db.messages, now)
      && |ToSet(told)| == |told| <= |Expired(db.messages, now)|
      && D() == Reap(db, ToSet(told))
    }

    /** One round of the drain loop. */
    method Pass(now: int, ghost db: Db, ghost told: seq<MsgId>) returns (n: nat, ghost told': seq<MsgId>)
      requires Reaped(db, now, told)
      modifies this
      ensures Reaped(db, now, told') && |told'| == |told| + n
      ensures n < BATCH ==> ToSet(told') == Expired(db.messages, now)
      ensures told <= told' && announced == old(announced) + told'[|told|..]
    {
      ghost var refs;
      n, refs := ProcessExpired(now, BATCH);
      BatchDone(db, now, told, refs, n);
      told' := told + refs;
    }

    /** The drain loop of one reaper tick. */
    method Drain(now: int)
      modifies this
      ensures D() == Reap(old(D()), Expired(old(messages), now))
      ensures Drained(old(D()), now, D())
      ensures Expired(messages, now) == {}
      ensures old(announced) <= announced
      ensures ToSet(announced[|old(announced)|..]) == Expired(old(messages), now)
      ensures |announced| == |old(announced)| + |Expired(old(messages), now)|
      ensures forall id :: id in announced[|old(announced)|..] <==> id in old(messages) && id !in messages
    {
      ghost var db, before := D(), announced;
      ghost var told: seq<MsgId> := [];
      assert ToSet(told) == {};
      var n := BATCH;
      while n >= BATCH
        invariant Reaped(db, now, told)
        invariant n < BATCH ==> ToSet(told) == Expired(db.messages, now)
        invariant announced == before + told
        decreases |Expired(db.messages, now)| - |told|, n
      {
        n, told := Pass(now, db, told);
      }
      ExpiredAfterReap(db, ToSet(told), now);
      ReapDrains(db, now);
      assert announced[|before|..] == told;
      assert forall id :: id in told <==> id in ToSet(told);
    }
  }

  /** One more batch of a drain: the state, what is left and the progress. */
  lemma BatchDone(db: Db, now: int, told: seq<MsgId>, refs: seq<MsgId>, n: nat)
    requires ToSet(told) <= Expired(db.messages, now) && |ToSet(told)| == |told|
    requires IsClaim(Reap(db, ToSet(told)).messages, now, BATCH, refs) && n == |refs|
    ensures ToSet(told + refs) <= Expired(db.messages, now)
    ensures |ToSet(told + refs)| == |told + refs| <= |Expired(db.messages, now)|
    ensures Reap(Reap(db, ToSet(told)), ToSet(refs)) == Reap(db, ToSet(told + refs))
    ensures Expired(Reap(db, ToSet(told + refs)).messages, now) == Expired(db.messages, now) - ToSet(told + refs)
    ensures n < BATCH ==> ToSet(told + refs) == Expired(db.messages, now)
  {
    var all := Expired(db.messages, now);
    assert ToSet(told + refs) == ToSet(told) + ToSet(refs);
    assert |told + refs| == |told| + |refs|;
    ReapTwice(db, ToSet(told), ToSet(refs));
    ExpiredAfterReap(db, ToSet(told), now);
    ExpiredAfterReap(db, ToSet(told + refs), now);
    forall x | x in ToSet(refs)
      ensures x in all && x !in ToSet(told)
    {
      assert x in Expired(Reap(db, ToSet(told)).messages, now);
    }
    assert ToSet(told) !! ToSet(refs);
    DistinctSize(refs);
    SubsetSize(ToSet(told + refs), all);
    if n < BATCH {
      forall x | x in all
        ensures x in ToSet(told + refs)
      {
        if x !in ToSet(told) {
          assert x in Expired(Reap(db, ToSet(told)).messages, now);
        }
      }
    }
  }
}
