/** Two other places remove attachment rows: the deletion of an account, which
    purges its keys without a reference check, and the deletion of a group's
    messages, which purges nothing. Runs of these together with all the steps of
    Attachments. */
module AttachmentRemovals {
  import opened Common
  import opened Disappear
  import opened Attachments

  /** `failed` are the keys whose purge the deletion of an account only logs. */
  datatype Event =
    | Plain(step: Step)
    | DropAccount(uploader: Uuid, failed: set<Key>)
    | DropGroup(messages: set<MsgId>)

  /** `lost` are the keys that account deletions ever purged. */
  datatype World = World(s: State, lost: set<Key>)

  const START := World(EMPTY, {})

  function KeysOf(rows: map<AttId, Attachment>, uploader: Uuid): set<Key> {
    set a | a in rows && rows[a].uploader == uploader && rows[a].path != "" :: rows[a].path
  }

  function WithoutUploader(rows: map<AttId, Attachment>, uploader: Uuid): map<AttId, Attachment> {
    map a | a in rows && rows[a].uploader != uploader :: rows[a]
  }

  ghost predicate MayHappen(w: World, e: Event) { e.Plain? ==> Enabled(w.s, e.step) }

  ghost function Following(w: World, e: Event): World
    requires MayHappen(w, e)
  {
    match e
    case Plain(step) => w.(s := Next(w.s, step))
    case DropAccount(u, failed) =>
      var keys, rest := KeysOf(w.s.rows, u), WithoutUploader(w.s.rows, u);
      World(w.s.(rows := rest, objects := w.s.objects - (keys - failed),
                 leaked := w.s.leaked + (keys * failed - Referenced(rest))),
            w.lost + (keys - failed))
    case DropGroup(messages) =>
      w.(s := w.s.(rows := Cascade(w.s.rows, messages), leaked := w.s.leaked + ExclusiveKeys(w.s.rows, messages)))
  }

  // ---- the invariant ----

  /** The state with every object in place that an account deletion took away. */
  ghost function Whole(s: State): State {
    s.(objects := Referenced(s.rows) + s.uploading + s.doomed + s.leaked)
  }

  /** Put the lost objects back, and the invariant of Attachments holds. */
  ghost predicate WorldInv(w: World) {
    && Inv(Whole(w.s)) && w.s.objects == Whole(w.s).objects - w.lost
    && w.lost <= w.s.minted && w.lost !! w.s.uploading
  }

  lemma PlainKeeps(w: World, e: Event)
    requires WorldInv(w) && e.Plain? && MayHappen(w, e)
    ensures WorldInv(Following(w, e))
  {
    var whole := Whole(w.s);
    StepKeeps(whole, e.step);
    assert Whole(Next(w.s, e.step)) == Next(whole, e.step);
  }

  lemma AccountSplitsKeys(rows: map<AttId, Attachment>, uploader: Uuid)
    ensures Referenced(rows) == Referenced(WithoutUploader(rows, uploader)) + KeysOf(rows, uploader)
    ensures SoleOwners(rows) ==> SoleOwners(WithoutUploader(rows, uploader))
  {
    var rest := WithoutUploader(rows, uploader);
    forall k | k in Referenced(rows)
      ensures k in Referenced(rest) + KeysOf(rows, uploader)
    {
      var a :| a in rows && rows[a].path == k && k != "";
      assert rows[a].uploader != uploader ==> a in rest && rest[a].path == k;
    }
    forall k | k in Referenced(rest)
      ensures k in Referenced(rows)
    {
      var a :| a in rest && rest[a].path == k && k != "";
      assert rows[a].path == k;
    }
  }

  lemma AccountKeeps(w: World, e: Event)
    requires WorldInv(w) && e.DropAccount?
    ensures WorldInv(Following(w, e))
  {
    AccountSplitsKeys(w.s.rows, e.uploader);
  }

  lemma GroupSplitsKeys(rows: map<AttId, Attachment>, messages: set<MsgId>)
    ensures Referenced(rows) == Referenced(Cascade(rows, messages)) + ExclusiveKeys(rows, messages)
    ensures Referenced(Cascade(rows, messages)) !! ExclusiveKeys(rows, messages)
    ensures SoleOwners(rows) ==> SoleOwners(Cascade(rows, messages))
  {
    forall k
      ensures k in Referenced(rows) && k !in Referenced(Cascade(rows, messages)) <==> k in ExclusiveKeys(rows, messages)
      ensures k in Referenced(Cascade(rows, messages)) ==> k in Referenced(rows)
    {
      PurgedExactlyWhenUnreferenced(rows, messages, k);
      RemainingRefs(rows, messages, k);
    }
  }

  lemma RemainingRefs(rows: map<AttId, Attachment>, messages: set<MsgId>, k: Key)
    ensures k in Referenced(Cascade(rows, messages)) <==> k != "" && Refs(Cascade(rows, messages), k) != {}
    ensures k in Referenced(rows) <==> k != "" && Refs(rows, k) != {}
    ensures Refs(Cascade(rows, messages), k) == Refs(rows, k) - BatchRefs(rows, messages, k)
  {
    ReferencedIff(rows, k);
    ReferencedIff(Cascade(rows, messages), k);
  }

  lemma ReferencedIff(rows: map<AttId, Attachment>, k: Key)
    ensures k in Referenced(rows) <==> k != "" && Refs(rows, k) != {}
  {
    if k in Referenced(rows) {
      var a :| a in rows && rows[a].path == k && k != "";
      assert a in Refs(rows, k);
    }
    if a :| a in Refs(rows, k) {
      assert rows[a].path == k;
    }
  }

  lemma GroupKeeps(w: World, e: Event)
    requires WorldInv(w) && e.DropGroup?
    ensures WorldInv(Following(w, e))
  {
    GroupSplitsKeys(w.s.rows, e.messages);
  }

  // ---- runs ----

  /** The world before and after each event. */
  ghost predicate IsHistory(worlds: seq<World>, events: seq<Event>) {
    && |worlds| == |events| + 1 && worlds[0] == START
    && forall k {:trigger events[k]} :: 0 <= k < |events| ==>
         MayHappen(worlds[k], events[k]) && worlds[k + 1] == Following(worlds[k], events[k])
  }

  lemma {:induction false} HistoryKeeps(worlds: seq<World>, events: seq<Event>, n: nat)
    requires IsHistory(worlds, events) && n < |worlds|
    ensures WorldInv(worlds[n])
  {
    if n > 0 {
      HistoryKeeps(worlds, events, n - 1);
      match events[n - 1] {
        case Plain(_) => PlainKeeps(worlds[n - 1], events[n - 1]);
        case DropAccount(_, _) => AccountKeeps(worlds[n - 1], events[n - 1]);
        case DropGroup(_) => GroupKeeps(worlds[n - 1], events[n - 1]);
      }
    }
  }

  /** One of the uploader's files has this key. */
  ghost predicate UsedBy(rows: map<AttId, Attachment>, uploader: Uuid, k: Key) {
    k != "" && exists a :: a in rows && rows[a].uploader == uploader && rows[a].path == k
  }

  /** Some file has this key, and every file that has it belongs to these messages. */
  ghost predicate UsedOnlyIn(rows: map<AttId, Attachment>, messages: set<MsgId>, k: Key) {
    && k != "" && (exists a :: a in rows && rows[a].path == k)
    && forall a :: a in rows && rows[a].path == k ==> rows[a].message.Some? && rows[a].message.value in messages
  }

  /** This event takes the object away, whoever else uses it. */
  ghost predicate Purges(w: World, e: Event, k: Key) {
    e.DropAccount? && k !in e.failed && UsedBy(w.s.rows, e.uploader, k)
  }

  /** This event lets go of the last use of the object without deleting it. */
  ghost predicate LetsGo(w: World, e: Event, k: Key) {
    match e
    case Plain(step) => Leaks(step) && step.key == k
    case DropAccount(u, failed) => 
      && k in failed && UsedBy(w.s.rows, u, k)
      && forall a :: a in w.s.rows && w.s.rows[a].path == k ==> w.s.rows[a].uploader == u
    case DropGroup(messages) => UsedOnlyIn(w.s.rows, messages, k)
  }

  ghost predicate EverPurged(worlds: seq<World>, events: seq<Event>, n: nat, k: Key)
    requires IsHistory(worlds, events) && n <= |events|
  {
    exists j :: 0 <= j < n && Purges(worlds[j], events[j], k)
  }

  ghost predicate EverLetGo(worlds: seq<World>, events: seq<Event>, n: nat, k: Key)
    requires IsHistory(worlds, events) && n <= |events|
  {
    exists j :: 0 <= j < n && LetsGo(worlds[j], events[j], k)
  }

  lemma OneEvent(w: World, e: Event, k: Key)
    requires MayHappen(w, e)
    ensures k in Following(w, e).lost <==> k in w.lost || Purges(w, e, k)
    ensures k in Following(w, e).s.leaked <==> k in w.s.leaked || LetsGo(w, e, k)
  {
    match e {
      case Plain(_) =>
      case DropAccount(u, _) => AccountKeys(w.s.rows, u, k);
      case DropGroup(messages) => GroupKeys(w.s.rows, messages, k);
    }
  }

  lemma AccountKeys(rows: map<AttId, Attachment>, u: Uuid, k: Key)
    ensures k in KeysOf(rows, u) <==> UsedBy(rows, u, k)
    ensures k != "" ==>
      (k in Referenced(WithoutUploader(rows, u)) <==> exists a :: a in rows && rows[a].path == k && rows[a].uploader != u)
  {
    var rest := WithoutUploader(rows, u);
    if a :| a in rows && rows[a].path == k && rows[a].uploader != u {
      assert a in rest && rest[a].path == k;
    }
  }

  lemma GroupKeys(rows: map<AttId, Attachment>, messages: set<MsgId>, k: Key)
    ensures k in ExclusiveKeys(rows, messages) <==> UsedOnlyIn(rows, messages, k)
  {
    GroupSplitsKeys(rows, messages);
    var rest := Cascade(rows, messages);
    if a :| a in rows && rows[a].path == k && !(rows[a].message.Some? && rows[a].message.value in messages) {
      assert a in rest && rest[a].path == k;
    }
  }

  /** The rows that go: all of the account's, or all of the group's messages. */
  lemma RowsThatGo(w: World, e: Event, a: AttId)
    requires MayHappen(w, e) && !e.Plain?
    ensures var rows, rows' := w.s.rows, Following(w, e).s.rows;
      && (a in rows' <==> a in rows && match e
            case DropAccount(u, _) => rows[a].uploader != u
            case DropGroup(messages) => rows[a].message.None? || rows[a].message.value !in messages)
      && (a in rows' ==> rows'[a] == rows[a])
  {
  }

  lemma {:induction false} TracedBack(worlds: seq<World>, events: seq<Event>, n: nat, k: Key)
    requires IsHistory(worlds, events) && n <= |events|
    ensures k in worlds[n].lost <==> EverPurged(worlds, events, n, k)
    ensures k in worlds[n].s.leaked <==> EverLetGo(worlds, events, n, k)
  {
    if n > 0 {
      TracedBack(worlds, events, n - 1, k);
      OneEvent(worlds[n - 1], events[n - 1], k);
    }
  }

  // ---- what is broken and what is left ----

  /** Over every run a file is broken if and only if the deletion of some account
      purged its key: one of that account's files shared it. */
  lemma DanglesIff(worlds: seq<World>, events: seq<Event>, a: AttId)
    requires IsHistory(worlds, events) && a in worlds[|events|].s.rows && worlds[|events|].s.rows[a].path != ""
    ensures var s := worlds[|events|].s;
      s.rows[a].path !in s.objects <==> EverPurged(worlds, events, |events|, s.rows[a].path)
  {
    var w := worlds[|events|];
    var k := w.s.rows[a].path;
    HistoryKeeps(worlds, events, |events|);
    TracedBack(worlds, events, |events|, k);
    assert k in Referenced(w.s.rows);
  }

  /** Over every run, once no upload and no purge is under way, an object is stored
      and used by nobody if and only if some event let go of it undeleted and no
      account deletion took it. */
  lemma StraysIff(worlds: seq<World>, events: seq<Event>, k: Key)
    requires IsHistory(worlds, events) && worlds[|events|].s.uploading == {} && worlds[|events|].s.doomed == {}
    ensures var s := worlds[|events|].s;
      k in s.objects && k !in Referenced(s.rows) <==>
      EverLetGo(worlds, events, |events|, k) && !EverPurged(worlds, events, |events|, k)
  {
    HistoryKeeps(worlds, events, |events|);
    TracedBack(worlds, events, |events|, k);
  }

  // ---- it happens ----

  lemma {:induction false} Follow(worlds: seq<World>, events: seq<Event>, run: seq<Step>)
    returns (worlds': seq<World>, events': seq<Event>)
    requires IsHistory(worlds, events) && IsRun(worlds[|events|].s, run)
    ensures IsHistory(worlds', events') && worlds'[|events'|] == worlds[|events|].(s := Exec(worlds[|events|].s, run))
    decreases |run|
  {
    worlds', events' := worlds, events;
    if run != [] {
      var e := Plain(run[0]);
      worlds', events' := Follow(worlds + [Following(worlds[|events|], e)], events + [e], run[1..]);
    }
  }

  /** One user's file, forwarded by another, outlives its uploader and is broken. */
  lemma AccountDeletionBreaks() returns (worlds: seq<World>, events: seq<Event>)
    ensures IsHistory(worlds, events)
    ensures var s := worlds[|events|].s; 2 in s.rows && s.rows[2].path != "" && s.rows[2].path !in s.objects
  {
    var run := FileSentAndForwarded();
    worlds, events := Follow([START], [], run);
    var n, w, drop := |events|, worlds[|events|], DropAccount(3, {});
    assert w.s.rows[1].path in KeysOf(w.s.rows, 3);
    assert Purges(w, drop, "k");
    worlds, events := worlds + [Following(w, drop)], events + [drop];
    assert worlds[n] == w && events[n] == drop;
    assert EverPurged(worlds, events, |events|, "k");
    DanglesIff(worlds, events, 2);
  }

  lemma FileSentAndForwarded() returns (run: seq<Step>)
    ensures IsRun(EMPTY, run)
    ensures var rows := Exec(EMPTY, run).rows;
      && 1 in rows && rows[1] == Attachment(Some(5), "k", 3)
      && 2 in rows && rows[2] == Attachment(Some(6), "k", 4)
  {
    run := OneFileSent();
    OneFileIsExclusive(Exec(EMPTY, run).rows);
    var forward := CopyRows(5, 6, 4, map[2 := 1]);
    Snoc(EMPTY, run, forward);
    run := run + [forward];
  }
}
