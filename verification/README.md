# A verified model of the messenger's protocols

This project models the parts of the messenger backend (and of its icon
script) whose correctness is a property of whole runs, and proves those
properties in Dafny. `dafny verify dfyconfig.toml` checks everything.

Postgres and Redis become maps, sets and sequences. A SQL statement or
transaction and a Redis pipeline are one atomic step each. Where the program
takes several steps and something may come in between, the model does too:
epoch gate and insert, object write and row, key selection and row deletion,
commit and kick, authentication and registration of a socket, the reads and
writes of `Login`, of a card's creation and move, and of a device's
registration. What is fused all the same is listed under Assumptions. Pure code
is a function; code that updates state is a class whose methods take the steps
of the model and keep its invariant; the theorems quantify over every run.

| files | what they model | main results |
|---|---|---|
| `CallDomain`, `CallSafety`, `CallEndings`, `CallTimers`, `CallTrace`, `CallNotices`, `CallService` | call signaling: live calls, busy markers, TTLs, journal, ring timers, published events | the busy index equals a scan of the live calls on every timed run; every way a call can end, and the journal row it leaves; every published trace is legal, and every action publishes exactly what it must |
| `Disappear` | the expiry reaper | draining in batches is deleting everything at once: same survivors, counters and objects |
| `Attachments`, `AttachmentStore`, `AttachmentRemovals` | rows and stored objects under uploads, promotions, forwards, two reapers and failures; deleted accounts and groups | under the former no row ever points at a missing object, and exactly which steps leak one; exactly what the latter break and leak |
| `Uploads` | chunked upload | completes exactly when every chunk is there, and then is the file |
| `Migrate` | moving bytes between database and object store | no read ever changes, wherever the run is interrupted; exactly when a successful return is incomplete |
| `Epochs`, `KeyPackages`, `Devices` | the MLS delivery service | no two commits share an epoch; the mailbox is in order exactly when inserts follow the gate; a key package is handed out once; vouches form a forest, each of them checked |
| `Sessions`, `LoginRace`, `Sockets`, `AuthService` | sign-in, refresh rotation, administration, live sockets | an accepted token is always current; a replayed refresh token ends its session; exactly when an interrupted login is serial, and when a socket outlives its session |
| `GraphFill`, `FloodFill` | the flood fill, bounding box and crop of the icon script | outside means reachable from the border, for every image |
| `Boards`, `MoveOutcome`, `MoveOverlap`, `BoardRuns`, `BoardService` | task-board cards | a move is dense, order-keeping and at the clamped index, on tied columns too; exactly when its outcome is determined, when a stale one is as good, and when cards come to share a place |
| `Announcements` | announcements and their daily quota | exactly who is reached; the exact window the limit holds for |

## Assumptions

- Call handlers run one at a time on one clock, and the stores do not fail
  under them. Ids the server mints are fresh. Call ids come from the client and
  are NOT assumed fresh; what a reused one does is part of the results.
- Hashing is abstract and injective; signatures are an abstract flag.
- Rows are not removed, and objects not purged, between the two writes of one
  migrated item.
- Authentication operations are serial, except where the interleavings are
  modelled: commit, kick and handshake (`Sockets`), and the two transactions of
  a login (`LoginRace`).
- A kick's publication and its delivery to the hub are one step, and so are the
  statements inside one transaction, save where they are taken apart
  (`Attachments.ForwardInsideReap`, `MoveOverlap`).
- An account's deletion and the purge of its objects are one step.
- The revocation of a session whose refresh token is replayed succeeds; the code
  ignores its error.
- A transaction that reports failure has had no effect. (A commit that took
  effect and then reported failure would make `store` delete the object of a
  row that exists.)
- A new store starts empty (no calls, no epochs, no rows).
- Answers of other services (membership, blocks, reachability, permissions)
  and store outcomes are parameters or arbitrary choices.

## Where code and documentation part

- `store.go` says that `Delete` clears a marker only while it still points at
  the call; the code clears both parties' markers unconditionally. The
  invariant makes that safe (`CallSafety.DeleteSparesOtherCalls`).
- The journal's migration describes *canceled* as aborted before the answer and
  *completed* as having a positive duration. Rejecting or cancelling an
  answered call closes it under that name with its answer time kept, and a call
  that ends within a second is completed with duration 0
  (`CallEndings.CallEndsExactly`).
- A ring that nobody answers is said to be missed after the timeout. Timers know
  the call by its id alone: a ring is closed as missed as soon as a timer of any
  earlier ring of that id is due (`CallTimers.MissedIff`).
- The journal is said to hold every call's outcome. A row stays open for good
  exactly when its call's key ran out or an invite between two other users
  took over its id (`CallEndings.LeftOpenExactly`); the two who were on a
  taken-over call are told nothing (`CallEndings.TakeoverIsSilent`).
- With ids reused by a client, a call id can be answered any number of times,
  once per ring (`CallTrace.ReusedIdIsAnsweredAgain`).
- The expiry worker promises that forwarded copies keep their object. Its keys
  are selected by one statement and its rows deleted by a later one: a forward
  that commits in between is broken exactly when it copies a key already
  selected (`Attachments.ForwardInsideReapBreaks`).
- A deleted account's files are said to go with it. Its keys are purged without
  a reference check: over every run, the files that are broken are exactly those
  whose key such a deletion purged (`AttachmentRemovals.DanglesIff`). A deleted
  group's messages leave behind the objects that expiry would have purged; which
  objects stay without a use is exact too (`AttachmentRemovals.StraysIff`).
- `to-db` is said to bring everything back. It does not look at errors of its
  SELECT: a success leaves rows in the store exactly when a SELECT failed before
  its first row while there were rows to read (`Migrate.LeftOverIff`), and it may
  leave them all (`Migrate.Migrator.ToDbMovesNothing`); a negative batch size is
  such an error.
- An upload is said to take its object back when its row fails. A promotion
  does so only when the row itself could not be created: one whose session
  delete or commit fails leaves the object behind
  (`AttachmentStore.Service.Promote`).
- The epoch gate orders epochs, not inserts: a chat's mailbox is in epoch order
  exactly when its inserts come in the order of the gate
  (`Epochs.MailboxInOrderIff`), and it need not be
  (`Epochs.MailboxMayBeOutOfOrder`).
- `Login` reads the account and opens the session in two transactions. The
  outcome is that of a serial login if and only if the account still has the
  level, kind, activity and password it was read with
  (`LoginRace.LoginIsSerialIff`); a password reset in between is outrun
  (`LoginRace.ResetIsOutrun`).
- The kick is said to end the sockets of a revoked session. A socket whose
  handshake authenticated before the commit and registered after the kick is
  not ended by it, and no other escapes (`Sockets.UnowedExactlyWhenSlipped`);
  the next periodic re-check that gets an answer ends it. Nor does it end those
  only: a user's kick is aimed when it is delivered, and ends the sockets of a
  session opened since the commit as well (`Sockets.KickHitsLiveIff`,
  `Sockets.LiveSocketIsKicked`).
- A device is said to be vouched for by a live one. Its signer is looked up
  before its row is written, and may be revoked in between
  (`Devices.VoucherRevokedIff`).
- `Move` is said to re-sequence densely. It does where the card's column was
  read as it is (`Boards.FreshMoveMoves`); a move that read an old column does
  under an exact condition only (`Boards.StaleMoveMovesIff`). With each move's
  transaction as one step, cards come to share a position exactly when a create
  inserts where a card was put since it read the maximum
  (`BoardRuns.PositionsStayDistinctIff`). The transaction lists before it writes,
  without a lock: a list that is old by then drags cards back that have left the
  column and may tie those that came, each under an exact condition
  (`MoveOverlap.LateWriteDragsBackIff`, `MoveOverlap.LateWriteTiesIff`).
- The announcement limit is documented for any 24 hours. The quota is counted
  back from the service's clock while `created_at` is the transaction's start,
  so the limit holds on half-open windows of a day less that lag, and on none
  longer (`Announcements.SafeIffADayLessTheLag`).
- `remove` is documented as dropping the first occurrence and drops all; the
  two agree exactly on lists holding the id at most once
  (`Boards.RemoveIsDropFirstIff`), which column listings always do.
- A migration with batch size 0 selects nothing and finishes without moving
  anything; the completeness clauses are for a positive batch.

## Model

| member | source | states |
|---|---|---|
| `CallSafety.BusyExactlyWhenOnLiveCall` | backend/internal/calls/service.go:204-215 | on every timed run from an empty store, busyOnLiveCall(u) holds if and only if some unexpired call involves u |
| `CallSafety.NeverOnTwoCalls` | backend/internal/calls/service.go:105-197 | on every run nobody is on two live calls |
| `CallSafety.DeleteSparesOtherCalls` | backend/internal/calls/store.go:88-105 | on every run the unconditional marker removal of Delete leaves every other live call and both its markers in place |
| `CallSafety.CreateKeepsStore` | backend/internal/calls/store.go:37-50 | writing a ringing call between two free users keeps markers and calls in agreement, makes that call readable and leaves every other one as it was |
| `CallSafety.AnswerKeepsStore` | backend/internal/calls/store.go:67-86 | answering a ringing call extends the call and both markers together and changes no other call |
| `CallSafety.DeleteKeepsStore` | backend/internal/calls/store.go:88-105 | deleting a call, live or not, keeps every remaining call's markers in agreement |
| `CallSafety.ReapKeepsStore` | backend/internal/calls/service.go:204-215 | clearing an orphan marker changes nobody's busy answer and no call |
| `CallSafety.PendingInviteExactlyWhenRinging` | backend/internal/calls/service.go:354-368 | PendingInvite(u) returns a call if and only if u is the callee of a live ringing call, and then that call |
| `CallSafety.CalleeDropLeavesTheRing` | backend/internal/calls/service.go:421-457 | a callee's dropped socket changes nothing while the call rings |
| `CallSafety.RingsEndInTime` | backend/internal/calls/store.go:22-50 | a call rings for less than ringingTTL always, and for less than RingTimeout where the timers survived and none is overdue |
| `CallSafety.StepFreezesEndedRows` | backend/internal/calls/repository.go:28-38 | no step of any kind rewrites a journal row that has ended or loses a row |
| `CallSafety.JournalRowsCloseOnce` | backend/internal/calls/service.go:487-498 | over every run an ended journal row stays as it is for good |
| `CallSafety.JournalTellsTheTruth` | backend/internal/calls/service.go:487-513 | an ended row that is completed was answered, one that is missed was not, unanswered means duration 0, and the duration is the whole seconds from answer to end |
| `CallSafety.RowsFollowTheirCall` | backend/internal/calls/service.go:487-498 | a journal row changes only while its call is live |
| `CallEndings.CallEndsExactly` | backend/internal/calls/service.go:105-457 | any action in any world that keeps the invariant, hence on every run: a live call, told apart by its journal row, is lost if and only if a party, its socket or its timer ends it, its key runs out, or an accepted invite between two free users, the second reachable, takes over its id; in the first case only, its row is closed at that instant, under the name of what ended it and with its answer time |
| `CallEndings.AnsweredCompletesExactly` | backend/internal/calls/service.go:297-457 | on every run an answered call is closed as completed if and only if a party hangs up or a party's socket drops |
| `CallEndings.UnansweredNamesTheEnder` | backend/internal/calls/service.go:297-457 | on every run an unanswered call is closed as canceled if and only if its caller cancels, hangs up or drops, as rejected if and only if its callee rejects or hangs up, and as missed if and only if a timer of its id fires |
| `CallTimers.PendingTimers` | backend/internal/calls/service.go:399-415 | the timers pending after a run are exactly those that some ring in it started and that neither fired nor were lost in a crash |
| `CallTimers.MissedIff` | backend/internal/calls/service.go:399-415 | a ring can be closed as missed if and only if a ring of the same id is at least the timeout old with its timer still pending; for a ring younger than the timeout that is an earlier one |
| `CallTimers.MissedEarlyHappens` | backend/internal/calls/service.go:399-415 | a run in which an id is rung, hung up and rung again, and the second ring is closed as missed after one second |
| `CallEndings.TakeoverIsSilent` | backend/internal/calls/service.go:105-197 | when an invite takes over a call's id, both who were on it are free again and no event is sent to either |
| `CallEndings.LeftOpenExactly` | backend/internal/calls/service.go:487-498 | over every run, the open rows without a live call are exactly those whose call was lost to expiry or to a taken-over id |
| `CallEndings.TakenOverRowStaysOpen` | backend/internal/calls/store.go:37-50 | the row of a taken-over call is open after every further run |
| `CallEndings.TakeoverHappens` | backend/internal/calls/service.go:105-197 | two invites from an empty store, the second under the first one's id, are such a takeover |
| `CallTrace.InviteRings` | backend/internal/calls/service.go:105-197 | an accepted invite between two free users, the callee reachable, leaves a live call with exactly the invited parties, chat, offer, phase and deadline, and exactly one ring |
| `CallTrace.EveryTraceIsLegal` | backend/internal/calls/service.go:217-350 | on every run each Answered event is caused by the callee of a ring not yet answered, renegotiation follows the answer with offers caller to callee and answers callee to caller, and every event goes to a party of the call or back to the user whose own frame was refused |
| `CallTrace.OneAnswerPerRing` | backend/internal/calls/service.go:217-241 | in a legal trace a call id has at most as many answers as rings, and at most one since its last ring |
| `CallTrace.AnsweredAtMostOnce` | backend/internal/calls/service.go:217-241 | an id that rang at most once was answered at most once |
| `CallTrace.ReusedIdIsAnsweredAgain` | backend/internal/calls/service.go:105-197 | from any reachable live call there is a run that rings and answers the same id once more |
| `CallNotices.PublishesExactly` | backend/internal/calls/service.go:105-457 | every action in every world that keeps the invariant publishes exactly what the live calls, their parties and the request determine, in order: an accepted answer, candidate or renegotiation is relayed once to the other party; a busy, unreachable or ringing invite sends its tone or ring; a refused request (blocked, outside a shared chat, too fast, malformed) sends nothing |
| `CallNotices.EndingIsTold` | backend/internal/calls/service.go:297-457 | whenever a live call is closed, exactly these events are sent: Rejected to the caller; Canceled and a phone wake-cancel to the callee; Ended to the other party of a call hung up or dropped, with that reason; TimedOut to both parties and a wake-cancel to the callee of a missed one |
| `CallService.Service.GetCall` | backend/internal/calls/store.go:52-65 | a call that is found has its id, has not reached its deadline, and both its parties' markers lead to it |
| `CallService.Service.MarkerOf` | backend/internal/calls/store.go:108-121 | for a user on any live call, returns that call |
| `CallService.Service.CreateCall` | backend/internal/calls/store.go:37-50 | between two free users, the call rings for its callee, both are busy, every other call is as before, and index and calls still agree |
| `CallService.Service.MarkCallAnswered` | backend/internal/calls/store.go:67-86 | a ringing call becomes connected with the answered deadline, every other call is as before, and index and calls still agree |
| `CallService.Service.DeleteCall` | backend/internal/calls/store.go:88-105 | nobody is on the call any more, everybody on another call still is and is still marked busy |
| `CallService.Service.BusyOnLiveCall` | backend/internal/calls/service.go:204-215 | answers whether some live call involves the user, and clears an orphan marker on the way |
| `CallService.Service.FinalizeRow` | backend/internal/calls/service.go:487-498 | closing a row leaves it truthful (status, answer time and whole-second duration agree) and touches no other |
| `CallService.Service.InstantRow` | backend/internal/calls/service.go:502-513 | leaves a truthful row that has ended now, and every earlier row as it was |
| `CallService.Service.Invite` | backend/internal/calls/service.go:105-197 | each reply has its exact condition on the raw request, in the code's order, and a refusal changes nothing; exactly the notices due are published; an accepted invite leaves the journal row due, unless the caller is on a call, and between two free users, the callee reachable, a ringing call with these parties, chat and offer, both users busy; all invariants are kept |
| `CallService.Service.Answer` | backend/internal/calls/service.go:217-241 | each reply has its exact condition on request and live call; accepted, the call is connected, answered now if it rang, and then the caller alone is told, once; all invariants are kept |
| `CallService.Service.Ice` | backend/internal/calls/service.go:243-260 | each reply has its exact condition on request and live call; a party's candidate is relayed exactly once, to the other party; calls and journal stay |
| `CallService.Service.Renegotiate` | backend/internal/calls/service.go:265-295 | each reply has its exact condition on request and live call; an offer of the caller or an answer of the callee on a connected call is relayed exactly once, to the other party, and nothing else is |
| `CallService.Service.Terminate` | backend/internal/calls/service.go:297-350 | each reply has its exact condition on request and live call; accepted, nobody is on a call under that id, and exactly the closing events due are published; all invariants are kept |
| `CallService.Service.Pending` | backend/internal/calls/service.go:354-368 | returns a call if and only if one rings for the user, and then that one |
| `CallService.Service.RingTimeout` | backend/internal/calls/service.go:399-415 | afterwards nothing rings under the id; where a call did, both its parties and the callee's phone are told, once each, and otherwise nothing is published; all invariants are kept |
| `CallService.Service.Disconnect` | backend/internal/calls/service.go:421-457 | the only call the user is left on is one still ringing for them; the other party of any other is told exactly once, and nothing else is published; all invariants are kept |
| `Disappear.PurgedExactlyWhenUnreferenced` | backend/internal/disappear/disappear.go:165-195 | the COUNT comparison selects a key if and only if the batch references it and no row outside the batch does |
| `Disappear.DeleteTwice` | backend/internal/disappear/disappear.go:197-219 | deleting two batches one after the other gives the same rows and reply counters as deleting their union, in spite of the clamp at 0 |
| `Disappear.ExclusiveTwice` | backend/internal/disappear/disappear.go:165-195 | the keys two successive batches purge are those their union purges, even when a key is shared across them |
| `Disappear.ReapTwice` | backend/internal/disappear/disappear.go:336-390 | reaping batch after batch is reaping their union |
| `Disappear.SurvivorCounter` | backend/internal/disappear/disappear.go:197-219 | a surviving root's counter drops by exactly its expired replies, not below 0 |
| `Disappear.ReapSparesReferencedObjects` | backend/internal/disappear/disappear.go:165-195 | a row that survives a reap keeps its object |
| `Disappear.ExpiredAfterReap` | backend/internal/disappear/disappear.go:143-163 | after a reap the expired messages are the old ones less the batch |
| `Disappear.BatchDone` | backend/internal/disappear/disappear.go:394-424 | one more batch extends the set reaped so far without repetition, and a short batch means that nothing is left |
| `Disappear.ReapDrains` | backend/internal/disappear/disappear.go:336-390 | deleting all expired messages at once has that meaning on the raw rows: who survives, with what counter, which attachments and which objects |
| `Disappear.Reaper.ClaimExpired` | backend/internal/disappear/disappear.go:143-163 | returns the earliest messages whose expiry is set and not later than now, in order, each once, all of them if fewer than the limit |
| `Disappear.Reaper.ProcessExpired` | backend/internal/disappear/disappear.go:336-390 | claims a batch, and leaves the database, the counters and the objects as Reap of that batch; each claimed message is announced once, in order |
| `Disappear.Reaper.Pass` | backend/internal/disappear/disappear.go:404-420 | one round keeps the drain equal to one Reap of everything taken so far, and a short round has taken all |
| `Disappear.Reaper.Drain` | backend/internal/disappear/disappear.go:394-424 | terminates with a message kept if and only if it has no expiry or one later than now, counters lowered by the replies that went, exactly the rows of the others gone, and an object gone exactly if it was used and no remaining row uses it; exactly the messages that went are announced, each once |
| `Attachments.RunKeeps` | backend/internal/attachments/attachments.go:450-500 | every run keeps the objects equal to the disjoint union of referenced, uploading, doomed and leaked keys |
| `Attachments.NoDanglingRow` | backend/internal/attachments/attachments.go:450-500 | over every run of uploads, links, forwards, both reapers and failures, a row's key names a stored object |
| `Attachments.UnlinkedKeyIsUnshared` | backend/internal/attachments/uploads.go:233-270 | the key of an unlinked row is referenced by that row alone |
| `Attachments.RunLeaksIff` | backend/internal/attachments/uploads.go:198-270 | a run leaves an object behind if and only if it holds a failed write that stored, a failed take-back, a promotion given up after its row was created, or a failed purge |
| `Attachments.GoneMeansGoneIff` | backend/internal/attachments/attachments.go:450-500 | with no upload and no purge under way, the stored objects are exactly the referenced keys if and only if no such step is in the run |
| `Attachments.ForwardInsideReapBreaks` | backend/internal/disappear/disappear.go:336-390 | a forward that commits between key selection and row deletion leaves a row without its object if and only if it copied a selected key |
| `Attachments.ForwardInsideReapHappens` | backend/internal/disappear/disappear.go:336-390 | a run from an empty store (put, commit, link) reaches a state in which a forward does this |
| `AttachmentStore.Service.StoreFile` | backend/internal/attachments/attachments.go:450-500 | object first, row second; the row exists exactly on success; the object is left behind exactly when a failed write had stored it or the take-back failed; no other key is touched |
| `AttachmentStore.Service.Promote` | backend/internal/attachments/uploads.go:198-223 | the same for a completed upload, whose session goes in the row's transaction; here the object is also left behind when the session delete or the commit fails |
| `AttachmentStore.Service.LinkFiles` | backend/internal/attachments/attachments.go:281-293 | an unsent file is linked if and only if it is named and the uploader's own; a link once made is never redirected; no key and no owner changes |
| `AttachmentStore.Service.CopyToMessage` | backend/internal/attachments/attachments.go:334-361 | exactly one new row for each attachment of the source message and for no other, sharing its key; old rows untouched |
| `AttachmentStore.Service.ReapUnlinked` | backend/internal/attachments/uploads.go:233-270 | a row goes if and only if it is linked to no message, stale and not awaited; without a failure exactly the objects these rows name go; no remaining row loses its object |
| `AttachmentRemovals.HistoryKeeps` | backend/internal/users/deletion.go:140-181 | every run of all the attachment steps with account and group deletions keeps the objects equal to referenced, uploading, doomed and leaked keys, less those an account deletion purged |
| `AttachmentRemovals.DanglesIff` | backend/internal/users/deletion.go:140-181 | over every such run a file is broken if and only if some account deletion purged its key: a file of that account had the same key and its purge did not fail |
| `AttachmentRemovals.AccountDeletionBreaks` | backend/internal/users/deletion.go:297-299 | a run from an empty store, a file sent and forwarded and its uploader deleted, ends with a broken file |
| `AttachmentRemovals.StraysIff` | backend/internal/groups/repository.go:447-452 | over every such run, once nothing is under way, an object is stored and used by nobody if and only if some event (a leaking step, a failed purge of an account's last use, a deletion of the last messages using it) let go of it and no account deletion took it |
| `AttachmentRemovals.GroupSplitsKeys` | backend/internal/moderation/repository.go:270-276 | the keys used before a deletion of messages are those used after it and those expiry would have purged, disjointly |
| `AttachmentRemovals.RowsThatGo` | backend/internal/users/deletion.go:140-181 | the deletion of an account removes its own rows only, that of messages the rows linked to them only |
| `Uploads.InitUpload` | backend/internal/attachments/uploads.go:48-96 | a session opens, with the declared size and chunk size, if and only if the size is positive and within the maximum and quarantine, metadata shape and quota agree; each refusal has its exact condition, the quota being asked last |
| `Uploads.CountIsCeiling` | backend/internal/attachments/uploads.go:31-33 | the chunk count is the least number of chunks that holds the declared size |
| `Uploads.AcceptedIffItFits` | backend/internal/attachments/uploads.go:133-152 | a chunk is accepted if and only if its index is in range and its length is that of its stretch of the file |
| `Uploads.StoredWithinDeclared` | backend/internal/attachments/uploads.go:133-152 | whatever is sent, a session stores no more bytes than declared and no index out of range |
| `Uploads.CompletesExactlyWhenAllPresent` | backend/internal/attachments/uploads.go:157-181 | after any sends the completeness test passes if and only if every index was accepted |
| `Uploads.CompletedIsWhatWasSent` | backend/internal/attachments/uploads.go:385-403 | a completed file has the declared length and each stretch is the last accepted send of its index |
| `Uploads.AssembledIsTheFile` | backend/internal/attachments/uploads.go:385-403 | slices of a file sent in any order with repeats assemble to that file |
| `Uploads.UploadSession.Put` | backend/internal/attachments/uploads.go:133-152 | stores exactly an accepted chunk, replacing an earlier send of its index |
| `Uploads.UploadSession.ChunkIndexes` | backend/internal/attachments/uploads.go:363-383 | returns the stored indexes in order and the bytes they hold |
| `Uploads.UploadSession.AssembleChunks` | backend/internal/attachments/uploads.go:385-403 | the buffer is the stored chunks in index order |
| `Uploads.UploadSession.CompleteUpload` | backend/internal/attachments/uploads.go:157-191 | succeeds if and only if every index is present and inspection and metadata accept the assembled file, which has the declared length; incomplete exactly when an index is missing |
| `Migrate.StepKeeps` | backend/cmd/blobmigrate/main.go:105-163 | every single write, upload, forward, removal or crash keeps the invariant, and no row reads differently after it |
| `Migrate.ReadsNeverChange` | backend/internal/attachments/attachments.go:579-597 | at every prefix of every run, in both directions and with crashes, the dual-path read of a row returns the same bytes |
| `Migrate.ReadsWhatWasPutIn` | backend/internal/attachments/attachments.go:579-597 | from an empty store, after any run and whatever follows, a row that is still there holds the bytes it was uploaded with, or those its forwarded source read as, in the row or in the object it names |
| `Migrate.IdsAreNotReused` | backend/cmd/blobmigrate/main.go:105-163 | a removed row's id never returns, so an object named after it never meets another row |
| `Migrate.Migrator.StoreOne` | backend/cmd/blobmigrate/main.go:105-163 | one item: object, then row, either of which may fail; the reads stay and only success changes the row |
| `Migrate.Migrator.BringOne` | backend/cmd/blobmigrate/main.go:226-270 | one item back: the row gets its bytes inline and no object is touched |
| `Migrate.LeftOverIff` | backend/cmd/blobmigrate/main.go:229-253 | the loop leaves rows behind if and only if some SELECT fails before its first row while there are rows to read |
| `Migrate.Migrator.Select` | backend/cmd/blobmigrate/main.go:108-133 | reads candidates, each once, exactly as many as limit and driver allow |
| `Migrate.Migrator.ToStore` | backend/cmd/blobmigrate/main.go:105-163 | terminates; on success with a positive batch no row has its bytes inline and the count reported is that of the rows that had, an error while reading being a failure; a dry run changes nothing; every row holds the bytes it held even when it fails |
| `Migrate.Migrator.ToDb` | backend/cmd/blobmigrate/main.go:226-270 | terminates; on success with a positive batch the rows left in the store are as many as the driver's answers to its SELECTs determine (LeftOver), and the count reported is that of the rows brought back; every row holds the bytes it held even when it fails |
| `Migrate.Migrator.ToDbBringsAll` | backend/cmd/blobmigrate/main.go:226-270 | where no SELECT fails before its first row, a success leaves every row inline with the bytes it held |
| `Migrate.Migrator.ToDbMovesNothing` | backend/cmd/blobmigrate/main.go:231-253 | from every state, a SELECT that fails before its first row makes the command report success with nothing moved |
| `Migrate.Migrator.RoundTrip` | backend/cmd/blobmigrate/main.go:105-270 | on success, to-store followed by to-db leaves every row inline if and only if no SELECT on the way back fails before its first row while there are rows to read; every row holds the bytes it held in any case |
| `Epochs.CommitsNeverShareAnEpoch` | backend/internal/e2ee/service.go:426-464 | under any interleaving of any number of publishers, no two stored commits of a chat carry the same epoch |
| `Epochs.StoredAtMostRecorded` | backend/internal/e2ee/repository.go:315-329 | every stored commit's epoch is at most the recorded one |
| `Epochs.RecordedEpochOnlyGrows` | backend/internal/e2ee/repository.go:315-329 | the recorded epoch never decreases and the mailbox is only appended to |
| `Epochs.SecondRacerIsStale` | backend/internal/e2ee/service.go:426-442 | once an epoch has passed the gate, a rival with that epoch or a lower one fails it whatever happens in between |
| `Epochs.MailboxInOrderIff` | backend/internal/e2ee/service.go:426-454 | over every run, a chat's mailbox is in epoch order if and only if its inserts come in the order in which their publishers went to the gate |
| `Epochs.GateOrdersEpochs` | backend/internal/e2ee/repository.go:315-329 | of two publishers that passed the gate of a chat, the later one has the greater epoch |
| `Epochs.MailboxMayBeOutOfOrder` | backend/internal/e2ee/service.go:444-454 | a run of two publishers stores the later epoch first |
| `Epochs.DeliveryService.AdvanceEpoch` | backend/internal/e2ee/repository.go:315-329 | moves the record if and only if the epoch is new or greater |
| `Epochs.DeliveryService.PublishHandshake` | backend/internal/e2ee/service.go:376-465 | each reply has its exact condition on payload size, authorisation, device and recorded epoch, in the code's order; published means appended, with the epoch recorded for a commit that names one; a refusal changes nothing |
| `KeyPackages.HandedOutAtMostOnce` | backend/internal/e2ee/repository.go:139-173 | under overlapping claims with row locks, a key package is handed out at most once |
| `KeyPackages.UploadedIsAvailablePlusHanded` | backend/internal/e2ee/repository.go:127-173 | uploaded packages are always the available ones plus the handed ones |
| `KeyPackages.ClaimYieldsOnePerDevice` | backend/internal/e2ee/repository.go:139-173 | a claim yields one package for a device if and only if the device is the target's, not revoked, not excluded, the named one if one is named, and has an unlocked package; then its oldest; never two |
| `KeyPackages.Directory.Oldest` | backend/internal/e2ee/repository.go:139-173 | finds the oldest free package of a device if there is one |
| `KeyPackages.PickMeans` | backend/internal/e2ee/repository.go:139-173 | with no other claim open, what a claim picks is that, on the raw device and package rows |
| `KeyPackages.Directory.ClaimKeyPackages` | backend/internal/e2ee/repository.go:139-173 | claims and consumes exactly the oldest unconsumed package of every device that is the user's, not revoked, not excluded and (if one is named) the named one; no other package changes |
| `Devices.IdentityIsForGood` | backend/internal/e2ee/repository.go:66-87 | over every run a device keeps owner, key and voucher, and a revocation keeps its first date |
| `Devices.VouchesNeverCycle` | backend/internal/e2ee/service.go:123-163 | no chain of vouches returns to its start or leaves the account |
| `Devices.TraceToRoot` | backend/internal/e2ee/service.go:123-163 | following the vouches from any device ends at one that nobody vouched for |
| `Devices.EveryDeviceHasARoot` | backend/internal/e2ee/service.go:123-163 | the same on every run from an empty directory |
| `Devices.EveryDeviceWasChecked` | backend/internal/e2ee/service.go:123-163 | on every run every stored device came from a registration whose check passed at an earlier step: non-zero id, 32-byte key and, where it names a signer, a verified signature by a device that was live and the actor's at that step |
| `Devices.RegisterMeans` | backend/internal/e2ee/service.go:123-163 | check and write undisturbed have that meaning for every request and every directory |
| `Devices.VoucherRevokedIff` | backend/internal/e2ee/service.go:132-154 | a registration checked, interrupted by anything and stored as a new device names the signer that was looked up, and that signer is revoked by then if and only if its owner revoked it in between |
| `Devices.RevokedVoucherHappens` | backend/internal/e2ee/service.go:132-154 | a run from an empty directory ends with a device stored under a revoked voucher |
| `Devices.Registry.Register` | backend/internal/e2ee/service.go:123-163 | each reply has its exact condition on the raw request and rows, in the code's order: key length and id, signer known, the actor's and live, signature verified, an existing row the actor's with that key, the key on no other device of the actor; registered, a new device has exactly the row of the request and an old one its new name; otherwise nothing changes |
| `Devices.Registry.Revoke` | backend/internal/e2ee/repository.go:114-125 | revokes exactly a live device of the actor, with the given date; any other row, and any other request, is left as it is; no device loses its identity |
| `Sessions.AcceptedTokenIsCurrent` | backend/internal/auth/middleware.go:48-93 | on every serial run a token RequireAuth accepts is of an active account, at its current level and kind |
| `Sessions.InactiveForGood` | backend/internal/auth/domain.go:69-71 | a revoked or expired session is never active again |
| `Sessions.OneUsableRefreshToken` | backend/internal/auth/service.go:450-512 | a live session has exactly one refresh token that rotates it, one it was handed; any other ends the session |
| `Sessions.ReplayEndsTheSession` | backend/internal/auth/service.go:450-512 | a drawn token that is not the session's current one never works again: replayed after any run, the session is dead |
| `Sessions.RotationSpendsTheToken` | backend/internal/auth/repository.go:64-77 | the token a refresh used ends the session whenever it is replayed later |
| `LoginRace.LoginIsSerialIff` | backend/internal/auth/service.go:118-262 | with any operations between reading the account and opening the session, the outcome (dates of the session aside) is that of the login at some place among them if and only if level, kind, activity and password are as read |
| `LoginRace.TokenIsAcceptedAnyway` | backend/internal/auth/middleware.go:48-93 | the token is let through in either case, with the claims that were read |
| `LoginRace.UntouchedLoginIsSerial` | backend/internal/auth/service.go:118-262 | a login is serial under any schedule without a password change, reset, role change or (de)activation of that account, logouts included |
| `LoginRace.ChangedBackIsSerial` | backend/internal/auth/service.go:118-262 | and also under a role change that is undone in between |
| `LoginRace.ResetIsOutrun` | backend/internal/admin/service.go:156-191 | a password reset in between leaves the session opened with the old password active, which no serial order does |
| `LoginRace.ResetIsOutrunFromTheStart` | backend/internal/admin/service.go:156-191 | one sign-up from an empty store reaches a state in which this happens |
| `Sockets.RevocationIsCovered` | backend/internal/admin/service.go:62-73 | an operation that revokes a session owes a kick that covers it |
| `Sockets.KickCoversOnlyRevoked` | backend/internal/auth/service.go:558-610 | at its commit a kick covers revoked sessions only; the kept session of a password change is not among them |
| `Sockets.UnowedExactlyWhenSlipped` | backend/internal/ws/handler.go:48-78 | on every run, a socket is open on a revoked session with no kick owed if and only if its handshake authenticated before the revoking commit and registered after its kick, and nothing (kick, re-check, hang-up) came to it since |
| `Sockets.NoSocketOnRevokedSession` | backend/internal/auth/middleware.go:100-124 | where no handshake is under way at a commit, no socket rides on a revoked session once all kicks are delivered |
| `Sockets.SlipHappens` | backend/internal/ws/handler.go:48-78 | from any world with an accepted token there is a run with such a socket |
| `Sockets.RecheckedStaysClosed` | backend/internal/ws/client.go:75-93 | on every run a socket open on a revoked session at a re-check that gets its answer is closed by it and never open again |
| `Sockets.LaterSocketsWereUpgrading` | backend/internal/ws/hub.go:181-233 | after the kick for a revoked session is delivered, whatever socket is open on it, then or later, had authenticated and not registered by then |
| `Sockets.KickHitsLiveIff` | backend/internal/ws/hub.go:185-233 | on every run a kick ends the sockets of a session that is not revoked if and only if the session was opened after the commit the kick is for and nothing has revoked it since |
| `Sockets.LiveSocketIsKicked` | backend/internal/ws/hub.go:185-233 | a run from any world with a right password: signed out everywhere, signed in again, and the new, active session's socket closed by the kick for the first |
| `AuthService.Service.Revoke` | backend/internal/auth/repository.go:79-89 | revokes one session and nothing else |
| `AuthService.Service.RevokeAllForUserExcept` | backend/internal/auth/repository.go:91-108 | revokes all of a user's sessions but the kept one |
| `AuthService.Service.Open` | backend/internal/auth/service.go:205-262 | the access token is of the account as it is and accepted at once, the drawn refresh token alone rotates the session, every other session is as before, and the invariant is kept |
| `AuthService.Service.DoRegister` | backend/internal/auth/service.go:271-441 | tokens are given if and only if consent, names and invitation (or open registration) allow it, a bad invitation never being downgraded; account, session and access token are stated field by field, with the level of the kind of registration; the token is accepted everywhere at once; a refusal changes nothing |
| `AuthService.Service.DoLogin` | backend/internal/auth/service.go:118-166 | tokens are given if and only if the source is not locked out and account, activity and password are right; the access token is of that account and session at its present level and kind and accepted at once; a refusal changes nothing |
| `AuthService.Service.DoRefresh` | backend/internal/auth/service.go:450-512 | succeeds if and only if the session is live, its account active and the token its current one; the access token is of that account and session at its present level and kind and accepted at once, the session is extended and only the new token rotates it; any other token revokes a live session; no other session changes |
| `AuthService.Service.RequireAuth` | backend/internal/auth/middleware.go:48-93 | lets a request through if and only if its token was issued and has not expired, its session is that account's, neither revoked nor expired, and no password change is due (or the route is exempt); then the account is active at the token's level and kind; each refusal has its exact condition, the failure of the session store aside |
| `AuthService.Service.DoLogout` | backend/internal/auth/service.go:515-530 | that session ends, and no other session and no account changes |
| `AuthService.Service.DoLogoutAll` | backend/internal/auth/service.go:533-553 | every session of the user ends, and no other session and no account changes |
| `AuthService.Service.DoChangePassword` | backend/internal/auth/service.go:558-610 | each reply has its exact condition; on success the password is the new one and no change is due, every session of the user but the current one ends, and the current one, all other users' sessions and other accounts stay; a refusal changes nothing |
| `AuthService.Service.DoChangeRole` | backend/internal/admin/service.go:101-152 | each reply has its exact condition; on success the target has the level and its sessions end, and all others' sessions and accounts stay; a refusal changes nothing |
| `AuthService.Service.DoResetPassword` | backend/internal/admin/service.go:156-191 | a weak password and an unknown account are refused without effect; on success the target has the password and must change it, its sessions end, and all others' sessions and accounts stay |
| `AuthService.Service.DoSetActive` | backend/internal/admin/service.go:195-233 | each reply has its exact condition; on success the account has that activity, a deactivated one's sessions end, and all others' sessions and accounts stay; a refusal changes nothing |
| `GraphFill.ReachedIsLeast` | design/generate-icons.js:35-52 | the nodes that open walks from the border reach are contained in every closed set of open nodes |
| `GraphFill.SpreadStep` | design/generate-icons.js:48-52 | popping a node and offering its neighbours keeps the fill's invariant and leaves strictly less to do |
| `GraphFill.RestIsExact` | design/generate-icons.js:48-52 | when the stack is empty the marked nodes are exactly the reached ones |
| `FloodFill.NearIsAdjacent` | design/generate-icons.js:48-52 | the four neighbours offered are exactly the pixels at distance one, rows not wrapping around |
| `FloodFill.SeedsAreTheBorder` | design/generate-icons.js:46-47 | the two edge loops offer a pixel if and only if it is on the border |
| `FloodFill.Filler.Push` | design/generate-icons.js:39-45 | marks and stacks an unmarked pixel of the image below the frame's opacity, and does nothing otherwise |
| `FloodFill.Filler.SeedBorder` | design/generate-icons.js:46-47 | establishes the fill's invariant from a blank mask |
| `FloodFill.Filler.PopAndSpread` | design/generate-icons.js:48-52 | one round of the loop is one Spread of the state |
| `FloodFill.Filler.Run` | design/generate-icons.js:37-52 | terminates with a pixel outside if and only if a 4-connected path of pixels below FRAME_ALPHA joins it to the border; the pushed pixels are those, each pushed once |
| `FloodFill.BoundingBox` | design/generate-icons.js:54-64 | the count is the number of inside pixels; the box holds all of them and touches one on each side, or has its start value when there are none |
| `FloodFill.CropHoldsTheTile` | design/generate-icons.js:85-96 | for any glow width the extracted square lies inside the canvas, which is extended by no more than it takes, holds every inside pixel with that margin, has exactly the longer side plus twice the glow, and is centred on the tile to within a pixel |
| `Boards.WithoutSorted` | backend/internal/boards/service.go:425-433 | removing a card from a sorted listing leaves the rest sorted |
| `Boards.RemoveIsDropFirstIff` | backend/internal/boards/service.go:424-433 | dropping every occurrence is dropping the first one if and only if there is at most one |
| `Boards.ReindexRenumbers` | backend/internal/boards/service.go:452-459 | writing positions along a list, whatever it holds, leaves the column holding exactly its cards, untied, in list order, and no other card changed |
| `Boards.EveryMoveSettles` | backend/internal/boards/service.go:299-356 | any move transaction, on tied columns and whatever was read before it, loses or duplicates no card, changes no other card's column or order, leaves the columns it writes untied and writes no other |
| `Boards.FreshMoveMoves` | backend/internal/boards/service.go:299-356 | where the card's column was read as it is, source and target are also dense from 0 and the card is at the clamped index (Moved) |
| `Boards.StaleMoveMovesIff` | backend/internal/boards/service.go:299-356 | where an old column was read, the same holds if and only if the card is not in the target already, the column it leaves is dense without it, and the column read was dense (or is the target) |
| `MoveOutcome.MoveIsDeterminedIff` | backend/internal/boards/service.go:299-356 | the promise of a move admits one outcome only if and only if no two other cards of the columns it touches were tied |
| `BoardRuns.CardsStayOnTheirBoard` | backend/internal/boards/service.go:206-356 | over every interleaving every card hangs in a column of its own board |
| `BoardRuns.PositionsStayDistinctIff` | backend/internal/boards/service.go:206-242 | over every interleaving of creates, deletes and moves, each move's transaction one step, positions stay distinct if and only if no create inserts where a card stands |
| `BoardRuns.UndisturbedCreatesStayDistinct` | backend/internal/boards/service.go:227-236 | creates whose two statements are undisturbed never do that, whatever moves run around them |
| `BoardRuns.TieHappens` | backend/internal/boards/service.go:227-236 | two creates that read the same maximum end up tied |
| `BoardRuns.MoveHeals` | backend/internal/boards/service.go:299-356 | a move leaves the columns it writes untied even where they were tied |
| `BoardRuns.SecondMoveLeavesAGap` | backend/internal/boards/service.go:299-356 | of two moves of one card that read the same column, the second leaves the target with a gap |
| `BoardRuns.GapHappens` | backend/internal/boards/service.go:299-356 | a run from an empty board reaches such a gap |
| `MoveOverlap.LateWriteDragsBackIff` | backend/internal/boards/service.go:320-350 | writing a list made earlier changes a card's column if and only if the card was listed and has left the column since |
| `MoveOverlap.LateWriteTiesIff` | backend/internal/boards/service.go:320-350 | writing a list made earlier leaves the column untied if and only if the cards that came since are apart from each other and from every place the list gives away |
| `MoveOverlap.OverlappingMovesTieIff` | backend/internal/boards/service.go:320-350 | two moves that both list a column before either writes it leave it untied if and only if the first card was in it already, is the second one too, or went last where the second brings none in |
| `MoveOverlap.SourceWriteSpares` | backend/internal/boards/service.go:343-350 | the re-numbering of the source changes nothing about ties in the target |
| `MoveOverlap.OverlapTies` | backend/internal/boards/service.go:320-350 | two whole moves to the top of an empty column, overlapping so, leave their cards at one place |
| `MoveOverlap.OrderOfANewcomer` | backend/internal/boards/service.go:333-342 | for a card that is not in the column, the list written is that of the other branch, without the removal |
| `BoardRuns.OrderOutlastsTheRest` | backend/internal/boards/service.go:299-356 | two cards of a column keep their order over any interleaving that moves neither of them |
| `BoardService.Remove` | backend/internal/boards/service.go:425-433 | the slice that re-uses the argument's array holds the argument without the id |
| `BoardService.Service.MaxCardPosition` | backend/internal/boards/repository.go:229-238 | returns the column's highest position, -1 for an empty column |
| `BoardService.Service.ListCardIDsInColumn` | backend/internal/boards/repository.go:240-255 | returns exactly the column's cards, each once, in non-decreasing position |
| `BoardService.Service.Reindex` | backend/internal/boards/service.go:452-459 | the loop of single-row updates is the Reindex function of the old rows |
| `BoardService.Service.MaxColumnPosition` | backend/internal/boards/repository.go:140-149 | returns the highest position of the board's columns, -1 for none |
| `BoardService.Service.AddColumn` | backend/internal/boards/service.go:139-157 | undisturbed, the new column stands one after the last of its board, at 0 on an empty one, and no two of a board share a position; refusals with the code's error |
| `BoardService.Service.DeleteColumn` | backend/internal/boards/service.go:179-193 | removes the column and exactly the cards in it, or refuses and changes nothing |
| `BoardService.Service.CreateCard` | backend/internal/boards/service.go:206-242 | undisturbed, the new card stands one below the last of its column, at 0 in an empty one, on the column's board, and nothing else changes; refusals in the code's order |
| `BoardService.Service.DeleteCard` | backend/internal/boards/service.go:272-295 | removes that card only, or refuses and changes nothing |
| `BoardService.Service.MoveTx` | backend/internal/boards/service.go:315-352 | the two branches are the move transaction for whatever column was read |
| `BoardService.Service.Move` | backend/internal/boards/service.go:299-356 | undisturbed, a Moved state on any columns, tied ones included; or the code's error (a column of another board is "missing") and no change |
| `Announcements.Normalize` | backend/internal/announcements/announcements.go:173-209 | accepts exactly the well-formed requests, and addresses the same levels, none twice |
| `Announcements.ReachableIffReached` | backend/internal/announcements/announcements.go:326-344 | a personal announcement passes the reachability test if and only if the fan-out statement would reach that one person |
| `Announcements.RevokingChangesNoCount` | backend/internal/announcements/announcements.go:458-518 | revoking an announcement changes no quota count |
| `Announcements.WindowBound` | backend/internal/announcements/announcements.go:268-284 | in a log whose rows all passed the quota, a never-CEO author's window holds at most 10 broadcasts and 50 personal announcements |
| `Announcements.SafeIffADayLessTheLag` | backend/internal/announcements/announcements.go:235-311 | over all runs, whatever is revoked in between, every half-open window of a given length keeps the limit if and only if the length is at most a day less the time between a transaction's start and its count |
| `Announcements.RunsMatch` | backend/internal/announcements/announcements.go:326-358 | on every run, account deletions included, an announcement stands in as many lists as its recorded recipient count less those that went with an account, and in none once revoked |
| `Announcements.RevokedForGood` | backend/internal/announcements/announcements.go:458-518 | a revoked announcement stays revoked and in nobody's list |
| `Announcements.ObjectionMeans` | backend/internal/announcements/announcements.go:235-322 | the checks on the normalized audience give the first objection that the raw request, the account rows and the day's rows of the log give |
| `Announcements.SentMeans` | backend/internal/announcements/announcements.go:326-344 | for an accepted request the fan-out statement reaches exactly the accounts the request addresses, told from the raw request and rows |
| `Announcements.Service.Send` | backend/internal/announcements/announcements.go:235-374 | the reply is the code's first objection on the raw request, account rows and log; sent, exactly these accounts get the notice: active, not the author, without a role or with one not above the author's, no block either way, and addressed (everybody, basic accounts, a named level, the named user); the row records author, kind, times, level and how many were reached |
| `Announcements.Service.Revoke` | backend/internal/announcements/announcements.go:458-518 | succeeds if and only if the actor is the author or an active account of level 1, to anyone else it is not found; exactly that announcement's notices go; revoking twice changes nothing |

## Left out

- Epochs.DeliveryService.PublishHandshake: the Welcome branch with its recipient check, because it stores independent rows and adds no ordering.
- KeyPackages.ClaimYieldsOnePerDevice: the peer and rate policy in front of a claim, which only refuses it.
- Uploads.UploadSession.CompleteUpload: the file's name; its promotion into object and row is AttachmentStore.Service.Promote.
- AuthService.Service.DoLogin: the failure counter behind `locked`.
- HTTP handlers, JSON, cookies, configuration and server wiring.
- Password hashing, JWT, Ed25519, relay credentials and MLS payloads: abstract here.
- Concurrent call handlers, concurrent refreshes of one session and concurrent completions of one upload: the program does not serialise them, and the properties are for atomic handlers.
- Store and audit failures inside the call handlers, and the rate limiter behind `rateOk`.
- Avatars in the migrator and in the store: their keys are reused, and the rest repeats the attachment argument.
- Chunk-session expiry and ownership around uploads.
- A second expiry worker running at the same time (SKIP LOCKED), purge failures in the expiry worker, and backends without an object store.
- Group backups and the audit log of the delivery service.
- PNG decoding, resizing, the blending of the pane, the 3 % rounding of the glow and the 30 % threshold of the icon script; the glow width is arbitrary here.
- Avatars and previews of a deleted account, and what else its deletion removes.
- Renaming of boards, columns and cards, card contents, and the deletion of whole boards or of announcement authors.
- Title and body lengths of announcements (one flag), push and live delivery.
