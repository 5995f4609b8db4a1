# Verified models of the viewer shell

This project models the parts of the artifact viewer that are real state machines or real algorithms, and
proves what their comments, tests and design records promise. Browser events, timers and network completions
are steps that can come in any order; each `await` ends one atomic step and the completion starts another.

Most modules have three layers. A datatype holds the state and functions on it say what each operation does.
A class with the fields of the source runs the same operations as methods on those fields, with the loops of
the source; its method `Serve` takes any events in any order and is proved to follow exactly the run of those
events and to keep what is proved of runs. Lemmas prove the invariants of the functions over every run, and say in
the numbers of the source (statuses, limits, waits, code points) what each event leads to.

| module | source | what is proved |
|---|---|---|
| BrokerLane, BrokerReads, BrokerServer, StateBroker | `assets/shell/01-state-broker.js`, `src/persistence/state.rs` | a per-key write queue with drafts: no edit is lost, reads never undo writes, cache and service agree at rest |
| FrameDecoder | `assets/shell/12-reader-ahead.js` | a length-prefixed decoder inverts the encoding however the network splits it |
| AudioLedger | `assets/shell/12-reader-ahead.js`, `assets/shell/10-reader-place.js` | the sample ledger is conserved, and seek and rate change do to the position what they should |
| Streaming | `assets/shell/12-reader-ahead.js` | decoder and ledger together: the counts do not depend on how the network splits the stream |
| ReadAhead, ReadAheadEffects | `assets/shell/12-reader-ahead.js`, `assets/shell/11-reader-host.js` | bounds on concurrent speech requests over all runs, and which blocks are requested, how, and what each event does to the tables |
| StaleGuard | `conformance/stale-guard-reference.py` | segmentation, digests invariant under indentation, the base with maximal similarity |
| Narration, Chunker, ChunkGroups, Pronunciation | `assets/shell/11-reader-host.js` | chunking loses no text and fills each chunk as far as it can, and the position map of pronunciation hints is sound |
| PlaceSync, PlaceSyncEffects | `assets/shell/10-reader-place.js` | no unsaved place is forgotten, writes are rate limited, and what each reply, change and load leads to |
| CastBridge | `assets/cast.js` | no cast session leaks, and which sessions are kept |
| DevTools | `browser-tests/src/connection.rs` | every command is answered at most once, only for its own reasons, and with its own reply |
| ChunkedBody, ChunkedLines | `browser-tests/src/http.rs` | the chunked decoder accepts exactly the encodings of what it returns, and fails for exactly its reasons |

## Where the code falls short of a stronger reading

These are properties one would expect that do not hold as expected. The model keeps the code as it is; for each
there is a lemma with the failing input or run, and a lemma that says, for all inputs, exactly when it holds.

- A set in flight does not always equal the stored draft when no newer set is queued: a delete can displace a
  newer queued set and leave its draft behind (`BrokerLane.DisplacedDraftExample`). It does exactly when no
  other set was scheduled after it (`BrokerLane.InflightBehindDelete`).
- A write that the client has given up on and the service handles later can undo an acknowledged newer edit, with
  no draft left (`BrokerServer.LateWriteExample`, `BrokerServer.LateWriteUndoesExactlyWhen`).
- A delete that fails is not retried, and the next read sends the set it displaced instead
  (`BrokerServer.UndoneDeleteExample`, `BrokerServer.FailedDeleteIsUndoneExactlyWhen`).
- `changeRate` can move the position forward by exactly 0.00001 s for a frame, so the bound is not strict
  (`AudioLedger.SlackIsReached`, `AudioLedger.ChangeRateIsStrictExactlyWhen`).
- `seekTo` never declares playback finished: a seek to or past the end of audio that is all there leaves a stream
  in which nothing will happen any more (`AudioLedger.StuckExample`, `AudioLedger.StuckExactlyAfterSeekPastEnd`).
  `forward` and `rewind` never make such a seek (`AudioLedger.GuardedSeekDoesNotStick`,
  `AudioLedger.RewindDoesNotStick`); `replay` seeks to a word time that the service sent, which is not modelled.
- A viewer can run three speech requests while the comment at `assets/shell/12-reader-ahead.js:3` allows two, in
  two ways. `makeRoomFor` returns early when its block is in either table, while `synth` and `fetchStream` each
  look in one (`ReadAhead.OverflowExample`, `ReadAhead.DemandOverflowsExactly`). And with the window open
  `fillAhead` counts only its own jobs, so it fills up beside a foreground request (`ReadAhead.OpenWindowExample`,
  `ReadAhead.FillOverflowsExactly`).
- Data after the stream terminator is an error exactly when the terminator does not end its piece
  (`FrameDecoder.TrailingDataExample`, `FrameDecoder.TrailingDataDependsOnSplit`).
- With a floor of zero segments the stale guard can call an update stale that lost nothing
  (`StaleGuard.StaleWithNothingLostExample`, `StaleGuard.KeepingEverythingIsStaleExactlyWhen`); with the default
  of 20 it cannot (`StaleGuard.KeepingEverythingIsNotStale`).
- The server need not hold every saved place: at most the 16 newest pages within 48 KiB are sent
  (`PlaceSync.SeventeenPagesExample`), a load that settles after a write can bring pages that this write removed from
  the server (`PlaceSync.LateLoadExample`; `PlaceSync.ServerHoldsAllExactlyWhen` covers both), and a page that is too
  large even without its scopes is dropped without a retry (`PlaceSync.DroppedChangeExample`,
  `PlaceSync.ChangeIsDroppedExactlyWhen`).
- A poll that fails after its session was stopped ends the session paired since
  (`CastBridge.StalePollExample`, `CastBridge.PollMeaning`).
- `docs/adr/0022-listen-progress-and-chapters.md:109-111` limits writes on hiding and leaving the page to one
  every 2 s as well; the code exempts them, and writes at once when a reading is finished
  (`PlaceSync.TwoWritesExample`, `PlaceSync.FlushSendsExactlyWhen`, `PlaceSync.ClearSendsExactlyWhen`).

## Model

| member | source | states |
|---|---|---|
| `BrokerLane.StepKeepsInv` | assets/shell/01-state-broker.js:24-66 | every event of a lane (set, delete, timer, write reply of any kind, read start, read answer) keeps the queue discipline, the order of sends, and the tie between queue, request in flight and stored draft |
| `BrokerLane.QueueDiscipline` | assets/shell/01-state-broker.js:24-53 | in every reachable lane: one request in flight at most; a pending timer means a queued set; an idle lane has nothing queued; sends are a subsequence of what was scheduled without repeats; at rest the last job sent is the last one scheduled |
| `BrokerLane.NewestEditSurvives` | assets/shell/01-state-broker.js:23-66 | as long as the newest scheduled job is a set that has not been settled by a final reply, its value and expected revision are the draft in local storage, in every reachable state |
| `BrokerLane.QueuedAndInflightAreDrafted` | assets/shell/01-state-broker.js:23-53 | a queued set equals the stored draft, and so does a set in flight with nothing queued |
| `BrokerLane.InflightBehindDelete` | assets/shell/01-state-broker.js:24-33 | a set in flight equals the stored draft if and only if it is still the last set scheduled |
| `BrokerLane.DisplacedDraftExample` | assets/shell/01-state-broker.js:24-33 | set a, timer, set b, delete leaves a in flight, a delete queued and b as the stored draft |
| `BrokerLane.ConcludeFrame` | assets/shell/01-state-broker.js:36-51 | a reply touches only the cache entry, keeps the draft of a queued set, and keeps the entry entirely unless the reply is final |
| `BrokerLane.DraftEndsExactlyWhen` | assets/shell/01-state-broker.js:36-52 | in every reachable lane with a set in flight and nothing queued: no status, status 0, 429, any status from 500 on and a success without a revision of 1 or more leave the set as the stored draft; an acknowledgement, a conflict and every other status leave no draft |
| `BrokerLane.ReplyIsStored` | assets/shell/01-state-broker.js:36-46 | an acknowledged set is what the cache holds, at the revision of the reply; a conflict leaves the value and revision of the service; a deleted key leaves no entry; each time a set queued behind stays the draft |
| `BrokerLane.FailureKeepsEntry` | assets/shell/01-state-broker.js:47-51 | a failure that is no conflict changes neither the cached value nor its revision, and leaves the entry alone altogether for a delete or with a job queued |
| `BrokerLane.ReplyPosts` | assets/shell/01-state-broker.js:36-52 | what the page is told after each kind of reply, and that a queued job without a timer is sent then |
| `BrokerLane.SendsExactlyWhen` | assets/shell/01-state-broker.js:24-33 | a set is stored and waits for its timer; a delete is sent at once, and a fired timer sends what is queued, unless a request is in flight |
| `BrokerLane.SetKeepsEntry` | assets/shell/01-state-broker.js:27 | a set keeps the cached value and revision, or null at 0 without an entry, and adds its draft |
| `BrokerLane.OutputsShowSchedule` | assets/shell/01-state-broker.js:24-53 | the jobs that the history of a run counts as scheduled are exactly those its outputs announce, in order |
| `BrokerReads.WriteActivityBumpsEpoch` | assets/shell/01-state-broker.js:25-52 | scheduling, starting and finishing a write each advance the epoch; nothing else changes `busy` |
| `BrokerReads.ReadChangesCacheOnlyWhenUndisturbed` | assets/shell/01-state-broker.js:55-66 | an answer changes the cache only if no write was scheduled, started, running or finished during the whole read |
| `BrokerReads.LateAnswerIsDropped` | assets/shell/01-state-broker.js:58-66 | a read started before a write's reply never overwrites what that reply left in the cache |
| `BrokerReads.DraftSurvivesRead` | assets/shell/01-state-broker.js:54-66 | a stored draft survives both halves of every read |
| `BrokerReads.ReadRefreshesExactlyWhenUndisturbed` | assets/shell/01-state-broker.js:55-66 | over the whole read: an answer with a proper body, with no write scheduled, started or finished since the read began and none running, is what the cache holds afterwards, with the draft that was there, and no entry for revision 0 without a draft; in every other case the cache stays as it is |
| `BrokerReads.ReadShowsCached` | assets/shell/01-state-broker.js:54-57 | a read shows at once the value of the draft, or the cached value without one, and schedules the draft again unless the lane is at work |
| `BrokerReads.AnswerShowsNews` | assets/shell/01-state-broker.js:61-67 | an answer is shown if and only if it counts and its revision is not the one cached when the read began; without a proper body an error is |
| `BrokerReads.ReadRemembersCached` | assets/shell/01-state-broker.js:56-58 | whatever happens during the read, the entry it compares with is the one cached at its start |
| `BrokerServer.ActionKeepsInv` | src/persistence/state.rs:117-212 | with a revisioned register behind the lane, every client step, delivery, loss and answer, late writes aside, keeps the reply in flight truthful about the register |
| `BrokerServer.QuiescentAgreement` | assets/shell/01-state-broker.js:24-66 | when no reply is lost and the lane is idle, the cache shows exactly the register's value and revision with no draft left, and an unconditional last edit is what both hold |
| `BrokerServer.UndisturbedReadAgrees` | assets/shell/01-state-broker.js:58-66 | a read answered by the service and not disturbed leaves the cache in agreement with the register, whatever it held before, if no draft is stored |
| `BrokerServer.WriteIsTakenExactlyWhen` | src/persistence/state.rs:117-212 | a set is taken if and only if it names no revision or the one the register has, and then is the content at the next revision; otherwise the register stays and the reply is a conflict that tells what is there; a delete is always taken |
| `BrokerServer.NewestEditIsNeverLost` | assets/shell/01-state-broker.js:44-53 | even with lost requests and replies, and lost requests that the service handles later, the newest unconditional edit is in the register or stored as a draft, as long as no late write undoes it |
| `BrokerServer.LateWriteUndoesExactlyWhen` | assets/shell/01-state-broker.js:44-53 | a late write keeps that guarantee if and only if it does not change the content while the newest unconditional job has been answered, or handled and about to be answered |
| `BrokerServer.UndoneIsLost` | assets/shell/01-state-broker.js:40-43 | when it does, the newest edit ends up neither in the register nor as a draft |
| `BrokerServer.LateWriteExample` | assets/shell/01-state-broker.js:24-53 | a run in which a lost set, handled late, replaces an acknowledged newer one |
| `BrokerServer.RetryReachesService` | assets/shell/01-state-broker.js:54-57 | from every state with an idle lane and a leftover unconditional draft, the next read, its timer and a write that arrives leave that draft in the register and the cache in agreement |
| `BrokerServer.SettledDeleteIsDone` | assets/shell/01-state-broker.js:36-39 | a delete that is the newest job and has had a final reply left the register empty and no draft, in every run with losses in which no late write undoes it |
| `BrokerServer.FailedDeleteIsUndoneExactlyWhen` | assets/shell/01-state-broker.js:44-57 | after the reply to a delete the next read queues the displaced set if and only if a draft is stored and the reply is neither a success nor a conflict, and then it queues that draft |
| `BrokerServer.UndoneDeleteExample` | assets/shell/01-state-broker.js:44-57 | set, delete, lost delete, read: the set is queued again |
| `StateBroker.LaneIdInjective` | assets/shell/01-state-broker.js:12 | two (scope, key) pairs never share a lane |
| `StateBroker.StorageKeyInjective` | assets/shell/01-state-broker.js:3-11 | two (scope, key) pairs never share a storage entry, for any artifact and viewer id |
| `StateBroker.Broker.constructor` | assets/shell/01-state-broker.js:2-4 | every lane starts fresh over what local storage holds |
| `StateBroker.Broker.Write` | assets/shell/01-state-broker.js:11 | replaces one lane's entry and leaves every other lane as it was |
| `StateBroker.Broker.Remember` | assets/shell/01-state-broker.js:23 | rewrites the cached value and keeps the draft of a queued set |
| `StateBroker.Broker.Schedule` | assets/shell/01-state-broker.js:24-29 | is the lane step of a set or a delete, on its own lane only |
| `StateBroker.Broker.TimerFired` | assets/shell/01-state-broker.js:28 | is the lane step of the 500 ms timer |
| `StateBroker.Broker.Drain` | assets/shell/01-state-broker.js:30-35 | takes the queued job into flight when the lane is neither busy nor timed |
| `StateBroker.Broker.Conclude` | assets/shell/01-state-broker.js:36-51 | acknowledgement, conflict, rejection and transient failure each leave the cache as the lane step says |
| `StateBroker.Broker.ReplyArrived` | assets/shell/01-state-broker.js:36-53 | is the lane step of a write reply, including the drain that follows |
| `StateBroker.Broker.Get` | assets/shell/01-state-broker.js:54-58 | is the lane step of a read start, including the retry of a draft |
| `StateBroker.Broker.AnswerArrived` | assets/shell/01-state-broker.js:59-67 | is the lane step of a read answer, with the epoch guard |
| `StateBroker.Broker.Serve` | assets/shell/01-state-broker.js:24-67 | for any interleaving of events over all lanes of a new broker, each lane of the object is where the run of its own events leads and the messages posted for it are those of that run, so the lane theorems hold of it with its own history |
| `FrameDecoder.ReceiveAccounts` | assets/shell/12-reader-ahead.js:298-318 | after every network read the bytes received are the encoding of the frames delivered followed by the bytes pending |
| `FrameDecoder.LengthsAreBigEndian` | assets/shell/12-reader-ahead.js:307 | a length is four bytes, the most significant first |
| `FrameDecoder.SendableMeaning` | assets/shell/12-reader-ahead.js:240-316 | what may be sent: 1 to 196608 bytes; whole 16-bit samples in a plain stream; in a timed one such samples behind a 1 or a word event behind a 2 |
| `FrameDecoder.HeaderMeaning` | assets/shell/12-reader-ahead.js:306-316 | for every buffer and byte count, whether the next header is the terminator, one of the errors, something to wait for, or a frame |
| `FrameDecoder.BufferLimit` | assets/shell/12-reader-ahead.js:305 | a buffer over 4194304 bytes is refused |
| `FrameDecoder.BytesAreCounted` | assets/shell/12-reader-ahead.js:310-312 | however the stream is split, what the limit of 4194304 counts is the bytes of the frames delivered |
| `FrameDecoder.DecodeIsSound` | assets/shell/12-reader-ahead.js:298-318 | a decoder that finishes has delivered frames whose encoding, with the terminator, is what it read |
| `FrameDecoder.DecodeInvertsEncode` | assets/shell/12-reader-ahead.js:298-318 | any stream of acceptable frames of 1 byte to 192 KiB, up to 4 MiB encoded, is delivered exactly, however it is split |
| `FrameDecoder.TrailingDataDependsOnSplit` | assets/shell/12-reader-ahead.js:298-318 | for all frames, bytes behind the terminator and splits: the decoder finishes if and only if the stream ends where a piece ends, and in every other split it fails with the trailing-data error |
| `FrameDecoder.TrailingDataExample` | assets/shell/12-reader-ahead.js:318 | for every stream, extra data in the same piece fails and in a piece of its own is never read |
| `FrameDecoder.Reader.DrainPending` | assets/shell/12-reader-ahead.js:306-317 | the inner loop takes off every complete frame, or fails where the source throws |
| `FrameDecoder.Reader.OnPiece` | assets/shell/12-reader-ahead.js:303-318 | one turn of the outer loop |
| `FrameDecoder.Reader.ReadAll` | assets/shell/12-reader-ahead.js:298-319 | the outer loop over all pieces is the decoding of the pieces |
| `AudioLedger.StepKeepsInv` | assets/shell/12-reader-ahead.js:229-294 | arrival, frame end, terminator, seek and rate change keep the ledger balanced and the schedule free of overlaps |
| `AudioLedger.LedgerIsConserved` | assets/shell/12-reader-ahead.js:229-293 | over every run: played + buffered = total, each is the sum over its frames, total is what was received minus exactly the resumed prefix, scheduled frames never overlap and end by `cursor` |
| `AudioLedger.SeekSetsPosition` | assets/shell/12-reader-ahead.js:262-275 | after `seekTo(t)` with t at or above the base, the position is t clamped to the end of the received audio |
| `AudioLedger.ChangeRateKeepsPosition` | assets/shell/12-reader-ahead.js:276-294 | `changeRate` never moves the position back, and forward by at most 0.00001 s per unplayed frame |
| `AudioLedger.ChangeRateIsStrictExactlyWhen` | assets/shell/12-reader-ahead.js:287 | the bound is strict if and only if some unplayed frame has been heard to any other point than 0.00001 s before its end |
| `AudioLedger.SlackIsReached` | assets/shell/12-reader-ahead.js:276-294 | a run that attains that bound, for a frame of any size and any new rate: the frame arrives, is sought to 0.00001 s before its end, and the rate changes |
| `AudioLedger.ChangeRateTakesEffect` | assets/shell/12-reader-ahead.js:276-294 | for every stream and every positive rate: afterwards the stream has that rate and a delay of 0 at rate 1 and 0.12 s at any other, and all that is not played is laid out at that rate, one frame right behind the other, from 0.01 s after now to `cursor` |
| `AudioLedger.SeekTakesEffect` | assets/shell/12-reader-ahead.js:262-275 | the same after a seek at the rate there is; a target before the base changes nothing |
| `AudioLedger.FreshScheduleLasts` | assets/shell/12-reader-ahead.js:284-292 | such a schedule lasts exactly what is left to hear divided by the rate |
| `AudioLedger.ArriveTakesEffect` | assets/shell/12-reader-ahead.js:238-261 | audio that arrives is one more frame of the samples not skipped, at the rate of the stream, right behind the others or from now on, the first one after the startup delay |
| `AudioLedger.StartedExactlyWhen` | assets/shell/12-reader-ahead.js:251-257 | over every run the startup delay is for the first audio kept and for no other |
| `AudioLedger.EndedTakesEffect` | assets/shell/12-reader-ahead.js:229-235 | the marker of a frame moves its samples from buffered to played, and finishes playback if and only if the stream is complete and no other frame will sound; a marker that is not the frame's any more does nothing |
| `AudioLedger.TerminatorTakesEffect` | assets/shell/12-reader-ahead.js:308-326 | the end of the stream finishes playback if and only if every frame is played |
| `AudioLedger.HeardIsPlayback` | assets/shell/10-reader-place.js:118-123 | while a frame sounds the position moves at its rate, from its offset at its start plus the delay to its end |
| `AudioLedger.SampleClock` | assets/shell/12-reader-ahead.js:241-247 | samples are counted at 24000 a second, and a resume position to the nearest one |
| `AudioLedger.PositionGrows` | assets/shell/10-reader-place.js:118-123 | with time alone the position never goes back |
| `AudioLedger.ArriveKeepsPosition` | assets/shell/12-reader-ahead.js:238-261 | audio that arrives does not shift the position |
| `AudioLedger.EndedKeepsPosition` | assets/shell/12-reader-ahead.js:229-235 | a frame that ends when it has sounded does not shift the position |
| `AudioLedger.OnlySeekMovesBack` | assets/shell/10-reader-place.js:118-123 | no step but an explicit seek moves the position back |
| `AudioLedger.FinishMeansPlayed` | assets/shell/12-reader-ahead.js:234-293 | playback is declared finished only when every kept sample is marked played and nothing is buffered |
| `AudioLedger.StuckExactlyAfterSeekPastEnd` | assets/shell/12-reader-ahead.js:262-275 | a stream whose network is done and in which nothing will sound any more, yet not declared finished, arises if and only if a seek goes to or past the end of an unfinished stream that is all there |
| `AudioLedger.StuckExample` | assets/shell/12-reader-ahead.js:262-275 | a run that gets stuck, for a frame of any size |
| `AudioLedger.GuardedSeekDoesNotStick` | assets/shell/13-reader-controls.js:7-8 | the guard of `forward` never makes such a seek |
| `AudioLedger.RewindDoesNotStick` | assets/shell/12-reader-ahead.js:467-471 | nor does the seek of `rewind`, 15 s back or to the beginning |
| `AudioLedger.Player.SeekTo` | assets/shell/12-reader-ahead.js:262-275 | the seek, refused exactly when the target lies before the base |
| `AudioLedger.SeekFrames` | assets/shell/12-reader-ahead.js:265-274 | the loop of the seek, one pass in place: the frames laid out one after the other from now on, each cut at the target, and the counts of both kinds |
| `AudioLedger.HaltAll` | assets/shell/12-reader-ahead.js:278-282 | the first loop of the rate change stores how far each unplayed frame has come |
| `AudioLedger.Reschedule` | assets/shell/12-reader-ahead.js:284-292 | the second loop marks what is within the slack, counts it, and lays out the rest at the new rate |
| `AudioLedger.Player.ChangeRateTo` | assets/shell/12-reader-ahead.js:276-294 | both loops together are the rate change |
| `AudioLedger.Player.Serve` | assets/shell/12-reader-ahead.js:229-294 | the stream record, given any arrivals, frame ends, seeks and rate changes at any times, follows exactly the run of those events, and its ledger stays conserved |
| `Streaming.LedgerHoldsWhatWasSent` | assets/shell/12-reader-ahead.js:238-318 | end to end: however the network splits a stream of sendable frames, and whatever seeks, rate changes and frame ends come between, the ledger has received the samples of the frames sent and keeps all but the resumed part |
| `Streaming.SplitDoesNotMatter` | assets/shell/12-reader-ahead.js:238-318 | two splits of a stream leave the same received and total counts |
| `ReadAhead.StepKeepsInv` | assets/shell/12-reader-ahead.js:8-108 | demand, completion of live and of aborted requests, window, retry timer, stop and voice change keep the job table equal to the live read-ahead requests |
| `ReadAhead.ReadAheadIsBounded` | assets/shell/12-reader-ahead.js:8-108 | over every run: at most two read-ahead requests, at most three requests in all, and every job for a later block has its entry in a table |
| `ReadAhead.TwoRequestsInAll` | assets/shell/12-reader-ahead.js:16-21 | while the window of the current block is not open there are at most two requests in all, provided every demand fits |
| `ReadAhead.DemandOverflowsExactly` | assets/shell/12-reader-ahead.js:17-18 | a demand that makes a request leaves at most two in all if and only if it fits: its block is not in the other table, or fewer than two jobs run |
| `ReadAhead.OverflowExample` | assets/shell/12-reader-ahead.js:17-48 | a run that reaches three requests |
| `ReadAhead.FillOverflowsExactly` | assets/shell/12-reader-ahead.js:27-43 | a fill leaves at most two requests in all if and only if no foreground request runs, or the jobs there are and the blocks the window still wants come to at most one |
| `ReadAhead.OpenWindowExample` | assets/shell/12-reader-ahead.js:27-43 | a run that reaches three requests with the window open: a demand that fits, then the retry timer |
| `ReadAhead.EvictKeepsInv` | assets/shell/12-reader-ahead.js:17-21 | making room leaves at most one job and never drops a nearer job for a farther one |
| `ReadAheadEffects.FillMeaning` | assets/shell/12-reader-ahead.js:27-43 | a fill looks at up to eight blocks behind the current one, within the queue and the stop, and prefetches the lowest in neither table until there are two jobs; each new request is a WAV one exactly when its block does not stream, and owns the entry of its block in that table and in no other; a closed window, a pause, a back-off and a used-up budget change nothing |
| `ReadAheadEffects.EvictMeaning` | assets/shell/12-reader-ahead.js:17-21 | making room aborts the farthest jobs until one is left and takes their entries from both tables, and changes nothing else |
| `ReadAheadEffects.DemandMeaning` | assets/shell/12-reader-ahead.js:44-48 | a demand makes a foreground request of its kind in its own table, after making room unless the block is in the other table; none if its own table has the block |
| `ReadAheadEffects.SettledMeaning` | assets/shell/12-reader-ahead.js:62-106 | a request that settles ends its job; if it failed its own entry goes, except that of a foreground stream; entries and jobs of other requests stay |
| `ReadAheadEffects.SettleFills` | assets/shell/12-reader-ahead.js:22-26 | the completion of a job fills the window again, and no other completion does |
| `ReadAheadEffects.StopMeaning` | assets/shell/11-reader-host.js:100-111 | stopping aborts every request and empties every table |
| `ReadAheadEffects.VoiceChangeMeaning` | assets/shell/10-reader-place.js:243-248 | a voice change drops the entries of all later blocks, aborts their jobs, keeps the current block and all before it, and fills again |
| `ReadAheadEffects.PlayMeaning` | assets/shell/12-reader-ahead.js:325-330 | a played block leaves the cache and the next one becomes the current one; an opened window and the retry timer fill |
| `ReadAhead.Scheduler.MakeRoomFor` | assets/shell/12-reader-ahead.js:17-21 | the eviction loop, farthest job first |
| `ReadAhead.Scheduler.FillAhead` | assets/shell/12-reader-ahead.js:27-43 | the fill loop over the blocks of the window |
| `ReadAhead.Scheduler.LoadCurrent` | assets/shell/12-reader-ahead.js:44-48 | the request for the block about to play |
| `ReadAhead.Scheduler.OnSettled` | assets/shell/12-reader-ahead.js:22-26 | completion, guarded by the identity of the request |
| `ReadAhead.Scheduler.DiscardFuture` | assets/shell/10-reader-place.js:243-248 | a voice change drops all later blocks and fills again |
| `ReadAhead.Scheduler.Serve` | assets/shell/12-reader-ahead.js:8-108 | the object with the maps of the source, given any events in any order, follows exactly the run of those events, and its requests stay bounded |
| `StaleGuard.PiecesTile` | conformance/stale-guard-reference.py:14-21 | the pieces concatenate to the input, are not empty, and split bytes stand only at piece ends, where every piece but the last has one |
| `StaleGuard.SplitPieces` | conformance/stale-guard-reference.py:14-21 | the scanning loop yields those pieces |
| `StaleGuard.Trim` | conformance/stale-guard-reference.py:24-30 | the two index loops trim both ends |
| `StaleGuard.TrimmedMeaning` | conformance/stale-guard-reference.py:24-30 | what trimming takes away is trim bytes at both ends, and what is left neither starts nor ends with one |
| `StaleGuard.ByteClasses` | conformance/stale-guard-reference.py:9-11 | the split bytes and the trim bytes, one by one |
| `StaleGuard.Digests` | conformance/stale-guard-reference.py:33-41 | the loops collect the digest set of all files |
| `StaleGuard.DigestsMeaning` | conformance/stale-guard-reference.py:33-41 | the digest set is exactly the hashes of the trimmed pieces of 12 bytes or more, each behind the path of its file and a NUL, or alone in a body of one file |
| `StaleGuard.PathsSeparate` | conformance/stale-guard-reference.py:33-41 | two files of a bundle, with paths free of NUL, hash the same bytes if and only if the path and the segment are the same |
| `StaleGuard.ReindentKeepsDigests` | conformance/stale-guard-reference.py:14-41 | inserting trim bytes at the start of files and after split bytes leaves the digest set unchanged, for every hash |
| `StaleGuard.CrossMultiply` | conformance/stale-guard-reference.py:67-69 | the cross-multiplied comparison is the comparison of the two similarities |
| `StaleGuard.BaseIsUnique` | conformance/stale-guard-reference.py:64-69 | at most one revision has maximal similarity and is the highest such |
| `StaleGuard.FindBase` | conformance/stale-guard-reference.py:64-69 | the single pass returns the revision of maximal Jaccard similarity, the highest on ties |
| `StaleGuard.Sorted` | conformance/stale-guard-reference.py:65 | the candidates in strictly ascending order, all of them and no others |
| `StaleGuard.CollectCandidates` | conformance/stale-guard-reference.py:61-63 | the digest sets of the current and all retained revisions |
| `StaleGuard.Evaluate` | conformance/stale-guard-reference.py:55-76 | base, counts and verdict are as the guard defines them, for every history and threshold |
| `StaleGuard.BaseBeatsEveryRevision` | conformance/stale-guard-reference.py:61-69 | no current or retained revision shares a larger part with the update than the base, and none that shares as much is higher |
| `StaleGuard.DefaultVerdict` | conformance/stale-guard-reference.py:55-76 | with the default thresholds an update is stale if and only if its base is not the current revision and of what came since at least 20 digests and a tenth are lost |
| `StaleGuard.KeepingEverythingIsNotStale` | conformance/stale-guard-reference.py:70-74 | with the default thresholds, or any floor above 0, an update that keeps all current digests is never stale |
| `StaleGuard.KeepingEverythingIsStaleExactlyWhen` | conformance/stale-guard-reference.py:70-74 | such an update loses nothing; it is stale if and only if the floor is 0, current has digests, and some other revision is the base of the update with the share 0 or every current digest in that base |
| `StaleGuard.StaleWithNothingLostExample` | conformance/stale-guard-reference.py:70-74 | an update judged stale with floor 0 though it lost nothing |
| `StaleGuard.IdenticalIsBasedOnCurrent` | conformance/stale-guard-reference.py:64-71 | an update with the current digests is based on the current revision |
| `StaleGuard.StaleMeansLostWork` | conformance/stale-guard-reference.py:70-76 | a stale verdict names an older retained revision, and at least the floor of digests is in current but in neither base nor new body |
| `Chunker.FindEnd` | assets/shell/11-reader-host.js:139-144 | the backward scan finds that cut |
| `Chunker.LastBreakIsLast` | assets/shell/11-reader-host.js:141-143 | the cut follows the last white space of the second half of the window, or is the whole window if there is none |
| `Chunker.CutMeaning` | assets/shell/11-reader-host.js:139-144 | a text that fits is not cut; another is cut behind the last white space in the second half of what fits, or where the limit falls if there is none |
| `Chunker.CutIsUnique` | assets/shell/11-reader-host.js:139-144 | there is only one such place |
| `Chunker.SplitLongKeepsInk` | assets/shell/11-reader-host.js:136-148 | every part is trimmed, not blank and within the limit, and together they keep all text but white space |
| `ChunkGroups.SplitMeaning` | assets/shell/11-reader-host.js:136-148 | the text is the concatenation of stretches, each cut at that place of the text that is left, and the parts are exactly the stretches that are not blank, trimmed, in order |
| `Narration.TrimMeaning` | assets/shell/11-reader-host.js:146 | trimming takes off white space at both ends, all of it, and nothing else |
| `Narration.SpacesAre` | assets/shell/11-reader-host.js:142 | the 25 characters that count as white space |
| `Chunker.SplitLongText` | assets/shell/11-reader-host.js:136-148 | the loop computes that split |
| `Chunker.ChunksKeepText` | assets/shell/11-reader-host.js:149-165 | for every text and sentence partition: chunks within the limit, trimmed, not blank; no character but white space lost, repeated or moved; a sentence that fits is never broken |
| `ChunkGroups.ChunksAreGreedy` | assets/shell/11-reader-host.js:149-165 | for every partition into sentences the chunks are the trimmed sentences, and the parts of those over the limit, in order and with single spaces between them; a chunk ends only where the next sentence would not fit behind it or a part of a long sentence starts |
| `Chunker.ChunksBySentence` | assets/shell/11-reader-host.js:154-164 | the sentence loop computes those chunks |
| `Chunker.Chunks` | assets/shell/11-reader-host.js:149-165 | both branches of `chunks` return sendable chunks and keep the text |
| `Pronunciation.Validate` | assets/shell/11-reader-host.js:115 | the `every` scan accepts exactly ordered, disjoint, well-formed hints |
| `Pronunciation.PronunciationPlan` | assets/shell/11-reader-host.js:112-128 | the loop builds the plan |
| `Pronunciation.PlanTiles` | assets/shell/11-reader-host.js:112-128 | for every hint list the segments tile the spoken text and their sources tile the original text, in order; literal segments are verbatim |
| `Pronunciation.HintsAreSpoken` | assets/shell/11-reader-host.js:122-125 | the replacements are the usable hints, one for one and in order, each with its normalized text over its own source range |
| `Pronunciation.UsableExactlyWhen` | assets/shell/11-reader-host.js:114-116 | the hints are used if and only if there are at most 128, in order and apart, each over 1 to 200 characters of the text, with at most 200 characters, none a control character and not all white space |
| `Pronunciation.SpokenIsWords` | assets/shell/11-reader-host.js:124 | what is spoken for a hint is its words with one space between each two |
| `Narration.WordsMeaning` | assets/shell/11-reader-host.js:124 | the words of a text hold no white space, and the text is these words with white space between and around them |
| `Pronunciation.IdentityExactlyWhenMalformed` | assets/shell/11-reader-host.js:114-116 | the plan is the identity if and only if there are no hints, more than 128, or one that cannot be used |
| `Pronunciation.RangeDefined` | assets/shell/11-reader-host.js:129-132 | a spoken range maps to something if and only if both its ends lie in the spoken text |
| `Pronunciation.RangeInBounds` | assets/shell/11-reader-host.js:129-135 | a non-empty spoken range maps to a non-empty source range in bounds |
| `Pronunciation.RangeMonotone` | assets/shell/11-reader-host.js:129-135 | the mapping is monotone in both ends |
| `Pronunciation.LiteralRangeIsVerbatim` | assets/shell/11-reader-host.js:133-134 | inside a literal segment the source slice is the spoken slice |
| `Pronunciation.ReplacementMapsWhole` | assets/shell/11-reader-host.js:133-134 | inside a replacement every range maps to all that was replaced |
| `Pronunciation.RangeIsHull` | assets/shell/11-reader-host.js:129-135 | a range maps from the source of its first character to that of its last |
| `Pronunciation.WholeRange` | assets/shell/11-reader-host.js:129-135 | the whole spoken text maps to the whole source text |
| `PlaceSync.StepKeepsInv` | assets/shell/10-reader-place.js:50-85 | save, clear, flush, timer, reply, settling and load completion keep the invariant: one write, its content a payload of the pages it was decided on, within 16 pages and 48 KiB |
| `PlaceSync.NoChangeIsForgotten` | assets/shell/10-reader-place.js:37-85 | in every run at most one write is in flight; an unsaved change has a timer or a write in flight while sync is enabled; at rest nothing is unsaved, the server holds what the last write sent, if it sent anything, and that write was about exactly the current pages unless a load has changed them since |
| `PlaceSync.ServerHoldsAllExactlyWhen` | assets/shell/10-reader-place.js:16-58 | in every run, loads at any moment included: at rest, when the last write sent something, the server holds exactly the current pages in full if and only if that write was about these pages and they were at most 16 that fit 48 KiB, or the only page was sent without its scopes and a load has brought that copy back; with no page left the key is deleted |
| `PlaceSync.LateLoadExample` | assets/shell/10-reader-place.js:18-37 | whatever was written, a load that settles after it leaves a page at rest that the server does not hold |
| `PlaceSync.SeventeenPagesExample` | assets/shell/10-reader-place.js:41 | whatever the sizes and whichever 17 pages, a run leaves them at rest with at most 16 on the server |
| `PlaceSync.ChangeIsDroppedExactlyWhen` | assets/shell/10-reader-place.js:55-56 | a write that comes to its payload drops the change, with nothing sent, nothing pending and the server as it was, if and only if no prefix of the newest pages fits and the newest page does not fit without its scopes either |
| `PlaceSync.DroppedChangeExample` | assets/shell/10-reader-place.js:44-56 | a run that leaves a page that is too large with and without its scopes at rest, not dirty, with nothing on the server |
| `PlaceSync.WritesAreRateLimited` | assets/shell/10-reader-place.js:50-85 | a write starts only when none is in flight, not before `blockedUntil`, and 30 s after the last one, 2 s if a pause or stop asked, at once only if forced; it carries the payload of the pages of that moment, within 16 pages and 48 KiB |
| `PlaceSync.FlushSendsExactlyWhen` | assets/shell/10-reader-place.js:78-85 | a flush starts a write if and only if sync is free to write, a payload fits, and it is forced or the last write is 2 s old |
| `PlaceSync.ClearSendsExactlyWhen` | assets/shell/10-reader-place.js:77 | finishing a reading starts a write if and only if sync is enabled, loaded, idle and not blocked, the page is known and a payload fits, however recent the last write |
| `PlaceSync.TwoWritesExample` | assets/shell/10-reader-place.js:78-85 | a run in which a second write starts any time less than 2 s after the first |
| `PlaceSync.ChangeDuringWriteIsWrittenLater` | assets/shell/10-reader-place.js:59-76 | a change made during a write arms another write when the reply comes, unless the reply disables sync |
| `PlaceSyncEffects.ReplyMeaning` | assets/shell/10-reader-place.js:59-65 | every reply frees the lane; 2xx, and 404 to a delete, are what the server took; 400, 401, 403, 409, 413, and 404 to a put, and no others, end sync; any other status or none leaves the change unsaved and a timer armed; 429 blocks writes for 60000 ms |
| `PlaceSyncEffects.FailedWriteIsMadeAgain` | assets/shell/10-reader-place.js:50-69 | the timer armed by a reply that neither took the write nor ended sync finds the lane free and sends what the pages are then |
| `PlaceSyncEffects.SaveMeaning` | assets/shell/10-reader-place.js:72-76 | a place is stored and a timer armed unless the stored one has the same time; the timer is due at the latest of 500 ms from now, 30000 ms after the last write and the end of a block; nothing else changes |
| `PlaceSyncEffects.ClearMeaning` | assets/shell/10-reader-place.js:77 | finishing a reading takes away exactly its page once loaded, and writes the rest, or deletes the key with no page left, unless it has to wait for a write or a block |
| `PlaceSyncEffects.TickMeaning` | assets/shell/10-reader-place.js:50-58 | a fired timer waits 1000 ms more while loading or writing and to the end of a block, and otherwise starts the write of the pages |
| `PlaceSyncEffects.FlushIsPutOff` | assets/shell/10-reader-place.js:82-83 | a flush within 2000 ms of the last write that is not forced only moves the timer to the end of them |
| `PlaceSyncEffects.NothingToWrite` | assets/shell/10-reader-place.js:50-80 | with nothing unsaved a timer or a flush does nothing, and once sync has ended neither does a change |
| `PlaceSyncEffects.EndedForGood` | assets/shell/10-reader-place.js:50-85 | over every run, once sync has ended it stays so, nothing is written and no timer is armed |
| `PlaceSyncEffects.UrgencyMeaning` | assets/shell/10-reader-place.js:77-85 | only a flush of an unsaved change or a finished reading can hurry the next write, a plain flush never forces it, and a write that starts ends the hurry |
| `PlaceSyncEffects.WriteGaps` | assets/shell/10-reader-place.js:50-85 | in milliseconds: 30000 between writes nobody hurried, 2000 when only pauses and stops did |
| `PlaceSync.Load` | assets/shell/10-reader-place.js:23-36 | the merge loop, limited to 16 pages, with the copy back to local storage and the one-time upload of a place known only here |
| `PlaceSync.NewerCopyWins` | assets/shell/10-reader-place.js:26-32 | each listed page ends up as the newer of its server and local copies, in the pages and in local storage alike |
| `PlaceSync.UploadExactlyWhenLocalIsNewer` | assets/shell/10-reader-place.js:30 | the merge asks for an upload if and only if some local copy is newer |
| `PlaceSyncEffects.LoadBringsTheNewer` | assets/shell/10-reader-place.js:26-32 | of each of the first 16 listed pages with a valid entry the newer copy ends up in the pages and in local storage, and the server's wins a tie |
| `PlaceSyncEffects.LoadLeavesOthers` | assets/shell/10-reader-place.js:26-36 | no other page changes, except that outside a bundle the place of the page known only to local storage is taken up |
| `PlaceSyncEffects.LoadUploadsExactlyWhen` | assets/shell/10-reader-place.js:26-36 | loading asks for an upload if and only if the local copy of a listed page is newer or that place is known only here |
| `PlaceSyncEffects.LoadMeaning` | assets/shell/10-reader-place.js:19-37 | after the answer to the load writes may start, a refusal ends sync, and what only this device knows has a timer |
| `PlaceSync.BuildPayload` | assets/shell/10-reader-place.js:40-49 | the loop computes the payload |
| `PlaceSync.PayloadMeaning` | assets/shell/10-reader-place.js:40-49 | the payload is the longest prefix of the newest pages, at most 16, that fits 48 KiB, else the newest page without its scopes, else nothing |
| `PlaceSync.PayloadIsWholeExactlyWhen` | assets/shell/10-reader-place.js:41-43 | the payload is all pages if and only if there are at most 16 and they fit |
| `PlaceSync.PayloadIsMissingExactlyWhen` | assets/shell/10-reader-place.js:44-48 | there is no payload if and only if no prefix fits and the newest page does not fit without its scopes |
| `PlaceSync.NewestExists` | assets/shell/10-reader-place.js:41 | every set of pages has an order from the newest to the oldest, so no write is excluded |
| `PlaceSync.Synchronizer.Serve` | assets/shell/10-reader-place.js:50-85 | the object with the fields of the closure, given any events in any order, follows exactly the run of those events, keeps the invariant and forgets no change |
| `CastBridge.StepKeepsInv` | assets/cast.js:259-306 | every handler and completion keeps the session invariant |
| `CastBridge.NoSessionLeaks` | assets/cast.js:259-306 | in all interleavings each well-formed session that pairing returned is the one held or has had a stop requested; after revocation or destruction all have |
| `CastBridge.StoredSessionIsNotOverwritten` | assets/cast.js:279-306 | only the newest pair request can store its session, a held session is never replaced, and it is dropped only with a stop request |
| `CastBridge.SessionIsKeptExactlyWhen` | assets/cast.js:279-306 | over every run between a pair request and its reply: the session is stored if and only if it is well-formed, the frame is current, and there was no stop, no load of the frame, no end of the bridge and no failed poll meanwhile; a well-formed one that is not stored is stopped |
| `CastBridge.WellFormedExactlyWhen` | assets/cast.js:292 | ids of 16 to 180 and tokens of 24 to 180 letters, digits, `_` and `-` |
| `CastBridge.PairStartsExactlyWhen` | assets/cast.js:279-286 | a pair request starts, with a token of its own, if and only if the bridge is ready and able, the code is well-formed and no session is held, being paired or being stopped |
| `CastBridge.SessionOnTimeIsKept` | assets/cast.js:297-300 | a session on time is stored and polled, and nothing is stopped |
| `CastBridge.LateSessionIsStopped` | assets/cast.js:293-296 | a late one is stopped and the held one is left alone |
| `CastBridge.MalformedSessionIsIgnored` | assets/cast.js:292-305 | a malformed one is neither stored nor stopped |
| `CastBridge.PairEndMeaning` | assets/cast.js:301-306 | a failed request ends the pairing if it is still the current one |
| `CastBridge.StopMeaning` | assets/cast.js:259-277 | a stop gives up the held session with one stop request and makes what is being paired late |
| `CastBridge.PollMeaning` | assets/cast.js:500-517 | a poll reply gives up the session if and only if the poll failed, whatever it asked about, or the session it asked about is still held and over |
| `CastBridge.StalePollExample` | assets/cast.js:500-517 | a run in which the failed poll of a stopped session ends the session paired after it |
| `CastBridge.FrameLoadMeaning` | assets/cast.js:551-577 | a load of the frame gives up the session, and from the second on the frame is not listened to again |
| `CastBridge.RevokedExactlyWhen` | assets/cast.js:524-561 | over every run the frame is revoked, for good, if and only if it loads after it has sent a hello or a ready or has loaded before |
| `CastBridge.ReadyExactlyWhen` | assets/cast.js:527-592 | over every run the bridge is ready if and only if the frame has said so and has not loaded, nor the bridge been destroyed, since |
| `CastBridge.DestroyMeaning` | assets/cast.js:579-592 | destroying gives up the session, once |
| `CastBridge.Host.Serve` | assets/cast.js:259-306 | the object with the fields of the closure, given any handlers and completions in any order, follows exactly the run of those events, and no session leaks |
| `DevTools.StepKeepsInv` | browser-tests/src/connection.rs:173-307 | every critical section keeps table, channels and outcomes disjoint and complete |
| `DevTools.AnsweredAtMostOnce` | browser-tests/src/connection.rs:173-307 | over every run each id handed out is still called for, with an entry or a message on its way, or has one outcome that no later event changes; once closed the table is empty forever |
| `DevTools.AnsweredOnlyForACause` | browser-tests/src/connection.rs:173-307 | over every run a call is refused only for a close before it, and otherwise returns only because of an event after it: its own reply, its own timeout or write error, a failure of the session it was made on, or the close |
| `DevTools.OutcomesAreFinal` | browser-tests/src/connection.rs:265-307 | a step adds at most the outcome of its own call and changes none |
| `DevTools.MessagesHaveACause` | browser-tests/src/connection.rs:173-253 | a message is sent only to a pending command, by its reply, its session's failure or the close |
| `DevTools.FailSessionIsExact` | browser-tests/src/connection.rs:219-238 | failing a session fails exactly the commands pending on it |
| `DevTools.ReplyMeaning` | browser-tests/src/connection.rs:173-184 | a reply takes exactly its own command off the table and sends it the value; one that nobody waits for does nothing |
| `DevTools.ReplyReachesCaller` | browser-tests/src/connection.rs:173-307 | over every run after the reply to a written command: until its call ends, it can end with exactly that value |
| `DevTools.MessageWaits` | browser-tests/src/connection.rs:265-307 | over every run a message on its way stays until its call ends |
| `DevTools.CallMeaning` | browser-tests/src/connection.rs:265-290 | a call takes the next id and waits under its session, or is refused once closed |
| `DevTools.EndMeaning` | browser-tests/src/connection.rs:285-307 | a call ends with what it received, its write error or its timeout, and is off the table |
| `DevTools.SessionsMeaning` | browser-tests/src/connection.rs:204-262 | over every run a session is registered if and only if its last registration comes after every event that forgets it and every close |
| `DevTools.CloseMeaning` | browser-tests/src/connection.rs:240-253 | closing sends the close to exactly the pending commands and leaves messages already on their way |
| `DevTools.Shared.FailSession` | browser-tests/src/connection.rs:219-238 | collects, removes and fails the commands of a session |
| `DevTools.Shared.Serve` | browser-tests/src/connection.rs:173-307 | however callers, the reader task and page shutdown interleave, the shared table follows exactly the run of those events, every id stays accounted for, and no outcome that was there changes |
| `ChunkedBody.Position` | browser-tests/src/http.rs:239-242 | the first CR LF, if there is one |
| `ChunkedBody.DecodeChunked` | browser-tests/src/http.rs:236-256 | the loop is the recursive decoding, error cases included, and terminates |
| `ChunkedBody.DecodeInvertsEncode` | browser-tests/src/http.rs:236-256 | any well-formed chunks, closing line and trailer decode to the chunk data |
| `ChunkedBody.DecodeIsSound` | browser-tests/src/http.rs:236-256 | whatever decodes is such an encoding of what it decodes to |
| `ChunkedLines.DecodeExplains` | browser-tests/src/http.rs:236-256 | any bytes are well-formed chunks followed by an ending that gives the outcome: a size line of 0; no size line, or data without both bytes behind it; a size line that is none; or fewer bytes than announced |
| `ChunkedLines.EndingDecides` | browser-tests/src/http.rs:236-256 | and after any well-formed chunks each ending has that outcome |
| `ChunkedBody.StandardLineAnnounces` | browser-tests/src/http.rs:243-245 | a size line of section 7.1 of RFC 9112 announces its size in any case, with leading zeros, blanks and extensions |
| `ChunkedBody.HexSpells` | browser-tests/src/http.rs:244 | every size has a hexadecimal spelling that reads back as that size |
| `ChunkedLines.DigitsCount` | browser-tests/src/http.rs:244 | the digits are 0 to 9, a to f and A to F, and count from 0 to 15 |
| `ChunkedLines.SpellingIsHex` | browser-tests/src/http.rs:244 | a spelling without leading zeros is, in lower case, the shortest spelling of its value |
| `ChunkedLines.LeadingZero` | browser-tests/src/http.rs:244 | leading zeros do not count |
| `ChunkedLines.FromHexExactlyWhen` | browser-tests/src/http.rs:244-245 | a size is a number below 2^64 in at least one digit, behind a plus or not, and nothing else is |
| `ChunkedLines.WhiteExactlyWhen` | browser-tests/src/http.rs:244 | white space is exactly the UTF-8 of the White_Space code points |
| `ChunkedLines.SizeLineMeaning` | browser-tests/src/http.rs:243-245 | a size line is read as what stands before the first semicolon, without the white space around it |
| `ChunkedLines.AnySpellingAnnounces` | browser-tests/src/http.rs:243-245 | a size may be written in either case, with leading zeros and any white space around it |
| `ChunkedBody.BodyArrives` | browser-tests/src/http.rs:236-256 | however a sender cuts the body, spells the sizes and extends the lines, the receiver gets the body |

## Left out

- State broker: message validation (`handle`), the key listing (`hello`), the texts chosen by `reason`, and the upper bound of safe integers.
- State broker: other tabs that share local storage, and other writers of the same key; the register theorems are about one lane as the only writer.
- State broker: JSON encoding; a stored entry is a record, and a corrupt one reads as absent. Local storage writes and `postMessage` succeed.
- BrokerServer.ActionKeepsInv: does not model the size and key-count limits, authorization or the audit rows of the state service; such refusals are write replies that BrokerLane allows in any order.
- FrameDecoder.DecodeIsSound: does not model the check after the loop that at least one sample was received, nor a connection that breaks; the frame contents are delivered, not played.
- Audio: Web Audio nodes, the pitch processor, gain and underrun measurements; each frame keeps its start, offset, rate and duration only.
- Audio: floating point rounding; times are real numbers, so sums of durations are exact.
- Audio: the word events of a timed stream are delivered as frames; their timing and highlights are not modelled.
- Read-ahead: how many bytes are buffered, how long a back-off lasts and how many seconds a block takes; each may make the window wait, stop or be full at any time.
- Read-ahead: the retry loops of a foreground request, which count as one request; role previews and other speech requests outside the block queue.
- ReadAhead.StepKeepsInv: relies on the loader's own guards (`loading`, one stream at a time) for having one foreground request at a time; they are a condition of the demand event.
- Stale guard: SHA-256 is any function, so digests may collide; the message text and the synthetic vectors of the reference file are not modelled. The share of 0.10 is the exact rational 1/10.
- Narration: `Intl.Segmenter` is any partition of the text into sentences. In Chunker a character is a code point and in Pronunciation a UTF-16 code unit, as in the source.
- Narration: pauses, voice gain and the choice of voice.
- Place sync: the fetch of the load; its completion is one step with any listing and any local storage, its failure another, and the 2.5 s timeout beside it a third. Writes to local storage succeed.
- PlaceSync.BuildPayload: the encoded size of a list of pages is a parameter, and the built-in sort is any order from the newest to the oldest; the source breaks ties by order of insertion. Fields of a stored place besides the current one and its scopes are not modelled.
- Cast bridge: screen capture, cropping, the recorder, the upload socket and what is shown to the child frame; only session ownership is modelled.
- DevTools: event sinks and subscriptions, the encoding of commands, and wrap-around of the 64-bit command id.
- DevTools.MessagesHaveACause: a message taken from the table counts as sent at once; the source sends it just after releasing the lock, which no caller can tell from a late receive.
- Chunked bodies: `parse_response` around the decoder (status line, headers, content length). A `usize` has 64 bits.
- User interface, placement, dialogs, and the services behind them: few properties beyond single branches.
