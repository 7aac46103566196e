# TalkGo backend: a verified model

TalkGo relays speech between two people in a room: audio comes in over WebRTC, is decoded,
transcribed, translated, synthesized, encoded again and sent to the other side. Its Go backend is a
set of small concurrent state machines over maps, queues and buffers. This project models those
machines in Dafny and proves what they keep over all their runs.

How the files are organised:

| file | part of the backend |
|---|---|
| `TranslatePipeline.dfy` | the concurrent translation stage with its reorder buffer, as a step system over channels, wait group and tasks; `Sequential` is the one-phrase-at-a-time pipeline it replaced |
| `TranscriptDelivery.dfy` | which transcripts are translated, and which spoken texts reach the lossy channel |
| `Room.dfy` | a room, and short codes |
| `RoomService.dfy`, `RoomServiceRuns.dfy` | the room service as one state and one function per operation; its invariant, runs, deletion, sweep, isolation |
| `RoomReplies.dfy` | replies and changes of every service call, field by field |
| `GracePeriods.dfy` | grace timers over timed runs, and the inputs on which the service falls short |
| `StaleTimers.dfy` | the timers a join cannot stop, characterised by the history of operations |
| `Service.dfy` | the service as an object with maps updated in place, proved to be the functions above |
| `FrameDrain.dfy` | `drainOldest` with a consumer between its selects |
| `Latency.dfy`, `LatencyHistory.dfy` | the pooled latency tracker, the two goroutines that use it, and its events in terms of the calls alone |
| `OpusFraming.dfy` | PCM16 conversion and the 480-sample frame accumulator |
| `PionPeer.dfy` | peer connection maps, the meeting of tracks and handlers, RTP headers |
| `RateLimiter.dfy` | the fixed-window limiter |
| `Hub.dfy` | the signaling hub's room index and peer-left messages |
| `LoadReport.dfy` | quicksort, percentiles and statistics of the load generator |
| `Common.dfy` | shared value types |

Where the source changes an object step by step there is a class with the same fields, and each of its
methods is tied to a function of the old state. The properties are then proved about those functions.
Inputs from outside are parameters: the answers of the remote services, random draws, fresh
identifiers, the clock, the order in which a map is iterated (an arbitrary pick), which recycled object
the pool returns, and whether creating a peer connection succeeds.

## Where the code does not do what its documentation says

Each of these is stated as a condition that holds if and only if the code behaves as documented,
together with a concrete case.

- A join is meant to stop every grace timer of its room, so that the room is not deleted under a user
  who comes back (`internal/app/roomsvc/service.go:168`, `:192-193`). Timers are looked up through the
  sessions that are still stored. After disconnect and leave the session is gone but its timer is not,
  so a later join cannot stop it and it deletes the room. `StaleTimers.JoinLeavesTimerExactlyWhen`,
  `GracePeriods.JoinClearsRoomTimersExactlyWhen`, `GracePeriods.RejoinedRoomCanBeDeleted`.
- Retry-After truncates the remaining time to whole seconds (`internal/adapters/http/ratelimit.go:48`,
  `:79-84`). A client that waits as long as it was told can be denied again.
  `RateLimiter.RetryAfterIsEnoughExactlyWhen`, `RateLimiter.RetryAfterCanBeTooShort`.
- Deleting a room promises to clean up all its sessions (`internal/app/roomsvc/service.go:128`). The
  prefix scan skips the key of an empty user identifier. `GracePeriods.DeleteMissesEmptyUser`,
  `GracePeriods.EmptyUserSurvivesDelete`.
- Leaving with a room identifier that contains a colon can name another room's key; the connection is
  closed before the room lookup fails (`internal/app/roomsvc/service.go:277-299`). This concerns direct
  callers of the exported method: the signaling handler passes the stored session's own room
  (`internal/app/roomsvc/service.go:529`), and nothing else in the repository calls it.
  `GracePeriods.LeaveWithForeignKey`, `GracePeriods.ForeignKeyClosesConnection`.
- When an earlier track of a session ends it removes whatever track the session has now
  (`internal/adapters/webrtc/pion_peer.go:120-126`), so a handler registered afterwards misses a later
  track that is still live. `PeerMaps.LiveTrackIsHeardExactlyWhen`, `PeerMaps.EndOfOldTrackHidesNewTrack`.

## Model

| member | source | states |
|---|---|---|
| TranslatePipeline.SequentialIsTexts | docs/adr/0006-concurrent-translate-pipeline.md:31-58 | numbering the accepted phrases and speaking them by number gives exactly the texts and audio of the sequential pipeline |
| TranscriptDelivery.PhraseContributes | internal/adapters/translator/pipeline_translator.go:110-162 | phrase by phrase: a failed translation contributes nothing, otherwise exactly its text is spoken and its synthesized chunks, if synthesis succeeds, are played |
| TranscriptDelivery.PromptEchoExactlyWhen | internal/adapters/translator/pipeline_translator.go:173-176 | a transcript is an echo if and only if the prompt is not empty and both have the same core with any white space around it |
| TranscriptDelivery.DroppedExactlyWhen | internal/adapters/translator/pipeline_translator.go:181-190 | a transcript is dropped if and only if it is empty, echoes the prompt, or has at least eight characters and is detected as a language that differs by more than letter case |
| TranslatePipeline.StepKeepsInv | internal/adapters/translator/pipeline_translator.go:76-165 | every step of the reader, the phrase goroutines, the closer, the drainer, the consumers and cancellation keeps the protocol's invariant |
| TranslatePipeline.OutputIsPrefixOfSequential | internal/adapters/translator/pipeline_translator.go:80-165 | at every point of every run, cancelled or not, spoken texts and audio are prefixes of the sequential ones, and the lossy transcripts are an in-order subsequence of the spoken texts |
| TranslatePipeline.ClosedOutputIsSequential | internal/adapters/translator/pipeline_translator.go:125-165 | once an uncancelled run has closed its outputs they equal the sequential ones, nothing is pending and every assigned number was drained |
| TranslatePipeline.NumbersAreConserved | internal/adapters/translator/pipeline_translator.go:84-118 | assigned numbers split without overlap into drained, pending, queued, sending and translating; between drains the expected number is not pending; no send follows the close of the result channel |
| TranslatePipeline.NoDeadlock | internal/adapters/translator/pipeline_translator.go:76-163 | an uncancelled reachable state that is not finished has an enabled step, despite bounded channels and the wait group |
| TranslatePipeline.StepUsesWork | internal/adapters/translator/pipeline_translator.go:76-163 | every step lowers the work still to do, so no schedule goes on for ever |
| TranslatePipeline.RunsAreFinite | internal/adapters/translator/pipeline_translator.go:76-163 | every run's length is bounded by its transcripts and the audio they give rise to |
| TranslatePipeline.MaximalRunsDeliverEverything | internal/adapters/translator/pipeline_translator.go:80-165 | an uncancelled run that cannot be extended has finished and delivered the whole sequential output |
| TranslatePipeline.OrderedDrainer.Receive | internal/adapters/translator/pipeline_translator.go:129-165 | the drainer's loop on its own map and counter, sending audio chunk by chunk to a reader that may stop at any chunk: exactly the first chunks of the pass go out; if it does not end early, it took the buffered results up to the first gap and no others, spoke their texts in order, and the first texts that fit went to the transcript channel |
| TranslatePipeline.PassSendsTranscripts | internal/adapters/translator/pipeline_translator.go:146-149 | of the texts of a pass, as many as the four-place channel has room for are sent, the first ones |
| TranscriptDelivery.TranscriptsMissExactlyWhenFull | internal/adapters/translator/pipeline_translator.go:146-149 | over every run a drained text is spoken, and it is missing from the transcripts if and only if four waited as it was drained |
| TranscriptDelivery.TranscriptsArrive | internal/adapters/translator/pipeline_translator.go:80-165 | over every run whose reader keeps up, the transcripts are exactly the spoken texts in order, and after an uncancelled close exactly those of the sequential pipeline |
| TranslatePipeline.DrainsAllExactlyWhen | internal/adapters/translator/pipeline_translator.go:156-162 | a pass ends early if and only if its audio is more than the reader takes before the context ends; otherwise it is the whole pass |
| TranslatePipeline.OnePassDrainsToGap | internal/adapters/translator/pipeline_translator.go:134-144 | one pass speaks in number order exactly the run of buffered results up to the first gap and leaves the others as they were |
| TranslatePipeline.ChecksAmountToOnePass | internal/adapters/translator/pipeline_translator.go:132-164 | from every checking state within the audio channel's capacity the step system has steps to the drainer that one pass of the loop leaves, ready to receive, with the audio of the drained phrases played in order and everything else unchanged |
| TranslatePipeline.EarlyEndIsAbort | internal/adapters/translator/pipeline_translator.go:156-162 | after cancellation the step system can end a pass early at any chunk, with the drainer and the audio that the loop then has |
| Common.SubsequencePositions | internal/adapters/translator/pipeline_translator.go:146-149 | a subsequence stands at increasing positions, so the transcripts are never reordered or repeated |
| Rooms.NewRoomIs | internal/domain/room/room.go:49-62 | a new room is open and empty with room for two, and exists if and only if both languages have two letters |
| Rooms.Room.Join | internal/domain/room/room.go:67-82 | closed, already in, full and joined are each answered if and only if the room's fields say so, in that order of precedence, and only a join adds the user |
| Rooms.LeaveUndoesJoin | internal/domain/room/room.go:67-95 | leaving after a successful join restores the room exactly |
| Rooms.GenerateShortCode | internal/domain/room/room.go:125-138 | a successful draw gives the six alphabet symbols of its bytes; a failing reader gives no code |
| Rooms.EachSymbolFromEightBytes | internal/domain/room/room.go:28-32 | exactly eight of the 256 byte values give each symbol, so codes are unbiased at every position |
| Rooms.UpperIgnoresCase | internal/app/roomsvc/repository.go:70-71 | upper-casing makes two strings equal if and only if they differ in letter case only, and leaves no small letter |
| RoomService.KeyInjective | internal/app/roomsvc/service.go:227 | when room identifiers have no colon, a lookup key determines its room and its user |
| RoomService.ScanIsExact | internal/app/roomsvc/service.go:138-154 | the prefix scan selects a key if and only if it is of that room and of a non-empty user |
| RoomService.SearchCodeOutcome | internal/app/roomsvc/service.go:101-120 | the search is exhausted exactly when every attempted code collided, and otherwise finds the first free one |
| RoomService.CreateOutcome | internal/app/roomsvc/service.go:95-126 | a created room has a free six-symbol code and is the only change; a failed creation stores nothing |
| RoomReplies.CreateReplies | internal/app/roomsvc/service.go:95-126 | each error is answered if and only if its cause is there, and a created room has the given languages, the first free code drawn, and nobody in it |
| RoomService.ShortCodeFindsOneRoom | internal/app/roomsvc/repository.go:70-80 | a code typed in any letter case matches exactly the one room that carries it |
| RoomService.PartnerIsForced | internal/app/roomsvc/service.go:234-250 | when a join fills a room, the arbitrary pick of the other session has exactly one possible result |
| RoomReplies.JoinReplies | internal/app/roomsvc/service.go:171-253 | every reply of a join is given if and only if its condition on language, room, members and connection holds; full exactly with two other members; the value is the stored session for a member and the new one otherwise |
| RoomReplies.JoinAdmits | internal/app/roomsvc/service.go:208-232 | a newcomer to a room with a free place is in the room, which is stamped, has a session, a key and a connection, and nothing else changed but timers and pipelines |
| RoomReplies.SecondMemberLaunches | internal/app/roomsvc/service.go:234-250 | the second member, and not the first, gets the room a pipeline between the first member's session and the new one |
| RoomReplies.CancelledTimers | internal/app/roomsvc/service.go:256-274 | cancelling stops exactly the timers of the room's stored sessions |
| RoomService.FailedJoinOnlyCancelsTimers | internal/app/roomsvc/service.go:171-223 | a join that fails at any stage changes nothing but cancelled timers, rollback included |
| RoomService.RejoinReturnsSameSession | internal/app/roomsvc/service.go:185-203 | a participant who joins again gets the stored session back and only timers change |
| RoomService.LeaveTakesOutSession | internal/app/roomsvc/service.go:277-316 | for all identifiers, leaving takes out exactly that user's session, key, participant, connection and pipeline if the room exists, only closes the connection behind the key if it does not, and never meets a key without a session |
| RoomReplies.LeaveIsComplete | internal/app/roomsvc/service.go:277-316 | a member who leaves is out of the room, sessions, lookup and connections, the room's pipeline is cancelled, and nothing else changes; anyone else gets session-not-found |
| RoomService.JoinKeepsInv | internal/app/roomsvc/service.go:171-253 | a join keeps the service-wide invariant if and only if it does not admit the empty user |
| RoomService.DeleteKeepsInv | internal/app/roomsvc/service.go:130-165 | deleting a room keeps the service-wide invariant |
| RoomReplies.DeleteReplies | internal/app/roomsvc/service.go:130-165 | an unknown room is refused and nothing changes; a known one goes with exactly its sessions, connections and pipeline |
| RoomReplies.DisconnectArms | internal/app/roomsvc/service.go:362-425 | every stored session without a timer gets one for its room from now on, and nothing else happens |
| RoomReplies.FiringIsComplete | internal/app/roomsvc/service.go:394-420 | a firing timer is gone with its room and everything in it, other timers stay |
| RoomReplies.TouchReplies | internal/app/roomsvc/repository.go:83-92 | a known room is stamped with the current time, an unknown one refused |
| RoomServiceRuns.ServiceInvariant | internal/app/roomsvc/service.go:95-460 | after every run sessions and lookup are inverse bijections, participants are the users looked up and at most two, connections are the live sessions, codes are distinct, every launched pipeline is registered or cancelled |
| RoomServiceRuns.PipelinesTrackFullRooms | internal/app/roomsvc/pipeline.go:57-86 | a room has a registered pipeline exactly when it has two participants, its two sessions are all of that room's sessions, and a launched pipeline is cancelled exactly when it is no longer registered |
| RoomServiceRuns.OperationsIsolateRooms | internal/app/roomsvc/service.go:138-159 | an operation leaves the rooms, sessions, keys, pipelines and timers of every room it is not about as they were |
| RoomServiceRuns.DeleteAllIsRestriction | internal/app/roomsvc/service.go:452-459 | deleting a list of rooms one by one restricts every map to the other rooms |
| RoomServiceRuns.SweepIsExact | internal/app/roomsvc/service.go:445-460 | after a sweep exactly the rooms that never had activity or are not expired remain, unchanged, with exactly their sessions and pipelines |
| GracePeriods.TimersAfterStep | internal/app/roomsvc/service.go:256-274 | over one operation a timer is unchanged, newly armed by the disconnect of its live session, or gone because it fired or a join cancelled it |
| GracePeriods.TimersHaveOrigin | internal/app/roomsvc/service.go:376-422 | in every run every armed timer goes back to a disconnect of its session, with no cancelling join on the room in between while that session was live |
| GracePeriods.FiringTimerWaitedItsGrace | internal/app/roomsvc/service.go:394-420 | a timer that may fire was armed at least the grace period earlier by that disconnect |
| GracePeriods.JoinLeavesNoLiveTimer | internal/app/roomsvc/service.go:192-194 | after a successful join no live session of the room has an armed timer |
| GracePeriods.JoinClearsRoomTimersExactlyWhen | internal/app/roomsvc/service.go:255-274 | a successful join leaves the room without any timer if and only if none belonged to a session already gone |
| StaleTimers.StrayExactlyWhenLeft | internal/app/roomsvc/service.go:277-329 | after any run, an armed timer of an existing room has lost its session if and only if a leave took that session out while the timer was armed and it has not fired since |
| StaleTimers.JoinLeavesTimerExactlyWhen | internal/app/roomsvc/service.go:192-194 | after any run, a successful join leaves an armed timer for its room if and only if the history has such a leave from that room |
| GracePeriods.DueTimerDeletesRoom | internal/app/roomsvc/service.go:410-411 | a firing timer removes its room and all sessions in it |
| GracePeriods.RejoinedRoomCanBeDeleted | internal/app/roomsvc/service.go:277-329 | there is a run on which a timer left over by a leave deletes the room under the user who rejoined |
| GracePeriods.DeleteMissesEmptyUser | internal/app/roomsvc/service.go:139-154 | deleting a room removes all its sessions if and only if no empty user is in it |
| GracePeriods.EmptyUserSurvivesDelete | internal/app/roomsvc/service.go:139-154 | the case of an empty user whose session and connection outlive the room |
| GracePeriods.LeaveWithForeignKey | internal/app/roomsvc/service.go:277-299 | leaving keeps connections and sessions in step if and only if the named room exists or the key does not |
| GracePeriods.ForeignKeyClosesConnection | internal/app/roomsvc/service.go:277-299 | the case, at the exported method only, in which another user's connection is closed and the session stays |
| ServiceObject.Service.FindByShortCode | internal/app/roomsvc/repository.go:70-80 | the scan finds a room exactly when some stored room has the upper-cased code, and returns one that has it |
| ServiceObject.Service.PickCode | internal/app/roomsvc/service.go:101-116 | the retry loop, with its repository scans, gives the result of the specified search |
| ServiceObject.Service.CreateRoom | internal/app/roomsvc/service.go:95-126 | the new state and the reply are those of the specified creation, and the invariant is kept |
| ServiceObject.Service.CloseSessions | internal/app/roomsvc/service.go:138-154 | the loop over `lookup` removes exactly the scanned keys and the sessions and connections they name, and touches no room |
| ServiceObject.Service.DeleteRoom | internal/app/roomsvc/service.go:130-165 | the new state and the reply are those of the specified deletion, and the invariant is kept |
| ServiceObject.Service.JoinRoom | internal/app/roomsvc/service.go:171-253 | for every user and whichever session the iteration picks, the new state and the reply are those that `RoomReplies` describes; the invariant is kept if and only if the empty user is not admitted |
| ServiceObject.Service.LeaveRoom | internal/app/roomsvc/service.go:277-329 | for all identifiers the new state and the reply are those of the specified leave and no missing session is dereferenced; the invariant is kept if and only if the named room exists or the key does not |
| ServiceObject.Service.OnDisconnect | internal/app/roomsvc/service.go:362-425 | at most one timer per session is armed, for a known session |
| ServiceObject.Service.FireTimer | internal/app/roomsvc/service.go:394-420 | a due timer removes itself and deletes its room |
| ServiceObject.Service.CancelGraceTimersForRoom | internal/app/roomsvc/service.go:256-274 | the two loops remove exactly the timers of the room's stored sessions |
| ServiceObject.Service.FindPartner | internal/app/roomsvc/service.go:236-244 | the iteration returns another session of the room whenever there is one |
| ServiceObject.Service.ListExpired | internal/app/roomsvc/repository.go:95-105 | the listed rooms are, once each, those with activity before the cutoff |
| ServiceObject.Service.SweepExpiredRooms | internal/app/roomsvc/service.go:445-460 | the sweep deletes the expired rooms one by one, in the order they were listed |
| ServiceObject.Service.UpdateLastActivity | internal/app/roomsvc/repository.go:83-92 | a known room's activity becomes the current time; nothing else changes |
| FrameDrain.StepKeepsInv | internal/app/roomsvc/pipeline.go:39-53 | each select of the producer and each receive of the consumer keeps order, membership and counts of frames |
| FrameDrain.EveryFrameIsAccountedFor | internal/app/roomsvc/pipeline.go:36-53 | for every interleaving no new frame is given up, each frame is received, buffered, dropped or in hand and nowhere twice, deliveries are in order, the last frame is never the dropped one |
| FrameDrain.NewestIsLast | internal/app/roomsvc/pipeline.go:36-38 | whenever the producer is idle the newest frame is the last one delivered or queued |
| FrameDrain.SingleSlotIsFresh | internal/app/roomsvc/pipeline.go:179-195 | with the pipeline's one-frame channel an idle producer leaves the newest frame and nothing older |
| FrameDrain.DisplacedIs | internal/app/roomsvc/pipeline.go:39-53 | on a full channel, with any receives between the selects, the oldest frame left is thrown away, if any is left, and the new one ends up last |
| FrameDrain.FrameChannel.DrainOldest | internal/app/roomsvc/pipeline.go:39-53 | the three selects, with any number of receives between them, compose the steps of the protocol and end with the new frame in the channel |
| Latency.CloseLastAt | internal/app/roomsvc/latency.go:93-101 | ending a stage closes its most recent open entry and no other |
| Latency.NothingToClose | internal/app/roomsvc/latency.go:84-86 | ending a stage that is not open changes nothing |
| Latency.TotalIsClosedTime | internal/app/roomsvc/latency.go:149-154 | the reported total is the time between start and end of the closed stages |
| Latency.RunIsItsCalls | internal/app/roomsvc/pipeline.go:145-260 | every run of the capture callback and the half is a run of calls on their tracker |
| Latency.EmissionsAreSound | internal/app/roomsvc/pipeline.go:145-260 | for every interleaving of the capture callback with a half's stages and with the two parts of its emission, failing or not, a chunk has at most one entry a stage and so at most five, the half emits at most one event, and its total is that of its closed stages |
| LatencyHistory.ChunkIsItsHistory | internal/app/roomsvc/latency.go:72-198 | after any calls the chunk in flight has as its number the count of resets, and exactly one entry for each stage started since the last one, in order, with its start and the time of its matching end, as brackets match |
| LatencyHistory.EventIsItsHistory | internal/app/roomsvc/latency.go:139-181 | whatever the callers do, and whatever comes between taking a chunk out and logging it, logging adds one event; with at most five stages started it tells number, stages, starts, matching ends and their total as the calls made them, with more it indexes past its array |
| LatencyHistory.WholeHalfIsLogged | internal/app/roomsvc/pipeline.go:145-260 | a frame that is captured and passes all stages is logged once, as chunk 1, with capture, decode, translate, encode and send in this order, each with its own start and end |
| LatencyHistory.StageFailing | internal/app/roomsvc/pipeline.go:176-258 | a stage that fails after its start ends the half with one event, in which that stage is open |
| Latency.ClosedTimeAdds | internal/app/roomsvc/latency.go:149-154 | closed time is additive over entries, and an entry contributes the time between its start and its end |
| LatencyObject.LatencyTracker.Reset | internal/app/roomsvc/latency.go:189-198 | whichever recycled object the pool returns and whatever it contains, the tracker looks as if a new empty chunk with the next number had been allocated, and chunks on their way to the log are untouched |
| LatencyObject.LatencyTracker.StartStage | internal/app/roomsvc/latency.go:72-82 | an open entry is appended to the chunk in flight; without one nothing happens |
| LatencyObject.LatencyTracker.EndStage | internal/app/roomsvc/latency.go:87-102 | the backward search changes the chunk as the tracker without a pool does |
| LatencyObject.LatencyTracker.TakeCurrent | internal/app/roomsvc/latency.go:140-147 | the chunk in flight is taken out under the lock |
| LatencyObject.LatencyTracker.LogAndRecycle | internal/app/roomsvc/latency.go:149-181 | the event has the chunk's number and entries and the sum of its closed entries, unless there are more than five; the object returns to the pool without being the one in flight |
| LatencyObject.Client.Log | internal/app/roomsvc/latency.go:139-181 | logging any of the chunks taken out reports the value it had when taken out and leaves the other ones as they were |
| LatencyObject.Drive | internal/app/roomsvc/latency.go:66-198 | for any calls in any order, any pool choice at each reset and any calls inside an emission, the events equal those of a tracker that allocates anew |
| LatencyObject.DriveHalf | internal/app/roomsvc/pipeline.go:145-260 | for every interleaving of the capture callback with a half, and any pool choice, the pooled tracker's events equal the pool-free ones, are at most one, and are sound |
| OpusFraming.JoinSplits | internal/adapters/codec/opus.go:64-66 | splitting a sample joined from two bytes gives the bytes back |
| OpusFraming.UnmarshalMarshal | internal/adapters/codec/opus.go:61-67 | decoding the encoded samples gives the samples back |
| OpusFraming.MarshalUnmarshal | internal/adapters/codec/opus.go:128-131 | encoding the decoded bytes gives the bytes back, for every even length |
| OpusFraming.LittleEndian | internal/adapters/codec/opus.go:64-66 | both conversions put the low byte first: a sample is its first byte plus 256 times its second |
| OpusFraming.MarshalSamples | internal/adapters/codec/opus.go:61-67 | the loop that fills the byte buffer computes that encoding of the first samples |
| OpusFraming.CuttingResumes | internal/adapters/codec/opus.go:95-116 | cutting into blocks can stop anywhere and resume on the samples left over |
| OpusFraming.StreamAdds | internal/adapters/codec/opus.go:120-131 | an odd chunk contributes nothing and an even one its samples, chunk after chunk |
| OpusFraming.BlocksAreConsecutive | internal/adapters/codec/opus.go:99-113 | there are as many frames as whole 480s, and sample j of frame k is sample 480k + j of the stream |
| OpusFraming.PacketsAreAnswers | internal/adapters/codec/opus.go:101-111 | each frame the codec answers gives exactly the next packet, and each error none |
| OpusFraming.BlocksAndRestAreTheStream | internal/adapters/codec/opus.go:81-84 | blocks and remainder together are the stream, and the remainder is shorter than a frame |
| OpusFraming.ChunkingDoesNotMatter | internal/adapters/codec/opus.go:81-84 | two chunkings of the same bytes, odd chunks counting as absent, feed the same frames and leave the same samples |
| OpusFraming.MarshalledStreamRoundTrip | internal/adapters/codec/opus.go:124-131 | samples marshalled chunk by chunk are read back, over the whole stream, as their concatenation |
| OpusFraming.FrameEncoder.EncodeFull | internal/adapters/codec/opus.go:98-116 | the inner loop feeds exactly the complete blocks; packets of failing frames are absent, and it reports failure exactly when the receiver stopped first |
| OpusFraming.FrameEncoder.Encode | internal/adapters/codec/opus.go:118-139 | over all chunks the codec is fed the complete 480-sample blocks of the stream in order, the packets sent are the codec's answers up to what the receiver takes, and fewer than 480 samples wait |
| PeerMaps.RunKeepsOwned | internal/adapters/webrtc/pion_peer.go:74-187 | over every run, at whatever point creating a session fails, the three session maps have one key set, sessions do not share connections and no connection stays open without a session |
| PeerMaps.OpenExactlyWhen | internal/adapters/webrtc/pion_peer.go:74-187 | over every run, by the history alone: a session is in the three maps if and only if it was set up and not closed since, with the connection then set up, and exactly those connections are open |
| PeerMaps.CloseIsComplete | internal/adapters/webrtc/pion_peer.go:169-187 | closing an open session takes it out of all five maps and closes its connection, and leaves every other session as it was |
| PeerMaps.RawTrackIsStoredTrack | internal/adapters/webrtc/pion_peer.go:112-146 | a session's stored track is exactly the last one that arrived, if no track of the session ended and the session was not closed since |
| PeerMaps.AudioHandlerIsStoredHandler | internal/adapters/webrtc/pion_peer.go:286-296 | a session's stored handler is exactly the last one registered since the last close |
| PeerMaps.StartsExactlyWhenTheyMeet | internal/adapters/webrtc/pion_peer.go:109-146 | over every run a handler is started on a track once if the earlier of the two is still stored when the later one comes, and otherwise never |
| PeerMaps.MeetingWhileOpen | internal/adapters/webrtc/pion_peer.go:282-296 | in either order, a track and a handler of a session with nothing else happening to it in between lead to exactly one start |
| PeerMaps.LiveTrackIsHeardExactlyWhen | internal/adapters/webrtc/pion_peer.go:120-126 | a handler that registers while a track has not ended, been replaced or lost its session is started on it once if and only if no other track of the session ended since it arrived |
| PeerMaps.EndOfOldTrackHidesNewTrack | internal/adapters/webrtc/pion_peer.go:120-126 | the case in which the end of the first track makes a later handler miss the second, which is live |
| PionPeer.PionPeer.CreateSession | internal/adapters/webrtc/pion_peer.go:74-165 | succeeds exactly for a new session whose connection could be set up; a failure closes the connection and changes nothing |
| PionPeer.PionPeer.CloseSession | internal/adapters/webrtc/pion_peer.go:169-187 | for an open session all five entries go and its connection closes; an unknown session changes nothing |
| PionPeer.PionPeer.OnTrack | internal/adapters/webrtc/pion_peer.go:112-146 | the track is stored and the handler registered before it is started on it |
| PionPeer.PionPeer.OnAudioTrack | internal/adapters/webrtc/pion_peer.go:286-296 | the handler is stored and started on the track that arrived before it |
| RtpSender.SendAudio | internal/adapters/webrtc/pion_peer.go:300-358 | packet k has sequence number k mod 2^16, timestamp 960k mod 2^32 and frame k, and how many were sent fits how the call ended |
| RtpSender.HeadersRepeat | internal/adapters/webrtc/pion_peer.go:315-356 | two packets share a sequence number exactly when 2^16 divides their distance, and a timestamp exactly when 2^26 does |
| RateLimiter.AnswersDependOnOwnCalls | internal/adapters/http/ratelimit.go:50-86 | in any run with other addresses and cleanups an address gets the answers it would get alone |
| RateLimiter.CleanupIsInvisible | internal/adapters/http/ratelimit.go:130-142 | removing the cleanups from a run changes no answer |
| RateLimiter.AllowedExactlyWhen | internal/adapters/http/ratelimit.go:50-86 | in any run with other addresses and cleanups a call is allowed if and only if it is among the first calls, up to the limit, since the call that opened its window |
| RateLimiter.DisabledAllowsAll | internal/adapters/http/ratelimit.go:50-53 | with limit zero every call of every run is allowed |
| RateLimiter.AnswersAreForCalls | internal/adapters/http/ratelimit.go:50-86 | each call gets exactly one answer, in order |
| RateLimiter.DeniedIsToldTheRest | internal/adapters/http/ratelimit.go:78-85 | in any run a denied call is told the whole seconds left of the window that its window's first call opened, or one second |
| RateLimiter.RateBound | internal/adapters/http/ratelimit.go:50-86 | any closed interval as long as the window holds at most twice the limit of allowed calls of an address |
| RateLimiter.WindowBound | internal/adapters/http/ratelimit.go:66-76 | from the call that opens a window until the window ends at most the limit is allowed |
| RateLimiter.RateBoundIsReached | internal/adapters/http/ratelimit.go:66-76 | the double bound is reached, for every limit and window |
| RateLimiter.DeniedThenGranted | internal/adapters/http/ratelimit.go:78-85 | in any run with other addresses and cleanups, a denied call is told at least one second, and the address's next call is allowed if it comes one second more than that later |
| RateLimiter.RetryAfterIsEnoughExactlyWhen | internal/adapters/http/ratelimit.go:78-85 | waiting exactly as told is enough if and only if the time left was whole seconds or under one |
| RateLimiter.RetryAfterCanBeTooShort | internal/adapters/http/ratelimit.go:78-85 | the case of a denial after the time told |
| RateLimiter.Limiter.Allow | internal/adapters/http/ratelimit.go:50-86 | the answer and the address's new bucket are the specified decision, and no other bucket changes |
| RateLimiter.Limiter.Cleanup | internal/adapters/http/ratelimit.go:132-142 | the loop removes exactly the buckets whose window started more than two windows ago |
| HubRegistry.IndexIsRoster | internal/adapters/signaling/hub.go:73-109 | over every run a room's index entry is the registration-ordered list of the clients registered and not unregistered since, and only rooms with such clients have an entry |
| HubRegistry.ClientsAreThoseStillThere | internal/adapters/signaling/hub.go:73-89 | over every run the client set is exactly the clients not unregistered since |
| HubRegistry.RunKeepsExact | internal/adapters/signaling/hub.go:73-109 | when no client registers twice, the index lists every registered client once, under its own room, and nobody else |
| HubRegistry.RecipientsAreTheOthers | internal/adapters/signaling/hub.go:110-118 | who is told about a leaver is every other registered client of the room, once |
| Hub.RemoveInPlace | internal/adapters/signaling/hub.go:97-103 | the loop over its own buffer is an order-preserving filter |
| Hub.Append | internal/adapters/signaling/hub.go:77 | appending adds the client at the end, in place or in a larger buffer |
| Hub.OthersIn | internal/adapters/signaling/hub.go:110-118 | the collected clients are the room's entry without the leaver |
| Hub.NotifyPeers | internal/adapters/signaling/hub.go:128-134 | each open buffer with fewer than eight messages gets this one at its end, a full one is left alone |
| Hub.Hub.Register | internal/adapters/signaling/hub.go:73-79 | for any client it joins the set and the end of its room's entry; the invariant is kept if and only if it is open and not yet listed in a room |
| Hub.Hub.Unregister | internal/adapters/signaling/hub.go:81-136 | the client is out of the set and the index and its channel closed; if it had joined, peer-left goes once to the end of the buffer of every other registered client of the room that has fewer than eight messages, and no other buffer changes or exceeds eight |
| LoadReport.Partition | cmd/loadgen/report.go:72-88 | for every pivot choice the loops end with smaller and equal elements before the pivot and greater ones behind, moving nothing outside |
| LoadReport.QuickSort | cmd/loadgen/report.go:67-91 | for every pivot choice it ends and leaves the segment sorted, as the reference sort gives it |
| Statistics.SortOfSorts | cmd/loadgen/report.go:67 | the reference sort gives an ascending permutation |
| Statistics.SortedIsUnique | cmd/loadgen/report.go:67 | two ascending sequences of the same elements are equal, so the pivot choice does not show |
| Statistics.IndexIsNearestRank | cmd/loadgen/report.go:48-65 | between 0 and 100 the index is p(n-1)/100 rounded down, outside it is the first or the last |
| Statistics.PercentileIsMonotone | cmd/loadgen/report.go:48-65 | a higher percentile is never a smaller value, for all integers |
| Statistics.StatisticsAreOrdered | cmd/loadgen/report.go:32-45 | Min <= P50 <= P90 <= Max after truncation, and the average lies between the extremes before and after truncation |
| Statistics.StatisticsExactly | cmd/loadgen/report.go:32-45 | the average times the count is the sum of the measurements, minimum and maximum are the truncated ends, and the percentiles are the truncated elements at 50(n-1)/100 and 90(n-1)/100 |
| Statistics.SumAdds | cmd/loadgen/report.go:40-42 | the sum is additive over measurements |
| Statistics.TruncateIs | cmd/loadgen/report.go:38-45 | conversion to an integer rounds towards zero |
| Statistics.ExtremesAreExact | cmd/loadgen/report.go:38-39 | the first and last sorted values are the least and the greatest measurement |
| Statistics.StatisticsIgnoreOrder | cmd/loadgen/report.go:24-46 | measurements with equal multisets have equal statistics |
| LoadReport.Report.ComputeStats | cmd/loadgen/report.go:26-46 | an empty report is unchanged; otherwise all five fields are the statistics of the measurements, whose own order is kept |

## Left out

- The WebSocket, HTTP and OpenAI clients, Pion, libopus and language detection: their answers are parameters.
- TranslatePipeline.NoDeadlock: only without cancellation; a cancelled drainer may return while senders wait, as in the source.
- TranslatePipeline.OrderedDrainer.Receive: the transcript reader does not take anything during a pass; in the step system, and so in `TranscriptDelivery`, it may.
- Prompt echo and language checks: trimming and case folding are for ASCII, and text length counts characters.
- Room service: operations and timer firings are atomic steps, and the launch of a pipeline belongs to the join that fills the room. Mutexes, data races and the time between launch and registration are not modelled.
- The repository is the in-memory one, which never fails; `ListActive` is not modelled. Session states other than stored or removed, display names and the offer, answer and candidate messages are not modelled.
- RoomServiceRuns.ServiceInvariant: runs contain only joins of non-empty users, leaves with room identifiers without a colon, and fresh identifiers; `RoomService.JoinKeepsInv` and `GracePeriods.LeaveWithForeignKey` state exactly what the other calls break.
- Upper-casing of short codes is for ASCII.
- Latency.EmissionsAreSound: one capture callback per half; the alternative is covered by `LatencyHistory.EventIsItsHistory`.
- Chunk numbers are numbers, not decimal strings, and the log attributes other than stages and total are not modelled.
- OpusFraming.FrameEncoder.Encode: a context that ends while waiting for input appears as a shorter list of chunks, one that ends while sending as a receiver that takes no more packets. The decoder's loop around the conversion is not modelled.
- PeerMaps.RunKeepsOwned: handlers and tracks may be stored for sessions that do not exist, as in the source; only the three session maps share a key set.
- RtpSender.SendAudio: pacing by the 20 ms ticker and the choice between simultaneous events are not modelled.
- PionPeer.PionPeer.OnTrack: reading packets into the track's channel, and dropping them when it is full, is not modelled; closing the channel and forgetting the track are one step.
- RateLimiter.RateBound: the clock is a monotone integer in nanoseconds; address extraction and the HTTP middleware are not modelled.
- Hub.Hub.Unregister: `sessionClients` is updated but nothing is claimed about who is in it across reconnects. Handing the session to the service is the returned value, and the time between unlocking and sending is not modelled.
- LoadReport.Report.ComputeStats: measurements are reals, so rounding, NaN and overflow of the conversion to 64 bits are not modelled; `computeStatus` is left out as a plain case distinction.
- The React Native app, configuration, logging, the load generator's networking, mocks and the pass-through codec.
