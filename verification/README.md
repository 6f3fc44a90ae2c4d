# Verification of the TransPortEngineSdk session engine

TransPortEngineSdk is a C++ TCP engine: an acceptor enters sessions in a table,
worker threads receive framed byte streams on them, two send paths write to
them, and a heartbeat reaper removes the silent ones. This project models that
engine in Dafny, for Linux (epoll) and Windows (IOCP), and proves what it does
and where it stops doing what its design asks for.

## How the project is built

| file | what it holds |
|---|---|
| `Wire.dfy` | the eight-byte header, its tags, the frame the sender prints |
| `Framing.dfy` | the reference reading `Parse` of a byte stream; the chunk-driven machine `Step`/`Run` in three variants: Linux and Windows as written, and the intended body branch |
| `Receiver.dfy` | the theorems that relate the machines to the reference, to the sender and to each other |
| `WriteLoop.dfy` | the environment of the blocking write loop on Linux |
| `OverlappedSend.dfy` | the vector of pending overlapped sends on Windows, over whole runs |
| `Session.dfy` | class `TcpSession`: the C++ methods, proved against the specifications above |
| `Heartbeat.dfy` | one session's heartbeat stamp over a timeline of chunks and sweeps |
| `SessionMgr.dfy` | class `TcpSessionMgr`: the table, the sweep that erases the entry its iterator stands on, shutdown |
| `EventOwnership.dfy` | the transition system of workers with their batches of events, reaper, acceptor and shutdown; the guard of every step |
| `OwnershipInvariant.dfy` | the invariant of that system, and that a step keeps it exactly when its guard holds |
| `Ownership.dfy` | the promises over whole runs: guarded runs keep them, an unguarded step breaks one |
| `OwnershipRuns.dfy` | the sweep and the shutdown of `SessionMgr.dfy` as runs of the system |
| `Counterexamples.dfy` | runs from the start of the engine that break a promise: three of the code as written, three of the code with the event's union repaired, so that the key a worker reads is the socket |
| `OwnershipLaws.dfy` | laws of single steps and what they come to over runs: registrations, sessions given up, the calls of each teardown |
| `EpollWorker.dfy` | class `NetEventModle`: the worker's event loop on real `TcpSession` objects, with the other threads going on between any two of its moves, proved to be a run of the system |

Receiving has a reference (`Framing.Parse`, which reads a whole stream front to
back and knows nothing of chunks, caches or 32-bit differences) and the machine
the code implements. `Receiver.FittingPrefix` says, looking only at the stream,
how many leading chunks a variant can take; the main theorem
`Receiver.ReceiverOutput` gives the machine's exact output for every chunk
sequence in those terms. `Session.TcpSession.IORecv` ties the C++ loop to the
machine.

Ownership is a transition system over the code as written. A worker fetches a
batch of events, all disarmed at once, and works them off one by one; it holds a
session from the fetch until it re-arms it or gives it up. `EventOwnership.Guard`
lists the moments at which a step of the code is unsafe.
`OwnershipInvariant.StepSafeIff` proves that a step from a good state leads to a
good state if and only if its guard holds. In terms of the promises themselves
(`Ownership.ExclusionHolds`, `TeardownHolds`, `NoneLost`, `Balanced`): every run
of any number of workers whose steps satisfy their guards keeps them all, and
the first step that does not satisfy its guard breaks one, at once or, when it
enters a socket number that a worker is late with, through that worker's own
further steps (`Ownership.UnguardedStepBreaksPromise`).

## Where the code differs from its design

Each item is kept in the model as the code has it.

- **Body branch turned round.** In the header branch a short chunk is cached and
  an over-long one refused; in the body branch the two are exchanged
  (`CTcpSession.cpp:321-336`, `454-468`). So a body that arrives in two reads
  ends the session (`Receiver.ShortBodyChunkBreaksShippedBranch`), and an
  over-long body chunk is queued and the session never shows anything again
  (`Receiver.MisalignedIsSilent`). The client's receiver caches a short body chunk
  (`CTcpClient.cpp:313-323`), and on an over-long one prints an error and goes on
  (`CTcpClient.cpp:308-312`). The intended branch here treats a body as both
  receivers treat a header; fragmentation independence holds for it.
- **Long bodies on Linux.** A read takes at most 1024 bytes, so a longer body is
  never delivered, however it arrives (`Receiver.LongBodyNeverDelivered`).
- **Signed comparison on Linux.** The missing length is compared as a signed
  `int`; from 2^31 on it reads as negative and chunks are held where Windows
  refuses them (`Receiver.PlatformsAgreeIff`, `Receiver.PlatformsSimulateIff`).
- **Three-byte tags.** `sizeof("HB")` counts the terminating zero, so the
  comparison reaches into the salt: a header with salt 256 or more is not
  recognised (`Wire.RecognisedIffTagAndLowSalt`). `TcpSession_SendData` copies
  three bytes too, which is harmless because its salt is zero.
- **A session is registered twice.** The acceptor calls AddEvent and then
  `TcpSession_IORecv(1)`, which on Linux registers again. A worker that was handed
  the first event, even if it waits unread in the worker's batch, and a second
  worker then read the same session
  (`Counterexamples.SecondRegistrationBreaksExclusion`).
- **The acceptor's failure paths** finalise and delete the session even when
  DelSession finds that somebody else already took it. As written, a sweep between
  AddSession and AddEvent is enough, for instance after a CONNECT callback that
  took longer than the timeout
  (`Counterexamples.SweepBeforeRegistrationTearsDownTwice`); with the key repaired,
  so is a worker's teardown between the two registrations
  (`Counterexamples.AcceptorAbortTearsDownTwice`).
- **The key read from an event is not the socket.** `data.fd` and `data.ptr`
  share a union and the pointer is stored last
  (`CNetEventModleEpoll.cpp:97-99`, read at `152`), so the key is part of a heap
  address. The worker model takes it as an arbitrary number. While it names no
  listed socket, every removal misses, no flag is ever set and no worker ever takes
  a session down: a failed read leaves its session listed and unarmed until the
  reaper or shutdown comes (`EpollWorker.MissingKeysKeepPromises`). Where it reads
  as another session's listed number, that session's entry is erased
  (`Counterexamples.ForeignKeyErases`). What follows assumes the union repaired,
  the key being the socket; `EpollWorker.IntendedRunsKeepPromises` says what then
  holds.
- **Teardown by socket number (key repaired).** A number handed out again while a
  worker holds the old session makes the worker erase the new one
  (`Counterexamples.ReusedSocketBreaksTeardown`, `Ownership.LateWorkerErases`).
- **`bFlag` is not reset before an EPOLLIN event (key repaired).** With keys that
  name nothing the flag is never set; with the socket as the key it goes stale
  (`Counterexamples.StaleFlagDeletesTwice`).
- **The reaper deregisters at module 0.** On Linux `m_nEventModleIndex` is never
  set after the constructor, so the call fails for sessions of other modules.
  Deregistration may fail in the model; closing the socket then removes the
  registration.

## Model

| member | source | states |
|---|---|---|
| `Wire.NtohlInvertsHtonl` | TransPortEngineSdk/CTcpSession.cpp:596 | the printed 32-bit length reads back as the length |
| `Wire.HtonlInvertsNtohl` | TransPortEngineSdk/CTcpSession.cpp:365 | the four length bytes are determined by the length read |
| `Wire.MostSignificantFirst` | TransPortEngineSdk/CTcpSession.cpp:365 | the length is read, and so printed, with its most significant byte first |
| `Wire.RecognisedIffTagAndLowSalt` | TransPortEngineSdk/CTcpSession.cpp:362-381 | a header is recognised as heartbeat (data) if and only if its two tag bytes match and its salt is below 256 |
| `Wire.DataHeadReads` | TransPortEngineSdk/CTcpSession.cpp:595-598 | the sender's header is recognised as data with salt zero and the payload's length |
| `Wire.DataHeadIsUnique` | TransPortEngineSdk/CTcpSession.cpp:595-598 | a data header with salt zero is the one the sender prints for its length |
| `Receiver.ReceiverOutput` | TransPortEngineSdk/CTcpSession.cpp:297-394 | for every chunk sequence and all three body branches, what is shown is exactly the reference reading of the bytes before the first chunk that does not fit |
| `Receiver.ReceiverSound` | TransPortEngineSdk/CTcpSession.cpp:297-394 | everything shown is, in order, a prefix of the reference reading of all bytes |
| `Receiver.InStepIffAligned` | TransPortEngineSdk/CTcpSession.cpp:297-394 | the receiver lives and ends in the reference's state if and only if every chunk fits; then its output is the whole reference reading |
| `Receiver.MisalignedIsSilent` | TransPortEngineSdk/CTcpSession.cpp:321-343 | after a chunk that does not fit the session is dead or every continuation shows nothing |
| `Receiver.MisfitStep` | TransPortEngineSdk/CTcpSession.cpp:321-336 | a chunk that does not fit fails, or leaves a cache longer than the body with a gap larger than any chunk |
| `Receiver.MisfitSurvivesIff` | TransPortEngineSdk/CTcpSession.cpp:321-343 | a chunk that does not fit leaves a shipped receiver alive if and only if it is a body chunk longer than the bytes missing; it is then appended to the cache and nothing else changes |
| `Receiver.OverlongRun` | TransPortEngineSdk/CTcpSession.cpp:321-336 | a receiver that holds too much survives nothing more on Windows, and on Linux every chunk that finds at most 2^31 bytes too many; while alive it holds every byte it is handed |
| `Receiver.SurvivalLaw` | TransPortEngineSdk/CTcpSession.cpp:297-394 | for every chunk sequence a shipped receiver lives if and only if all chunks fit, or the first that does not is a body chunk longer than the bytes missing and it goes on from there; it then holds the whole rest of the stream from the body's start |
| `Receiver.StuckForever` | TransPortEngineSdk/CTcpSession.cpp:301-336 | from such a state nothing is shown again, whatever arrives |
| `Receiver.LongBodyNeverDelivered` | TransPortEngineSdk/CTcpSession.cpp:288-336 | on Linux a body announced with more than 1024 bytes is never delivered |
| `Receiver.ShortBodyChunkBreaksShippedBranch` | TransPortEngineSdk/CTcpSession.cpp:321-336 | one sent payload in three reads that the intended branch delivers and both shipped branches refuse |
| `Receiver.FragmentationIndependence` | TransPortEngineSdk/CTcpSession.cpp:344-392 | with the body handled as the header branch handles short and over-long chunks, two chunkings of one stream that stay within frame parts give the same events, echoes, heartbeats and state |
| `Receiver.ParseExtends` | TransPortEngineSdk/CTcpSession.cpp:344-392 | reading a stream further from the state reached equals reading the longer stream from its start |
| `Receiver.ParseMonotone` | TransPortEngineSdk/CTcpSession.cpp:297-394 | more bytes never take back an event of the reference reading |
| `Receiver.FrameLaw` | TransPortEngineSdk/CTcpSession.cpp:355-391 | the reference frame by frame: an unrecognised header is skipped alone whatever length it announces, a data frame shows its body, a heartbeat is counted and echoed, an empty data frame shows nothing, a cut frame waits with its header noted |
| `Receiver.PlatformsAgreeIff` | TransPortEngineSdk/CTcpSession.cpp:301-332 | in any state on any chunk both platforms take the same step if and only if not inside a body with a gap of 2^31 or more |
| `Receiver.PlatformsSimulateIff` | TransPortEngineSdk/CTcpSession.cpp:434-487 | on every chunk sequence within frame parts, the two receivers run to the same events, liveness and state if and only if no such body is reached |
| `Receiver.PostsAreExact` | TransPortEngineSdk/CTcpSession.cpp:538-548 | after any completions within their posts, the next posted length is exactly the bytes the current part misses, and positive; no completion crosses a part's end |
| `Receiver.PostedRunSurvivesIff` | TransPortEngineSdk/CTcpSession.cpp:434-468 | under its own posts the Windows receiver survives if and only if every body completes in one read |
| `Receiver.ParseEncoded` | TransPortEngineSdk/CTcpSession.cpp:591-605 | the reference finds in the sender's bytes exactly the payloads sent, in order |
| `Receiver.EncodeParsed` | TransPortEngineSdk/CTcpSession.cpp:591-605 | the converse: encoding what was read from a stream of sender frames gives the stream back |
| `Receiver.RoundTrip` | TransPortEngineSdk/CTcpSession.cpp:591-605 | the sender's bytes in any fitting chunking deliver exactly the payloads sent and end at a boundary |
| `Receiver.RoundTripPosted` | TransPortEngineSdk/CTcpSession.cpp:428-548 | under posted lengths the payloads are delivered in full if and only if the chunking fits |
| `Receiver.HeadInPieces` | TransPortEngineSdk/CTcpSession.cpp:340-392 | the pieces of a data header, however cut, leave every variant waiting for the announced body |
| `Receiver.WholeBodiesRoundTrip` | TransPortEngineSdk/CTcpSession.cpp:591-605 | frames with headers cut anywhere and each body in one read are the sender's bytes, respect the Windows posts, and deliver exactly their payloads |
| `Receiver.ParseEchoesHeartbeats` | TransPortEngineSdk/CTcpSession.cpp:362-391 | the reference echoes exactly the heartbeat headers found by walking the stream's frames |
| `Receiver.EchoesAreHeartbeats` | TransPortEngineSdk/CTcpSession.cpp:355-391 | for every chunk sequence the headers submitted for echo are, byte for byte and in order, the heartbeat headers of the consumed bytes |
| `Session.TcpSession.constructor` | TransPortEngineSdk/CTcpSession.cpp:2-19 | a new session is at a frame boundary with empty queues, nothing shown and nothing registered (member initialisers in `CTcpSession.h:183-190`) |
| `Session.TcpSession.GetRecvCacheLen` | TransPortEngineSdk/CTcpSession.cpp:565-574 | the loop computes the cached total modulo 2^32 |
| `Session.TcpSession.GetRecvCacheBuf` | TransPortEngineSdk/CTcpSession.cpp:576-589 | the loop copies the cached chunks in order to the front of the buffer, in bounds, leaves the rest as it was, and empties the cache |
| `Session.TcpSession.Cache` | TransPortEngineSdk/CTcpSession.cpp:344-354 | the chunk is appended to the cached bytes |
| `Session.TcpSession.Assemble` | TransPortEngineSdk/CTcpSession.cpp:357-360 | the zeroed buffer takes cache and chunk in bounds; what is not filled stays zero |
| `Session.TcpSession.CompleteHead` | TransPortEngineSdk/CTcpSession.cpp:355-392 | new state, events, stamp and echo are those of the machine's completed header |
| `Session.TcpSession.CompleteBody` | TransPortEngineSdk/CTcpSession.cpp:301-320 | the buffer handed on holds exactly the announced bytes and a zero; new state, events and stamp are those of the completed body |
| `Session.HoldStaysReachable` | TransPortEngineSdk/CTcpSession.cpp:321-331 | holding an over-long body chunk keeps the cache arithmetic's invariant |
| `Session.CompleteIsWhole` | TransPortEngineSdk/CTcpSession.cpp:301-306 | in a reachable state a body completes only on an empty cache, from one chunk of the announced length |
| `Session.TcpSession.OnBodyChunk` | TransPortEngineSdk/CTcpSession.cpp:299-337 | the body branch takes the Linux machine's step; a failure changes nothing |
| `Session.TcpSession.OnHeadChunk` | TransPortEngineSdk/CTcpSession.cpp:338-393 | the header branch takes the machine's step, and the wire grows by what the write calls took of its echo |
| `Session.TcpSession.OnChunk` | TransPortEngineSdk/CTcpSession.cpp:295-402 | one chunk, with or without framing, is taken as the machine takes it |
| `Session.TcpSession.IORecv` | TransPortEngineSdk/CTcpSession.cpp:284-426 | for every trace of reads the loop's events, state, stamp and written bytes are those of the machine's run over the chunks read; it succeeds and registers again if and only if the machine lives, EAGAIN was seen and the registration was accepted |
| `Session.EchoWireIsEchoes` | TransPortEngineSdk/CTcpSession.cpp:375-379 | unless a write fails, the read loop writes exactly the echoes it shows, in order |
| `Session.TakeAllFramed` | TransPortEngineSdk/CTcpSession.cpp:289-420 | with framing, the run over the chunks read is the machine's run |
| `Session.UnframedDelivers` | TransPortEngineSdk/CTcpSession.cpp:395-401 | without framing every chunk is delivered as it is read, one delivery each in order, and the state never changes |
| `Session.TraceMeans` | TransPortEngineSdk/CTcpSession.cpp:294-419 | the chunks of a trace are the bytes read before the first end of stream, EAGAIN or error, and that is how it ends; interrupted reads leave no mark |
| `Session.TcpSession.ModEvent` | TransPortEngineSdk/CNetEventModleEpoll.cpp:93-127 | registration arms the session and asks for EPOLLOUT if and only if something is queued |
| `Session.TcpSession.IOSend` | TransPortEngineSdk/CTcpSession.cpp:612-655 | zero means all bytes are on the wire once and in order, -2 that a strict prefix is, -1 that there was nothing to send; the deferring branch is never entered |
| `Session.TcpSession.DrainDeferred` | TransPortEngineSdk/CTcpSession.cpp:192-232 | in a valid session the queue is empty and nothing is written; from a filled queue the front is dropped, what the socket takes of it is written, and the answer tells which |
| `Session.TcpSession.BuildFrame` | TransPortEngineSdk/CTcpSession.cpp:595-603 | the buffer filled by memcpy is the encoded frame |
| `Session.TcpSession.SendData` | TransPortEngineSdk/CTcpSession.cpp:591-610 | what was written is the stated front of the frame (or of the bare payload), and zero means all of it |
| `WriteLoop.ErrsIffShort` | TransPortEngineSdk/CTcpSession.cpp:620-634 | the write loop leaves through its failure branch if and only if it stops short |
| `WriteLoop.FiniteStallsSettle` | TransPortEngineSdk/CTcpSession.cpp:620-634 | the loop ends against every environment that stalls finitely often, within the stalls left plus one call per byte |
| `OverlappedSend.SendConservation` | TransPortEngineSdk/CTcpSession.cpp:234-279 | over every run of submits, completions and closing: sequence numbers rise strictly, each pending send is conserved, and each accepted send that is no longer pending was acknowledged in full unless a completion overran it |
| `OverlappedSend.AckedPlusWindowIsPayload` | TransPortEngineSdk/CTcpSession.cpp:264-269 | in every reachable state acknowledged bytes and remaining window make up the payload, the window is inside its buffer, and lookup finds this context and no other |
| `OverlappedSend.RecordedAreAccepted` | TransPortEngineSdk/CTcpSession.cpp:657-685 | over every run the payloads on record are exactly the accepted submits (something to send, not closing, taken by WSASend), in order, each under the rising number it was given |
| `OverlappedSend.NothingAcceptedIsLost` | TransPortEngineSdk/CTcpSession.cpp:657-685 | over every run each accepted send is still pending, its acknowledged bytes and window making up its payload, or acknowledged in full, unless a completion overran it |
| `OverlappedSend.SubmitAnswers` | TransPortEngineSdk/CTcpSession.cpp:612-686 | which submit answers -1, -2 and 0, and that an accepted one, and no other, is appended whole to the vector under the next number |
| `OverlappedSend.CompleteAnswers` | TransPortEngineSdk/CTcpSession.cpp:245-281 | in terms of the bytes left unacknowledged: 0 for the rest, or for a part that is reposted or closing; -2 for more than the rest; -3 exactly when a remainder has to be posted again and is refused; and the send stays pending exactly after a part |
| `OverlappedSend.CompletionOnRecord` | TransPortEngineSdk/CTcpSession.cpp:250-269 | a completion puts the next bytes of its payload on record as acknowledged, or an overrun if it claims more than the rest |
| `OverlappedSend.CompletionShrinksRemaining` | TransPortEngineSdk/CTcpSession.cpp:250-269 | a completion takes its bytes, and never more than its window, off the total; a non-zero one makes it fall |
| `OverlappedSend.IndexOfIsUnique` | TransPortEngineSdk/CTcpSession.cpp:236-244 | in an ordered vector the lookup of a context's number finds that context |
| `Session.TcpSession.IOSendOverlapped` | TransPortEngineSdk/CTcpSession.cpp:612-686 | the method's new state and return value are those of the submit |
| `Session.TcpSession.CompleteSend` | TransPortEngineSdk/CTcpSession.cpp:234-281 | the search loop and the three completion branches are the specified completion |
| `Session.TcpSession.IoSendCount` | TransPortEngineSdk/CTcpSession.cpp:782-787 | the count returned bounds what is pending after any further calls and completions |
| `OverlappedSend.ClosedOnlyDrains` | TransPortEngineSdk/CTcpSession.cpp:782-787 | once TcpSession_IoSendCount has set the closing flag, no step posts anything new: every context still pending was pending before, in the same order, with no more left to send |
| `OverlappedSend.CountFallsAfterClose` | TransPortEngineSdk/CTcpSession.cpp:782-787 | so over every run after closing the pending count and the bytes remaining only fall |
| `Session.TcpSession.SendDataOverlapped` | TransPortEngineSdk/CTcpSession.cpp:591-610 | the frame (or bare payload) is submitted |
| `Session.TcpSession.PostRecv` | TransPortEngineSdk/CTcpSession.cpp:691-726 | the posted length is the 32-bit gap of the current part, or the whole buffer without framing |
| `Session.TcpSession.OnBodyCompletion` | TransPortEngineSdk/CTcpSession.cpp:432-469 | the body branch takes the Windows machine's step; a failure changes nothing |
| `Session.TcpSession.OnHeadCompletion` | TransPortEngineSdk/CTcpSession.cpp:470-525 | the header branch takes the machine's step and submits exactly the echo |
| `Session.TcpSession.IORecvCompleted` | TransPortEngineSdk/CTcpSession.cpp:428-562 | a completion takes the Windows machine's step and submits exactly its echoes; the next post again asks for what the part misses |
| `Heartbeat.StampIsLatestHeartbeat` | TransPortEngineSdk/CTcpSession.cpp:806-820 | over every timeline, whatever its chunks: while a session lives it is where its chunks alone bring it, and its stamp is the latest of its start and the heartbeats completed while the stream fitted |
| `Heartbeat.ChunkShowsBeat` | TransPortEngineSdk/CTcpSession.cpp:297-394 | a live session's next chunk refreshes the stamp if and only if it completes a heartbeat of the stream and everything up to it fitted |
| `Heartbeat.ReadLoopIsTicks` | TransPortEngineSdk/CTcpSession.cpp:289-420 | one read loop over a trace of any number of chunks is that many arrivals of the timeline: same state, same stamp, same end |
| `Heartbeat.SurvivesIffTimely` | TransPortEngineSdk/CTcpSessionMgr.cpp:167-232 | over every timeline with a monotone clock and chunks of 1 to 1024 bytes, a framed session survives if and only if no chunk fails and every sweep comes within the timeout of its start or of an earlier heartbeat completed while the stream fitted |
| `Heartbeat.LostSessionExpires` | TransPortEngineSdk/CTcpSessionMgr.cpp:194-218 | a session that holds an over-long chunk and lives on is removed by a sweep past the timeout after its last heartbeat before that chunk |
| `Heartbeat.UnframedExpires` | TransPortEngineSdk/CTcpSession.cpp:395-401 | without framing the stamp never changes: the session survives exactly the sweeps up to the timeout after its start |
| `SessionMgr.TcpSessionMgr.AddSession` | TransPortEngineSdk/CTcpSessionMgr.cpp:114-123 | a new socket is entered; a socket already present keeps its session |
| `SessionMgr.TcpSessionMgr.DelSession` | TransPortEngineSdk/CTcpSessionMgr.cpp:126-146 | the entry is erased, and the answer says whether there was one |
| `SessionMgr.TcpSessionMgr.Next` | TransPortEngineSdk/CTcpSessionMgr.cpp:197-221 | advancing, allowed only while the iterator's entry is in the map, goes to the least key above it |
| `SessionMgr.FromFurther` | TransPortEngineSdk/CTcpSessionMgr.cpp:197 | advancing and then erasing passes one key and leaves the live keys from the new iterator on as they were |
| `SessionMgr.TcpSessionMgr.Sweep` | TransPortEngineSdk/CTcpSessionMgr.cpp:178-229 | the loop over the live table, erasing the entry its iterator has just left, leaves exactly the sessions not timed out, and takes down exactly the others, once each, in the one key order there is, each by erase, deregister, finalise, delete |
| `SessionMgr.TcpSessionMgr.Fini` | TransPortEngineSdk/CTcpSessionMgr.cpp:99-112 | every session is finalised and deleted once, in key order, and the table is empty |
| `SessionMgr.AscendingUnique` | TransPortEngineSdk/CTcpSessionMgr.cpp:184-228 | the list of keys taken down is determined by which keys it holds (used by the sweep) |
| `SessionMgr.CallsInOrder` | TransPortEngineSdk/CTcpSessionMgr.cpp:104-111 | on each session taken down, a sweep calls erase, deregister, finalise, delete and a shutdown finalise, delete, in this order and once; on every other session nothing |
| `OwnershipInvariant.StepSafeIff` | TransPortEngineSdk/CNetEventModleEpoll.cpp:140-258 | from a state that satisfies the invariant, a step leads to one that does if and only if the step's guard holds |
| `OwnershipInvariant.SafeStepKeeps` | TransPortEngineSdk/CNetEventModleEpoll.cpp:147-254 | every guarded step of workers with their batches, reaper, acceptor and shutdown keeps the invariant |
| `OwnershipInvariant.FetchKeeps` | TransPortEngineSdk/CNetEventModleEpoll.cpp:147 | epoll_wait hands a batch of armed sessions to one worker and disarms all of them at once; nobody else holds any of them |
| `OwnershipInvariant.NextKeeps` | TransPortEngineSdk/CNetEventModleEpoll.cpp:217-224 | coming to an event of the batch keeps the session with the worker |
| `OwnershipInvariant.SkipKeeps` | TransPortEngineSdk/CNetEventModleEpoll.cpp:154-175 | a hang-up or error event gives the session up unarmed |
| `OwnershipInvariant.ReadDoneKeeps` | TransPortEngineSdk/CTcpSession.cpp:421-426 | re-arming at the end of the read loop releases the session |
| `OwnershipInvariant.RemoveHitKeeps` | TransPortEngineSdk/CNetEventModleEpoll.cpp:228-247 | a worker that erases its own session's entry becomes the one to take it down |
| `OwnershipInvariant.RemoveMissKeeps` | TransPortEngineSdk/CNetEventModleEpoll.cpp:228-232 | a worker that finds no entry, with its flag clear, leaves the session to whoever erased it |
| `OwnershipInvariant.AdvanceKeeps` | TransPortEngineSdk/CNetEventModleEpoll.cpp:236-251 | each further teardown call of a worker keeps the order and the single owner |
| `OwnershipInvariant.ReapKeeps` | TransPortEngineSdk/CTcpSessionMgr.cpp:197 | the sweep's erase makes the reaper the one to take the session down |
| `OwnershipInvariant.ReapAdvanceKeeps` | TransPortEngineSdk/CTcpSessionMgr.cpp:199-227 | each further teardown call of the reaper keeps the order and the single owner |
| `OwnershipInvariant.AbortKeeps` | TransPortEngineSdk/CTcpSessionMgr.cpp:126-146 | the acceptor's failure paths (`CAcceptSession.cpp:328-365`), which call DelSession and go on whatever it answers, are safe while the session is still listed |
| `OwnershipInvariant.ShutdownKeeps` | TransPortEngineSdk/CTcpSessionMgr.cpp:82-113 | shutdown, after the other threads have stopped (`CAcceptSession.cpp:231-265`), takes each listed session down once |
| `OwnershipInvariant.HeldAlone` | TransPortEngineSdk/CNetEventModleEpoll.cpp:93-127 | a session a worker holds is unarmed, its socket's entry is its own, and no other worker holds it |
| `Ownership.RunIsGood` | TransPortEngineSdk/CNetEventModleEpoll.cpp:140-258 | every state of every guarded run satisfies the invariant |
| `Ownership.WorkerExclusion` | TransPortEngineSdk/CNetEventModleEpoll.cpp:93-127 | over every guarded run at most one worker, and that one at most once, is between being handed a session's event, alone or in a batch, and re-arming it or giving it up; and the session is not armed meanwhile |
| `Ownership.TeardownExactlyOnce` | TransPortEngineSdk/CNetEventModleEpoll.cpp:224-253 | over every guarded run each session's teardown calls are one actor's, in order, none repeated; there are none exactly while it is listed or being announced; its socket is open exactly until finalise |
| `Ownership.NoLostSession` | TransPortEngineSdk/CNetEventModleEpoll.cpp:147-255 | over every guarded run a listed session is in exactly one condition: armed, held by a worker (in its batch or at hand), parked, or entered and not yet registered |
| `Ownership.NotificationsBalance` | TransPortEngineSdk/CTcpSession.cpp:98-137 | CONNECT minus DISCONNECT notifications count the table, plus sessions announced but not entered or erased but not finalised; with nobody at work, just the table |
| `Ownership.UnguardedPostBreaksExclusion` | TransPortEngineSdk/CTcpSession.cpp:691-699 | registering again while a worker holds the session, even unread in its batch, breaks exclusion at once |
| `Ownership.UnguardedPostLetsTwoIn` | TransPortEngineSdk/CTcpSession.cpp:691-699 | and the next worker at rest can then be handed the session a second time |
| `Ownership.UnguardedAbortBreaksTeardown` | TransPortEngineSdk/CTcpSessionMgr.cpp:126-146 | an acceptor's failure path on a session someone else took over breaks exactly-once teardown at once |
| `Ownership.UnguardedRemoveBreaksTeardown` | TransPortEngineSdk/CNetEventModleEpoll.cpp:228-251 | erasing another session's entry, or deleting on a stale flag, breaks exactly-once teardown at once |
| `Ownership.LateWorkerErases` | TransPortEngineSdk/CNetEventModleEpoll.cpp:150-228 | with the union repaired (line 152 reading the socket): once a socket number is entered of which a worker still holds an old session, at hand or anywhere in its batch, that worker's own further steps can lead to the new session losing its entry without a teardown |
| `Ownership.UnguardedStepBreaksPromise` | TransPortEngineSdk/CNetEventModleEpoll.cpp:140-258 | the converse of the promises, keys being arbitrary numbers: after any guarded run, a step without its guard breaks a promise, at once or, for entering a number that a worker is late with, through that worker's own steps, which remove by socket |
| `Counterexamples.SecondRegistrationBreaksExclusion` | TransPortEngineSdk/CNetEventModleEpoll.cpp:93-127 | a run of the code as written, accept to second event, in which two workers read one session; no key is read |
| `Counterexamples.SweepBeforeRegistrationTearsDownTwice` | TransPortEngineSdk/CTcpSessionMgr.cpp:178-229 | a run of the code as written, for any socket and with no key read: a sweep takes a session down between AddSession and AddEvent, and the acceptor's failure path does so again |
| `Counterexamples.ForeignKeyErases` | TransPortEngineSdk/CNetEventModleEpoll.cpp:152-228 | a run of the code as written for any two socket numbers: a failed read whose key reads as the other session's number erases that session's entry and starts to take its own session down while it is listed |
| `Counterexamples.ReusedSocketBreaksTeardown` | TransPortEngineSdk/CNetEventModleEpoll.cpp:147-228 | with the union repaired (line 152 reading the socket): a run in which a session is reaped while its event waits in a batch, and the worker then erases the entry of the new session on the same number |
| `Counterexamples.AcceptorAbortTearsDownTwice` | TransPortEngineSdk/CNetEventModleEpoll.cpp:224-251 | with the union repaired (line 152 reading the socket): a run in which a worker takes a session down between the two registrations and the acceptor's failure path does so again |
| `Counterexamples.StaleFlagDeletesTwice` | TransPortEngineSdk/CNetEventModleEpoll.cpp:142-251 | with the union repaired (line 152 reading the socket): a run in which a flag left over from one teardown deletes another session a second time |
| `OwnershipRuns.SweepIsRun` | TransPortEngineSdk/CTcpSessionMgr.cpp:178-229 | the calls of a sweep are a guarded run of the reaper that takes exactly the swept sessions off the table, each with one whole teardown |
| `OwnershipRuns.ShutdownIsRun` | TransPortEngineSdk/CTcpSessionMgr.cpp:82-113 | the calls of manager shutdown are guarded shutdown steps that take exactly the listed sessions down |
| `OwnershipLaws.ReaperDeregistration` | TransPortEngineSdk/CNetEventModleEpoll.cpp:129-138 | while the reaper takes an armed session down, a worker at rest can be handed its event after the deregistration if and only if that failed, and not after the finalise |
| `OwnershipLaws.WorkerDeregistration` | TransPortEngineSdk/CNetEventModleEpoll.cpp:129-138 | the same for a worker's teardown, seen by another worker |
| `OwnershipLaws.FetchedBeforeFinalise` | TransPortEngineSdk/CTcpSessionMgr.cpp:199-212 | a run from the start in which a session is handed to a worker between a deregistration that fails and the finalise |
| `OwnershipLaws.GoneIsNeverReported` | TransPortEngineSdk/CTcpSession.cpp:22-29 | in every run, guarded or not, a session that was finalised or deleted is closed, unregistered and unarmed, and no worker is handed an event of it again |
| `OwnershipLaws.DeletedHistories` | TransPortEngineSdk/CNetEventModleEpoll.cpp:236-251 | over every guarded run a deleted session has behind it, by who took it down, exactly erase, deregister, finalise, delete, or the manager's or the acceptor's calls |
| `OwnershipLaws.AbortCalls` | TransPortEngineSdk/CTcpSessionMgr.cpp:126-146 | what the acceptor calls when a registration fails while the session is listed, and that its entry is gone |
| `OwnershipLaws.GivenUpIsParked` | TransPortEngineSdk/CNetEventModleEpoll.cpp:154-175 | a hang-up or error event, and a removal that finds nothing, leave the session listed as it was, unarmed and parked, with nothing called on it |
| `OwnershipLaws.ParkedIsNeverRead` | TransPortEngineSdk/CNetEventModleEpoll.cpp:154-175 | over every guarded run a parked session that the acceptor is done with stays parked and is handed to no worker again |
| `OwnershipLaws.NobodyWaits` | TransPortEngineSdk/CNetEventModleEpoll.cpp:147-256 | whatever the other threads are at, a thread between two of its moves can make its next one, with every outcome its calls can have, and a worker at rest can be handed any batch of armed sessions |
| `OwnershipLaws.AddDisplacesNothing` | TransPortEngineSdk/CTcpSessionMgr.cpp:114-123 | entering a session displaces no entry |
| `EpollWorker.NetEventModle.HandleEvent` | TransPortEngineSdk/CNetEventModleEpoll.cpp:150-255 | whatever the other threads do between its moves, the worker's moves for one event are a skip, a read and re-arm, or a failed read with its removal and teardown; the session is read by `TcpSession.IORecv`, and is re-armed if and only if the reads drained the socket, the session's machine lived, and epoll still knew the registration and took it |
| `EpollWorker.NetEventModle.HandleData` | TransPortEngineSdk/CNetEventModleEpoll.cpp:147-256 | a fetch and the handling of its events in order, interleaved with anything the other threads do, is a run of the transition system whose steps by this worker are the fetch and the events' scripts; each session shows what its reads deliver |
| `EpollWorker.NetEventModle.Fetch` | TransPortEngineSdk/CNetEventModleEpoll.cpp:147 | every session reported is disarmed, and the batch is the worker's |
| `EpollWorker.NetEventModle.DelSession` | TransPortEngineSdk/CNetEventModleEpoll.cpp:228-251 | the removal by number, its answer, and the delete that a left-over flag leads to |
| `EpollWorker.NetEventModle.Teardown` | TransPortEngineSdk/CNetEventModleEpoll.cpp:236-251 | deregistration, which may fail, finalise and delete, in turn, are the system's teardown steps |
| `EpollWorker.IntendedIsGuarded` | TransPortEngineSdk/CNetEventModleEpoll.cpp:224-251 | with the socket as the key and the flag reset for the event, a worker's removal never hits another session's entry, whatever the other threads do |
| `EpollWorker.IntendedRunsKeepPromises` | TransPortEngineSdk/CNetEventModleEpoll.cpp:147-256 | every interleaving keeps every promise if each removal is by the socket of the session at hand with the flag reset, and the acceptor's steps are under their guards; that the removals are then safe is derived, the acceptor's guards are assumed |
| `EpollWorker.MissingKeysKeepPromises` | TransPortEngineSdk/CNetEventModleEpoll.cpp:152-251 | the worker as written, while no key it reads is a listed number and the acceptor's steps are under their guards: no worker ever takes a session down or sets its flag, and every interleaving keeps every promise |
| `EpollWorker.MissingKeysFromStart` | TransPortEngineSdk/CNetEventModleEpoll.cpp:152-251 | the same over every such run from the start of the engine |

## Left out

- Sockets, epoll, WSASend/WSARecv, read/write, clocks: supplied as traces and flags that the theorems quantify over. In `Session.dfy` a read gives at most 1024 bytes and a completion at most what was posted.
- Threads and locks: a stretch of code under a lock, or that touches only what its thread owns, is one atomic step of `EventOwnership`. The sweep's calls on one session are separate steps there, which allows more interleavings than its lock does. Any worker may be handed any armed session, though the code gives each event module its own epoll.
- Memory safety between the reaper and a worker inside a read: the session lock that would give it is commented out, so the worker may go on with a deleted object. The model lets it, and follows only the teardown calls.
- Session.TcpSession.IOSend: assumes that nobody else writes to the socket meanwhile. The write loop (`CTcpSession.cpp:620-634`) holds no lock, and exclusion covers receive state only, so a listener's TcpSession_SendData on another thread and a worker's echo can interleave inside a frame; the wire clauses of `IOSend`, `SendData` and `IORecv` are about one sender at a time.
- TcpSessionMgr_FindSession: a lookup for the IOCP worker and for sending by session id (`CAcceptSession.cpp:607-609`), neither of which is modelled.
- Callbacks: recorded as events; a listener that calls back into the session, or a null listener, is not modelled.
- Announced lengths above 4096 on Windows: the code posts them against a 4096-byte buffer. `IORecvCompleted` asks that a completion be at most 4096 bytes.
- Completions that arrive before TcpSession_IOSend has pushed its context: each call on the Windows send path is one step.
- Session.TcpSession.IOSendOverlapped: does not model the overflow of the sequence counter; asks that fewer than 2^31 sends were submitted.
- Session.TcpSession.GetRecvCacheLen: the source adds in a signed `int`; the model wraps at 2^32, as the unsigned result does.
- Wire.DataHeadReads: `TcpSession_SendData` with a negative length, or one within eight of 2^31, is not modelled.
- EpollWorker.NetEventModle.HandleEvent: the EPOLLOUT branch of the worker loop is left out, because `Session.TcpSession.IORecv` and `IOSend` keep the queue empty and no registration asks for it. A session's reads are one step: nobody else touches its receive state, by exclusion.
- SessionMgr.TcpSessionMgr.Sweep: deregistration is recorded whether or not it succeeds (`OwnershipRuns.SweepIsRun` holds for every outcome); the module lookup always finds module 0.
- The IOCP worker (`CNetEventModleIOCP.cpp`), including its zero-byte path, which deregisters and finalises even when the table entry is gone; its session lock makes it a different protocol from the Linux one.
- The pending sends are values in a sequence: the allocation of contexts and buffers, and TcpSession_Fini freeing them, are not modelled.
- The client is a different program; logging, address bookkeeping, the event-module registry (a map from an index to a module) and the public wrapper (which forwards to the engine) take no part in what a session receives, sends or lives through.
