# Risk: verified core

Risk is a peer-to-peer application for chat, calls and file transfer. This project models the parts of it whose
correctness does not depend on the browser, in Dafny 4.11, and proves what they promise.

| file | part of the program |
|---|---|
| `Negotiation.dfy` | "perfect negotiation" of the mesh transport (section 10.7 of W3C WebRTC 1.0, signalling states of section 3.2 of RFC 8829) |
| `Sha256Spec.dfy`, `Sha256Constants.dfy`, `Sha256.dfy` | FIPS 180-4 SHA-256, where its constants come from, and the two hand-written JavaScript classes that compute it |
| `ChunkGeometry.dfy` | how a file is cut into chunks |
| `ChunkStore.dfy`, `ChunkRuns.dfy` | the transfer directory of the desktop backend, with concurrent handlers and stops at any step; a handler that is left alone |
| `Receiver.dfy`, `ReceiverLaws.dfy`, `TransferBooks.dfy`, `FinalizeRace.dfy` | one incoming transfer with its storage, from `accept` on; what each step may change; its list and progress; integrity, and finalize calls that meet |
| `Sender.dfy`, `SenderLaws.dfy` | the outgoing queue, its pump and its runs; what each call may change |
| `TransferProtocol.dfy` | one system of sender, receiver and directory |
| `CursorOrder.dfy`, `History.dfy` | history synchronisation by cursors |
| `Projection.dfy`, `MessageStore.dfy`, `MessageRaces.dfy`, `SignedWire.dfy` | edits, deletes, pins and reactions folded over messages; store and cache, one operation at a time and interleaved; signed content |
| `Handshake.dfy` | the identity handshake and the peer sets |
| `MeshTables.dfy`, `MeshLaws.dfy` | senders, streams and the peer limit of the mesh; what each call may change |
| `ManifestText.dfy`, `Quota.dfy` | the manifest on disk: its JSON text in UTF-8 and its validation; the attachment quota |
| `FrameCodec.dfy`, `Ipv6.dfy` | binary chunk frames; IPv6 normal form |

A protocol is a state, a set of events and a total function `Apply`; an event is the code between two awaits, so a run
is any interleaving of handlers. Inductive invariants are proved step by step and the theorems quantify over all runs.
Where the source updates fields or arrays in place there is a class (or a method with a loop) whose `ensures` equates
the new state with that function. What that function means is said apart from it: for each protocol the lemmas named
`...ExactlyWhen`, `...Follows` and `...Means` tell, field by field, which steps may change it, to what, and when.

## What the proofs found

Each of these is a lemma with the input or the run, next to the exact condition under which the code is right.

- Negotiation: if the browser rejects the impolite side's offer after that side has dropped the polite side's, the
  polite side waits until the impolite side has a new need (`StrandingIsReachable`, `StrandingDeadlocks`). The side that
  gives way in a collision keeps its need on record and nothing takes it up until the next one
  (`GivingWayLeavesTheNeed`, `LeftOverExactlyWhen`).
- Chunk store: a stop in `finalize_transfer` between the rename and the cleanup leaves a full map without a payload; a
  recovery that creates a payload there makes every marker lie, and nothing else does (`CrashSafety`,
  `TruthIsLostExactlyWhen`, `StoppedFinalizeIsSafeExactlyWhen`, `StoppedRecoveryLies`).
- Receiver: a chunk that is stored after `accept` has read the list of missing chunks and before it installs the list is
  both received and missing, and the transfer never finishes (`ListingRaceHappens`, `ListingRaceStrands`).
- Receiver: pause, resume and the end of `accept` write the state without looking at it. While a finalize is in flight
  this lets a second one start beside it, and then "completed" can be reported with the published file deleted
  (`SecondFinalizeExactlyWhen`, `ResumeCanLoseTheFile`, `LosingIsReachable`). Two `file.complete` messages handled before
  the list is installed do the same (`PrematureCompletesFinalizeTwice`). One of them is enough to publish bytes that were
  written after the check, but only if a cancelled transfer is revived as well, by a resume or by the end of `accept`
  (`CompletedHasIntegrity`, `PrematureCanPublishOtherBytes`, `OvertakenIsReachable`).
- Sender: `file.error` can follow a cancel (`ErrorExactlyWhen`).
- Message service: an event that is saved while a projection of its message is on its way to the store, or a message that
  is projected while an event for it is saved and not yet listed, leaves store and cache without that event until the
  message is read through `history` (`ExactUnlessMissed`, `LateEventIsLost`, `EarlyProjectionIsLost`, `HistoryHeals`).
  A session reset while two loads of the event list overlap can drop an event from the list for good, and then `history`
  does not help (`ResetSpoilsExactlyWhen`, `ResetForgetsAnEvent`, `OlderEventWins`).
- Signed messages: a timestamp with a fraction of a millisecond does not survive storage (`SignedContentSurvives`).
- Handshake: a peer that was revoked and admitted again can be open and revocation-only at once
  (`StaysApartExactlyWhen`); a profile update in flight puts a dropped member back into the trusted table
  (`TrustedIsMembersExactlyWhen`).
- Mesh: while `replacePublishedTrack` awaits, a revoked peer gets the new track onto its sender, or the old one back
  (`RevokedPeerGetsTheTrack`, `RevokedPeerGetsItBack`), a peer that joins or is authorised again gets the wrong ones, and
  a replacement by a published track leaves a sender behind (`FinishSpoiledExactlyWhen`, `RollBackSpoiledExactlyWhen`,
  `BeginsExactlyWhen`). A peer that is revoked and authorised again stays silent (`HeardExactlyWhen`); `disconnect` leaves
  active streams switched on (`PlaysListedExactlyWhen`).
- Quota: without the ignored cleanup a finalized file is counted twice, and a finalize between the two measurements of
  `prepare` is counted in neither, so that the quota can be exceeded (`UncleanFinalizeGrows`,
  `StraddlingKeepsQuotaExactlyWhen`, `QuotaCanBeExceeded`).

## Model

| member | source | states |
|---|---|---|
| Negotiation.PeerEntry.BeginNegotiation | packages/rtc/src/transport/mesh.ts:710-718 | moves the entry exactly as the endpoint of the protocol moves when an offer is begun |
| Negotiation.PeerEntry.FinishOffer | packages/rtc/src/transport/mesh.ts:719-749 | after `createOffer`, the entry is the endpoint that sent its offer, or has its needs restored |
| Negotiation.PeerEntry.AcceptDescriptionNow | packages/rtc/src/transport/mesh.ts:615-648 | a description moves the entry as the protocol says: ignored, rolled back and accepted, or accepted |
| Negotiation.PeerEntry.FinishAnswer | packages/rtc/src/transport/mesh.ts:640-644 | answering returns the entry to stable |
| Negotiation.RunKeepsInv | packages/rtc/src/transport/mesh.ts:605-648 | every run that never strands keeps the joint invariant of both endpoints and both queues |
| Negotiation.NegotiationSafety | packages/rtc/src/transport/mesh.ts:605-648 | in every run an answer meets the very offer that is pending, and when nothing is left to do both sides are stable |
| Negotiation.PendingOfferFate | packages/rtc/src/transport/mesh.ts:615-629 | the impolite side gives up a pending offer only for its answer; the polite side only for its answer or the other's pending offer |
| Negotiation.NotQuiescentHasStep | packages/rtc/src/transport/mesh.ts:605-648 | the code has a step to take if and only if the link is not quiescent |
| Negotiation.InternalStepLowersWork | packages/rtc/src/transport/mesh.ts:710-749 | every step of the code lowers a measure |
| Negotiation.SettlesInBoundedSteps | packages/rtc/src/transport/mesh.ts:710-749 | without new needs a continuation is no longer than that measure |
| Negotiation.NegotiationSettles | packages/rtc/src/transport/mesh.ts:710-749 | no deadlock, no livelock: every maximal continuation is finite and leaves both sides stable |
| Negotiation.NeedIsServed | packages/rtc/src/transport/mesh.ts:710-749 | a need that arises while nothing is under way leads to one offer and its answer, both sides end stable and the need is gone |
| Negotiation.NeedsAreServed | packages/rtc/src/transport/mesh.ts:710-749 | in every interleaving of both sides, when a run that never leaves a need over comes to rest, a side that may negotiate needs nothing any more |
| Negotiation.LeftOverExactlyWhen | packages/rtc/src/transport/mesh.ts:639-647 | a step leaves a need over if and only if the browser rejects an offer over a stable connection or an answer is sent with a need on record, and only a new need or an offer takes it up again |
| Negotiation.NoRestartIsLost | packages/rtc/src/transport/mesh.ts:710-729 | in every run, whatever collisions, rollbacks and rejections come in between, a restart that was asked for is sent in an offer or still owed |
| Negotiation.RestartIsOwedExactlyWhen | packages/rtc/src/transport/mesh.ts:639-647 | a restart is owed from its request until an offer that carries it is sent, and no description settles it |
| Negotiation.OfferIsOwedExactlyWhen | packages/rtc/src/transport/mesh.ts:639-647 | a track change is owed until an offer that carries it is sent, or the other side's offer is accepted before one was begun for it |
| Negotiation.BeginsOnlyWhen | packages/rtc/src/transport/mesh.ts:710-732 | an offer is begun only for something owed, over a stable connection, by a side that may, and one at a time |
| Negotiation.MayNegotiateExactlyWhen | packages/rtc/src/transport/mesh.ts:639-639 | a side may make offers from the moment it is the initiator or has taken a description, and for ever after |
| Negotiation.SignalingFollows | packages/rtc/src/transport/mesh.ts:615-648 | the signalling state follows what is sent and taken, and nothing else |
| Negotiation.QueuesFollow | packages/rtc/src/transport/mesh.ts:640-644 | a side reads one description at a time, and the other side's offers and answers come behind what is there |
| Negotiation.IgnoresExactlyWhen | packages/rtc/src/transport/mesh.ts:617-621 | an offer is ignored by the impolite side alone, while it makes or has sent its own |
| Negotiation.MakingExactlyWhen | packages/rtc/src/transport/mesh.ts:710-749 | an offer is under way from a need, or an answer that finds one on record, over a stable connection, until it has settled |
| Negotiation.GivingWayLeavesTheNeed | packages/rtc/src/transport/mesh.ts:719-729 | from every quiet link a collision leaves the polite side with its need |
| Negotiation.StrandingDeadlocks | packages/rtc/src/transport/mesh.ts:719-729 | a step deadlocks the polite side if and only if it is the failed offer of an impolite side that has dropped one |
| Negotiation.StrandingIsReachable | packages/rtc/src/transport/mesh.ts:615-621 | a run from the initial state that does so |
| Sha256.SignedFunctions | packages/rtc/src/streaming-sha256.ts:63-72 | the six functions computed on signed 32-bit integers are those of FIPS 180-4 after `>>> 0` |
| Sha256.ScheduleStep | packages/rtc/src/streaming-sha256.ts:63-66 | the schedule word summed from signed parts is the message schedule of section 6.2.2 of FIPS 180-4 |
| Sha256.FirstTemporary | packages/rtc/src/streaming-sha256.ts:69-69 | the first temporary value equals T1 of the standard |
| Sha256.SecondTemporary | packages/rtc/src/streaming-sha256.ts:70-70 | the second temporary value equals T2 of the standard |
| Sha256.LengthBlock | packages/rtc/src/streaming-sha256.ts:49-55 | the two 32-bit writes of the bit length are its 64-bit big-endian form |
| Sha256.AbsorbFull | packages/rtc/src/streaming-sha256.ts:24-30 | compressing a block that has just filled keeps the state equal to the hash of the blocks so far |
| Sha256.FinishShort | packages/rtc/src/streaming-sha256.ts:47-57 | one block of padding is enough below 56 pending bytes and gives the padded hash |
| Sha256.FinishLong | packages/rtc/src/streaming-sha256.ts:47-57 | from 56 pending bytes on, two blocks give the padded hash |
| Sha256.StreamingHash.ExpandSchedule | packages/rtc/src/streaming-sha256.ts:60-66 | the word array is the whole message schedule |
| Sha256.StreamingHash.MixBlock | packages/rtc/src/streaming-sha256.ts:67-72 | the loop computes the 64 rounds of the standard |
| Sha256.StreamingHash.CompressBlock | packages/rtc/src/streaming-sha256.ts:59-77 | the state array becomes the compression of the block |
| Sha256.StreamingHash.Update | packages/rtc/src/streaming-sha256.ts:19-32 | the message seen so far grows by the input; after the end it is refused |
| Sha256.StreamingHash.Finish | apps/web/src/services/attachments/streaming-sha256.ts:57-72 | padding at every fill level leaves the hash of the whole message in the state |
| Sha256.StreamingHash.DigestBytes | apps/web/src/services/attachments/streaming-sha256.ts:44-55 | the digest is the SHA-256 value of the message, also when asked twice |
| Sha256.HashStream | packages/rtc/src/streaming-sha256.ts:80-89 | for every split into pieces and for either class the result is SHA-256 of the concatenation |
| Sha256Constants.RoundConstants | packages/rtc/src/streaming-sha256.ts:1-10 | the 64 words are the first 32 bits of the fractional parts of the cube roots of the first 64 primes |
| Sha256Constants.InitialValue | packages/rtc/src/streaming-sha256.ts:13-13 | the 8 words are those of the square roots of the first 8 primes |
| ChunkGeometry.ChunkInside | packages/protocol/src/attachments.ts:178-181 | each announced chunk is a non-empty interval of the file, adjacent to the next one |
| ChunkGeometry.Partition | desktop-backend/src/p2p/attachments.rs:383-390 | each byte lies in exactly one chunk |
| ChunkGeometry.TotalLengthIs | desktop-backend/src/p2p/attachments.rs:383-390 | the expected sizes add up to the size of the file |
| ChunkGeometry.ChunksDetermine | packages/rtc/src/file-transfer.ts:119-124 | two files with equal chunks are equal |
| ChunkStore.StepKeepsInv | desktop-backend/src/p2p/attachments.rs:134-177 | every file step of writers, recovery and finalize keeps markers and handlers truthful, but for one |
| ChunkStore.CrashSafety | desktop-backend/src/p2p/attachments.rs:134-256 | in every interleaving of writers, recoveries and finalize steps, with stops anywhere, marker 1 means a completely written slice if and only if no recovery creates a payload while a marked map has lost its own |
| ChunkStore.TruthIsLostExactlyWhen | desktop-backend/src/p2p/attachments.rs:331-339 | a step makes the map lie if and only if it is that one |
| ChunkStore.SoundUntilRename | desktop-backend/src/p2p/attachments.rs:134-177 | without the rename of a finalize a sound directory stays sound at every interleaving, with stops at any step |
| ChunkStore.StoppedRecoveryLies | desktop-backend/src/p2p/attachments.rs:331-339 | a recovery over a marked map without payload, stopped after creating the payload, leaves a map that lies about every slice |
| ChunkStore.RecoveryIsSafeExactlyWhen | desktop-backend/src/p2p/attachments.rs:317-381 | recovery never makes the map lie if and only if no marked map lacks its payload at the start |
| ChunkStore.StopInFinalizeIsNotRecoverable | desktop-backend/src/p2p/attachments.rs:238-254 | a stop after the rename leaves such a directory |
| ChunkStore.StoppedFinalizeIsSafeExactlyWhen | desktop-backend/src/p2p/attachments.rs:238-254 | after a finalize that stopped anywhere every later run is truthful if and only if the map did not outlive the payload |
| ChunkStore.MarkersSurvive | desktop-backend/src/p2p/attachments.rs:165-176 | once the map is believed, no run of writers and stops loses a marker |
| ChunkStore.HandlersKeepTheirOrder | desktop-backend/src/p2p/attachments.rs:165-176 | a handler takes its steps in order, ends only after the last one, and copies only legacy parts that have the size of their chunk |
| ChunkStore.HandlersBegin | desktop-backend/src/p2p/attachments.rs:134-165 | a handler begins as a write over a believed map, for an index there is, or as a recovery where a file is missing |
| ChunkStore.PartsExactlyWhen | desktop-backend/src/p2p/attachments.rs:349-375 | a legacy part goes when it has been copied, and all may go after a rename |
| ChunkRuns.WriteIsDone | desktop-backend/src/p2p/attachments.rs:165-176 | a write that is left alone ends with exactly its slice and its marker changed |
| ChunkRuns.PartIsMigrated | desktop-backend/src/p2p/attachments.rs:349-375 | a legacy part of the right size ends up in its slice, marked and removed |
| ChunkRuns.RecoveryIsDone | desktop-backend/src/p2p/attachments.rs:317-381 | a recovery that is left alone makes a payload of the size of the file, in which the parts that were there are in their slices, and a map that marks exactly these |
| ChunkRuns.RenamesExactlyWhen | desktop-backend/src/p2p/attachments.rs:238-243 | the payload is moved away if and only if no handler is in flight, both files are there and every chunk is marked |
| ChunkRuns.StopKeepsFiles | desktop-backend/src/p2p/attachments.rs:134-256 | a stop may come at any moment and leaves the files as they are |
| ChunkRuns.FinalizeIsDone | desktop-backend/src/p2p/attachments.rs:238-254 | a finalize that is left alone moves the payload away and empties the directory |
| ChunkStore.TransferDirectory.PrepareChunkStorage | desktop-backend/src/p2p/attachments.rs:317-381 | existing files are left alone; otherwise exactly the legacy parts of the right size are copied and marked |
| ChunkStore.TransferDirectory.WriteChunk | desktop-backend/src/p2p/attachments.rs:134-177 | accepted exactly for a valid index and size; changes exactly that slice and that marker |
| ChunkStore.TransferDirectory.ListMissing | desktop-backend/src/p2p/attachments.rs:103-114 | the unmarked indices, all of them, ascending |
| ChunkStore.TransferDirectory.FinalizeTransfer | desktop-backend/src/p2p/attachments.rs:192-243 | the payload becomes the content if and only if the map is complete and size and SHA-256 are those of the manifest |
| TransferBooks.BytesFollowTheList | packages/rtc/src/file-receiver.ts:140-167 | from the accepted state, once the list is installed, with chunks in hand or not and whatever pauses, resumes and cancels follow: progress grows by the size of exactly the chunks that leave the list, until it is empty and the whole file is counted |
| TransferBooks.ListIsFollowed | packages/rtc/src/file-receiver.ts:126-151 | the same from any state whose chunks and calls go by an installed list, in every run whatsoever; and no write is in flight when a finalize starts |
| TransferBooks.BytesAreConserved | packages/rtc/src/file-receiver.ts:140-167 | in every run, while a transfer that was not cancelled writes to the payload `accept` prepared, progress is the total size of exactly the chunks stored since; a completed transfer has counted the whole file |
| TransferBooks.FinalizeIsSafe | packages/rtc/src/file-receiver.ts:280-298 | in every run, a finalize over the payload `accept` prepared starts only when every chunk is stored; and no write is in flight then, unless a `file.complete` came before the list and a cancelled transfer was revived |
| TransferBooks.CompletesExactlyWhen | packages/rtc/src/file-receiver.ts:298-308 | a step completes a transfer if and only if it is the return of a successful finalize whose announced hash is the manifest's, while the transfer is listed and verifying |
| TransferBooks.CompletedWasAnnounced | packages/rtc/src/file-receiver.ts:280-308 | in every run, a completed transfer was announced as complete with the hash of its manifest |
| TransferBooks.OtherHashFails | packages/rtc/src/file-receiver.ts:303-314 | a file that passed the check under a `file.complete` with another hash fails the transfer |
| TransferBooks.OnlyVerifiedChunks | packages/rtc/src/file-receiver.ts:89-152 | in every run, a chunk that is being written, was stored since the transfer was accepted or counts as received came with bytes whose hash was found to be the manifest's and then to be theirs |
| TransferBooks.OnlyWhileReceiving | packages/rtc/src/file-receiver.ts:107-138 | while the transfer is not receiving no chunk is taken in and none moves on towards the write |
| ReceiverLaws.PhaseFollows | packages/rtc/src/file-receiver.ts:140-168 | every step that sets the state, and the state it sets; all others keep it |
| ReceiverLaws.ListedExactlyWhen | packages/rtc/src/file-receiver.ts:184-192 | a transfer is listed until its cancel ends or its completion has been reported |
| ReceiverLaws.MissingFollows | packages/rtc/src/file-receiver.ts:285-290 | the missing chunks are the list `accept` installs, else the first list a `complete` read, less what is written and counted |
| ReceiverLaws.ReceivedExactlyWhen | packages/rtc/src/file-receiver.ts:122-148 | a chunk counts as received once it is written and counted, is verified and not on the list, or is verified and found stored |
| ReceiverLaws.BytesFollow | packages/rtc/src/file-receiver.ts:149-149 | progress grows by the size of each counted chunk, and is the whole size on completion |
| ReceiverLaws.AcceptFollows | packages/rtc/src/file-receiver.ts:154-168 | `accept` reads its list, installs it, sends its message and returns, in this order |
| ReceiverLaws.ChunkMoves | packages/rtc/src/file-receiver.ts:89-152 | at each stage, when a chunk goes on and when it is dropped |
| ReceiverLaws.CompleteMoves | packages/rtc/src/file-receiver.ts:280-298 | when a `complete` finalizes, asks for a list of its own, or gives up |
| ReceiverLaws.OtherCallsStay | packages/rtc/src/file-receiver.ts:280-323 | a step of one `complete` does not touch another |
| ReceiverLaws.AnnouncedStays | packages/rtc/src/file-receiver.ts:280-284 | only `file.complete` starts a call, while receiving, and the announced hash stays with it |
| ReceiverLaws.EndingMoves | packages/rtc/src/file-receiver.ts:298-323 | a completed transfer is reported, every other outcome ends the call |
| ReceiverLaws.DirectoryExactlyWhen | packages/rtc/src/file-receiver.ts:140-144 | the directory goes with a cancel, a write after the end, a cleanup, or a finalize nobody waits for |
| ReceiverLaws.StoredExactlyWhen | desktop-backend/src/p2p/attachments.rs:134-177 | a marker is set by its own write and goes only with the directory or a payload that is made anew |
| ReceiverLaws.BytesOfFiles | desktop-backend/src/p2p/attachments.rs:165-176 | no file but the payload is written, and it only within the chunk in hand |
| ReceiverLaws.OpensExactlyWhen | desktop-backend/src/p2p/attachments.rs:192-206 | a finalize goes on to the hash if and only if every chunk is marked |
| ReceiverLaws.HashingReads | desktop-backend/src/p2p/attachments.rs:214-226 | hashing takes the bytes of the open file in order, as they are when they are read |
| ReceiverLaws.CheckPassesExactlyWhen | desktop-backend/src/p2p/attachments.rs:214-236 | it passes the check if and only if what it read is whole and has the size and hash of the manifest |
| ReceiverLaws.ContentFollows | desktop-backend/src/p2p/attachments.rs:238-243 | the published file is replaced by the payload of the moment of the rename, and removed only before it |
| ReceiverLaws.PayloadFollows | desktop-backend/src/p2p/attachments.rs:238-254 | the payload goes with the rename or the directory, and is made anew only by a finalize that finds none |
| ReceiverLaws.BreakingFails | desktop-backend/src/p2p/attachments.rs:192-256 | a file operation that fails ends the finalize and changes nothing else |
| ReceiverLaws.PublishingMoves | desktop-backend/src/p2p/attachments.rs:238-256 | removal, rename and cleanup follow each other; the first failure ends the finalize |
| Receiver.FinalizeIsAlone | packages/rtc/src/file-receiver.ts:280-298 | while no handler overwrites a settled state, it starts only when no other finalize is in flight |
| Receiver.IncomingTransfer.HandleFrame | packages/rtc/src/file-receiver.ts:89-101 | a frame is queued exactly when the receiver's protocol queues it |
| Receiver.IncomingTransfer.StartProcessing | packages/rtc/src/file-receiver.ts:111-120 | a queued chunk is dropped or goes to the hash: one step of the runs BytesAreConserved covers |
| Receiver.IncomingTransfer.AfterHash | packages/rtc/src/file-receiver.ts:121-130 | an invalid chunk is dropped, a known one only recorded, a missing one goes to the write |
| Receiver.IncomingTransfer.AfterAnswer | packages/rtc/src/file-receiver.ts:131-138 | without a list the storage decides: a stored chunk is only recorded, another one goes to the write |
| Receiver.IncomingTransfer.AfterWrite | packages/rtc/src/file-receiver.ts:140-151 | exactly one index moves from missing to received, with its bytes; late writes of cancelled or unlisted transfers count for nothing |
| Receiver.IncomingTransfer.InstallMissing | packages/rtc/src/file-receiver.ts:158-159 | the list that was read becomes the missing set |
| Receiver.IncomingTransfer.AcceptReturned | packages/rtc/src/file-receiver.ts:160-166 | the end of `accept` overwrites any state |
| Receiver.IncomingTransfer.UpdateState | packages/rtc/src/file-receiver.ts:362-367 | a pause or resume overwrites any state of a listed transfer |
| Receiver.IncomingTransfer.BeginComplete | packages/rtc/src/file-receiver.ts:280-284 | `file.complete` waits exactly while receiving |
| Receiver.IncomingTransfer.AfterWait | packages/rtc/src/file-receiver.ts:285-298 | finalize is called exactly when a list is there and nothing is missing; without a list one is asked for |
| Receiver.IncomingTransfer.AfterOwnList | packages/rtc/src/file-receiver.ts:286-298 | its own list is installed only if there is none, and decides alone; the state is not looked at again |
| Receiver.IncomingTransfer.AfterFinalize | packages/rtc/src/file-receiver.ts:298-314 | one of any number of calls: completed only if still verifying and the announced hash agrees; otherwise failed or discarded |
| Receiver.IncomingTransfer.AfterReport | packages/rtc/src/file-receiver.ts:309-314 | a report that was sent unlists the transfer; one that was not makes it failed |
| FinalizeRace.SparedHasIntegrity | packages/rtc/src/file-receiver.ts:280-310 | while no two finalize calls meet and nothing is written into a file that one has open, "completed" means that the published file exists and has the size and hash of the manifest |
| FinalizeRace.CompletedHasIntegrity | packages/rtc/src/file-receiver.ts:280-310 | while no two finalize calls meet, "completed" means that the published file exists and has the size and hash of the manifest, whatever frames and control messages came, unless a `file.complete` came before the list and a cancelled transfer was revived |
| FinalizeRace.UndisturbedIsOrderly | packages/rtc/src/file-receiver.ts:280-310 | in runs in which no handler overwrites a settled state none of these happens |
| FinalizeRace.ResumeCanLoseTheFile | desktop-backend/src/p2p/attachments.rs:238-243 | from every state with a checked finalize and no chunk in hand: after a resume a second call removes what the first one published, and "completed" is reported without a file |
| FinalizeRace.LosingIsReachable | packages/rtc/src/file-receiver.ts:362-367 | such a run from the accepted state |
| FinalizeRace.SecondFinalizeExactlyWhen | packages/rtc/src/file-receiver.ts:362-367 | a step opens the way to two finalize calls at once, each of which waits until no chunk is in hand, if and only if it overwrites the state of a listed transfer while a finalize is in flight |
| FinalizeRace.PrematureCompletesFinalizeTwice | packages/rtc/src/file-receiver.ts:285-298 | two `file.complete` messages handled before the list is installed, with no chunk in hand, both finalize |
| FinalizeRace.LateByteIsPublished | packages/rtc/src/file-receiver.ts:298-310 | the converse: a byte written into a file that has passed the check can be published as "completed" |
| FinalizeRace.PrematureCanPublishOtherBytes | packages/rtc/src/file-receiver.ts:286-310 | when such a call found nothing missing and the list installed since names a chunk that is stored and not received, the chunk can come again and one call reports "completed" over a file that was written after its check |
| FinalizeRace.OvertakenIsReachable | packages/rtc/src/file-receiver.ts:140-159 | from every accepted transfer whose last missing chunk completes the file, a cancel and a resume lead to such a state |
| FinalizeRace.PrematureOutrunsTheList | packages/rtc/src/file-receiver.ts:286-310 | such a call counts the whole file while the list installed meanwhile stays as it is |
| Sender.SelectedIsExact | packages/rtc/src/file-transfer.ts:119-120 | exactly the requested indices below the count, once each, ascending |
| Sender.RunsAreBounded | packages/rtc/src/file-transfer.ts:228-245 | in every interleaving at most the configured number of runs, never two of one transfer |
| Sender.StepSendsLegally | packages/rtc/src/file-transfer.ts:247-303 | a chunk or `file.complete` is sent only for a transfer that is not cancelled, a chunk only while it is not paused, and a manifest only when a run starts |
| Sender.ErrorExactlyWhen | packages/rtc/src/file-transfer.ts:276-285 | `file.error` is sent if and only if a call in flight fails for good, cancelled or not |
| Sender.SentIsRecorded | packages/rtc/src/file-transfer.ts:294-296 | a chunk send that succeeds is recorded under the index that was sent |
| Sender.NothingAfterCancel | packages/rtc/src/file-transfer.ts:211-218 | after a cancel neither a chunk nor `file.complete` nor a manifest is ever sent for that transfer |
| Sender.CompleteMeansDelivered | packages/rtc/src/file-transfer.ts:254-275 | a run that sends `file.complete` has delivered each requested index exactly once, ascending |
| Sender.PumpIsMaximal | packages/rtc/src/file-transfer.ts:232-241 | the pump stops only when all slots are taken or nothing queued is eligible |
| Sender.UndisturbedRunCompletes | packages/rtc/src/file-transfer.ts:247-275 | a run that is left alone sends exactly the chunks of its plan, in order, and then `file.complete` |
| Sender.ServesRound | packages/rtc/src/file-transfer.ts:187-240 | an acceptance or need list is served to its end, and the sender is ready for the next one |
| SenderLaws.NothingWhilePaused | packages/rtc/src/file-transfer.ts:289-303 | from a pause to the next acceptance or resume no chunk of the transfer is sent, by whatever run |
| SenderLaws.PausedExactlyWhen | packages/rtc/src/file-transfer.ts:196-218 | a transfer is paused from the call until it is accepted, resumed or cancelled |
| SenderLaws.CancelledExactlyWhen | packages/rtc/src/file-transfer.ts:211-218 | a cancel is for good |
| SenderLaws.AwaitingExactlyWhen | packages/rtc/src/file-transfer.ts:187-275 | a transfer waits for verification from the end of its data until it is asked for more, confirmed, cancelled or broken off |
| SenderLaws.EndsExactlyWhen | packages/rtc/src/file-transfer.ts:247-287 | a run ends when its manifest fails, after its last message, or at its first look at the cancelled flag |
| SenderLaws.WaitsExactlyWhen | packages/rtc/src/file-transfer.ts:254-292 | a run waits only for the end of a pause |
| SenderLaws.SendingMeansSent | packages/rtc/src/file-transfer.ts:294-296 | a run is sending a chunk exactly from the moment the chunk goes out |
| SenderLaws.RetriesUntilTheLimit | packages/rtc/src/file-transfer.ts:289-303 | a chunk that could not be sent is counted and, below the limit, sent again after a new look at pause and cancel |
| SenderLaws.QueuedExactlyWhen | packages/rtc/src/file-transfer.ts:168-181 | only an offer adds a transfer, at the end and with nothing set; the queue loses one only by a cancel, a confirmation or the end of a cancelled run |
| SenderLaws.SlotsAreUsed | packages/rtc/src/file-transfer.ts:228-245 | after every call and every end of a run no slot is free beside a transfer that could start |
| SenderLaws.SlotIsFreed | packages/rtc/src/file-transfer.ts:236-240 | a slot is given back exactly when its run ends |
| SenderLaws.StartedRunsSendManifests | packages/rtc/src/file-transfer.ts:247-249 | every run that starts begins by sending its manifest |
| Sender.IterateAttachmentChunks | packages/rtc/src/file-transfer.ts:114-135 | yields the frames of the requested indices, each with its offset and its slice of the source |
| Sender.TransferSender.FindEligible | packages/rtc/src/file-transfer.ts:233-233 | the first queue position that is eligible |
| Sender.TransferSender.PumpQueue | packages/rtc/src/file-transfer.ts:228-245 | the loop computes the function that RunsAreBounded and PumpIsMaximal are about |
| Sender.TransferSender.RemoveTransfer | packages/rtc/src/file-transfer.ts:321-324 | removes the first occurrence only |
| Sender.TransferSender.StartOffer | packages/rtc/src/file-transfer.ts:168-181 | the transfer is queued at the end, neither paused nor cancelled |
| Sender.TransferSender.Accept | packages/rtc/src/file-transfer.ts:187-194 | the need list is replaced and the queue pumped; unknown transfers are reported |
| Sender.TransferSender.Resume | packages/rtc/src/file-transfer.ts:202-209 | the need list is kept unless a new one is given, and the queue is pumped |
| Sender.TransferSender.CancelRun | packages/rtc/src/file-transfer.ts:211-218 | cancelled for good, and dequeued unless a run is active |
| Sender.TransferSender.Finish | packages/rtc/src/file-transfer.ts:236-240 | the end of a run frees its slot and pumps again |
| TransferProtocol.HonestTransferCompletes | packages/rtc/src/file-receiver.ts:280-310 | with frames of the source, lost, repeated or interleaved in any way, and whatever the control messages were, every call that has read its file finds the source bytes and passes the check; while finalize calls stay apart, what they publish and what a completed transfer has is the source |
| TransferProtocol.CompletedIsSource | packages/rtc/src/file-receiver.ts:280-310 | whatever the frames were, a transfer that is completed as in CompletedHasIntegrity is the source if no other bytes share its hash |
| TransferProtocol.GetMissingChunks | packages/rtc/src/file-receiver.ts:350-360 | exactly the indices that are neither received nor stored, ascending |
| TransferProtocol.RoundEffect | packages/rtc/src/file-receiver.ts:280-293 | a round of the joint system, in which the sender makes its own steps and the receiver handles what it sends, removes what was asked for and starts verification when nothing is left |
| TransferProtocol.NeedSize | packages/rtc/src/file-receiver.ts:342-348 | a need list is the least 2048 missing indices |
| TransferProtocol.RepairRoundsEnd | packages/rtc/src/file-receiver.ts:280-293 | after k rounds exactly the larger indices remain, and verification is reached in round max(1, ceil(m / 2048)) and not before, also for m = 0 |
| TransferProtocol.FullRoundEnds | packages/rtc/src/file-receiver.ts:160-161 | after `file.accept` one round is enough, also for an empty file |
| TransferProtocol.StuckNeverFinalizes | packages/rtc/src/file-receiver.ts:95-95 | an index that is missing and received keeps every continuation from finalizing |
| TransferProtocol.CanFinishExactlyWhen | packages/rtc/src/file-receiver.ts:154-167 | verification can be reached if and only if no listed index was received already |
| TransferProtocol.ListingRaceStrands | packages/rtc/src/file-receiver.ts:154-167 | after every undisturbed run of `accept` with nothing in hand, the transfer can finish if and only if no listed chunk was stored since the list was read |
| TransferProtocol.ListingRaceHappens | packages/rtc/src/file-receiver.ts:157-159 | for every chunk that is not stored, a run from the accepted state after which no continuation finalizes |
| TransferProtocol.StoreFrame | packages/rtc/src/file-receiver.ts:140-151 | receiver and directory stay in step through a write |
| TransferProtocol.FinalizeInBackend | desktop-backend/src/p2p/attachments.rs:192-256 | with the real directory and SHA-256 behind `sink.finalize`, it succeeds if and only if the payload is what the manifest says, and publishes exactly it |
| CursorOrder.BeforeIsTotalOrder | apps/web/src/chat/HistoryService.ts:199-209 | the cursor order is a strict total order |
| CursorOrder.AdvanceLowersHeight | apps/web/src/chat/HistoryService.ts:199-209 | every advance of a bounded cursor lowers a natural number |
| History.PageIsNewest | desktop-backend/src/p2p.rs:607-634 | a page holds rows below the cursor, and a row it leaves out is older than all of a full page |
| History.ServedStreamCovers | apps/web/src/chat/HistoryService.ts:65-124 | after a reply each due row is held or still below the next cursor |
| History.ServedCursorAdvances | apps/web/src/chat/HistoryService.ts:115-122 | an honest reply's cursor always advances |
| History.AcceptedCompleteLowersMeasure | apps/web/src/chat/HistoryService.ts:139-177 | a reply that leads to a new request lowers the measure, whoever sent it |
| History.RequestsAreFinite | apps/web/src/chat/HistoryService.ts:139-177 | no chain of replies makes the requester ask for ever; the measure bounds its length |
| History.HistoryIsComplete | apps/web/src/chat/HistoryService.ts:45-177 | the exchange ends with the requester holding every signed, verifying message and event the responder held throughout, whatever was known or added |
| History.HistoryIsVouched | apps/web/src/chat/HistoryService.ts:126-137 | and nothing else: what is held at the end was held before or is a signed row of the responder that verifies, for messages and events |
| History.SendInChunks | apps/web/src/chat/HistoryService.ts:86-108 | the chunks, in order, hold the rows and nothing else, none empty or too large |
| History.AcceptChunk | apps/web/src/chat/HistoryService.ts:127-137 | the requester keeps exactly the rows that verify |
| History.HistoryService.BeginRequest | apps/web/src/chat/HistoryService.ts:45-46 | a request goes on only when none is pending for the peer |
| History.HistoryService.IssueFirst | apps/web/src/chat/HistoryService.ts:47-63 | after the await the first request replaces whatever is pending by then, and is dropped if it cannot be sent |
| History.HistoryService.CompleteArrived | apps/web/src/chat/HistoryService.ts:139-177 | other request ids change nothing; otherwise the pending request is replaced by the next one, with a smaller measure, or dropped |
| History.HistoryService.ForgetPeer | apps/web/src/chat/HistoryService.ts:43-43 | only that peer's request is dropped |
| Projection.ProjectIsLastWriter | apps/web/src/chat/MessageService.ts:248-284 | projection computes last-writer-wins registers, whatever the order of the event list, and keeps the signed part |
| Projection.LaterEventsCompose | apps/web/src/chat/MessageService.ts:248-284 | projecting A and then B is projecting both when what B lacks is older than B |
| Projection.SupersetAbsorbs | apps/web/src/chat/MessageService.ts:248-284 | projecting again with a larger list is the full replay |
| Projection.OrderIsIrrelevant | apps/web/src/chat/MessageService.ts:261-261 | only the set of events matters |
| Projection.MissedEventIsHarmlessExactlyWhen | apps/web/src/chat/MessageService.ts:261-279 | leaving one event out is invisible if and only if it does not apply, is overwritten later, or writes what is there |
| Projection.PartialIsFullExactlyWhen | apps/web/src/chat/MessageService.ts:248-284 | projecting some of the events gives the full replay if and only if every register reads what the last write among all of them put there |
| Projection.CompleteListReplays | apps/web/src/chat/MessageService.ts:248-284 | a stored projection, projected again with a list that is complete for its message, is the full replay |
| Projection.AnyTwoCompose | apps/web/src/chat/MessageService.ts:248-284 | two projections in any order are the projection of some of their events |
| Projection.DeletedMeans | apps/web/src/chat/MessageService.ts:261-268 | a message is deleted by its author and by nobody else, at the time of the latest such event |
| Projection.EditedMeans | apps/web/src/chat/MessageService.ts:261-267 | the edit shown is the latest of the author's, and nobody else's |
| Projection.ReplyMeans | apps/web/src/chat/MessageService.ts:261-266 | so is the reply |
| Projection.PinnedMeans | apps/web/src/chat/MessageService.ts:269-270 | anybody pins and unpins, and the latest of both decides |
| Projection.ReactionMeans | apps/web/src/chat/MessageService.ts:271-277 | everybody has one vote per emoji, decided by their own latest event, and changes only that one |
| Projection.ClipMeans | apps/web/src/chat/MessageService.ts:264-264 | the time shown is the event's, cut to a whole millisecond |
| Projection.ProjectMessage | apps/web/src/chat/MessageService.ts:248-284 | filter, sort and loop compute that projection |
| MessageStore.PersistEventKeepsExact | apps/web/src/chat/MessageService.ts:175-197 | persisting an event leaves every stored and cached message a full replay |
| MessageStore.PersistKeepsExact | apps/web/src/chat/MessageService.ts:199-218 | so does persisting a message |
| MessageStore.IncrementalIsReplay | apps/web/src/chat/MessageService.ts:175-218 | after every sequence of operations, stored and cached messages equal the full replay of all saved events |
| MessageStore.NothingIsForgotten | apps/web/src/chat/MessageService.ts:175-218 | every message that was persisted is stored and every event's id is known |
| MessageStore.StoredExactlyWhen | apps/web/src/chat/MessageService.ts:199-218 | a message is stored from the moment it is persisted, and nothing else adds one |
| MessageStore.CachedExactlyWhen | apps/web/src/chat/MessageService.ts:60-84 | what was asked for is cached until the session is reset |
| MessageStore.EventsExactly | apps/web/src/chat/MessageService.ts:175-180 | the table of events grows by new ones only; the list is read once in a session and follows it |
| MessageStore.SignedColumnsStay | apps/web/src/chat/MessageService.ts:199-218 | a row keeps its signed columns whatever is saved over it |
| MessageRaces.InterleavedIsPartial | apps/web/src/chat/MessageService.ts:175-245 | at every interleaving of awaits a message is its original with a subset of the saved events, never anything else |
| MessageRaces.ExactUnlessMissed | apps/web/src/chat/MessageService.ts:175-245 | in every interleaving without a missing step, a message with nothing in flight is the full replay of all saved events, in the store and in the cache |
| MessageRaces.LoadsExactlyWhen | apps/web/src/chat/MessageService.ts:232-236 | the table is read only while there is no list, and a load holds what it read until it ends |
| MessageRaces.PersistStores | apps/web/src/chat/MessageService.ts:199-218 | a message that is persisted alone is stored and cached with the listed events projected over what was found of it |
| MessageRaces.LateEventIsLost | apps/web/src/chat/MessageService.ts:199-218 | from every sound state with an exact projection waiting to be saved or cached: an event saved now can be overtaken, and then the cache, and the store if it was still to be saved, are wrong if and only if the event applies, is not overwritten and changes its register |
| MessageRaces.EarlyProjectionIsLost | apps/web/src/chat/MessageService.ts:175-180 | from every sound state with an event that is saved and not listed: projecting its message now can miss it, and store and cache are wrong if and only if a register lacks its last write |
| MessageRaces.ResetSpoilsExactlyWhen | apps/web/src/chat/MessageService.ts:60-67 | a reset leaves the event list incomplete, now or when loads end, if and only if a load in flight has read the table without an event that is listed by now |
| MessageRaces.StaleLoadIsReachable | apps/web/src/chat/MessageService.ts:232-245 | two loads at once lead to such a load |
| MessageRaces.ResetForgetsAnEvent | apps/web/src/chat/MessageService.ts:232-245 | from every sound state with such a load: after a reset the list lacks the event for good, what is projected with it is wrong if and only if a register lacks its last write, and `history` does not heal it |
| MessageRaces.OlderEventWins | apps/web/src/chat/MessageService.ts:261-279 | an older event for the same register then takes the place of the one that was forgotten |
| MessageRaces.HistoryHeals | apps/web/src/chat/MessageService.ts:43-53 | whatever happened before, reading through `history` with a complete list restores the full replay |
| MessageStore.MessageService.LoadProjectionEvents | apps/web/src/chat/MessageService.ts:232-245 | the list returned is the cached or the stored one, with unique ids |
| MessageStore.MessageService.PersistEventNow | apps/web/src/chat/MessageService.ts:175-197 | the stored target is the full replay afterwards and the service stays exact |
| MessageStore.MessageService.PersistMessage | apps/web/src/chat/MessageService.ts:199-218 | returns the full replay of the original and the service stays exact |
| MessageStore.MessageService.FindMessage | apps/web/src/chat/MessageService.ts:75-84 | returns the full replay of a stored message, cached or not |
| SignedWire.SignedContentSurvives | apps/web/src/chat/MessageProtocol.ts:408-434 | stored, projected any number of times and served again, a message is the one that arrived if and only if its timestamp is whole |
| SignedWire.FractionIsLost | apps/web/src/chat/MessageProtocol.ts:408-434 | a message that does not survive |
| Handshake.OpenPeersAreTrusted | apps/web/src/chat/SyncService.ts:86-162 | in every reachable state open peers have a channel, are trusted, not revoked, not the local peer, and proved a nonce drawn after their channel opened |
| Handshake.ValidProofOpens | apps/web/src/chat/SyncService.ts:142-162 | a valid proof of a pending challenge opens a trusted peer and marks a revoked one as revocation-only |
| Handshake.StaleProofIsIgnored | apps/web/src/chat/SyncService.ts:148-150 | a proof check that resumes after its peer was forgotten, revoked or dropped opens nobody; it changes nothing if and only if the peer was not already revocation-only with that challenge pending |
| Handshake.InvalidProofFails | apps/web/src/chat/SyncService.ts:149-155 | an invalid proof opens nobody: it fails the peer whose challenge it was meant to answer, or changes nothing |
| Handshake.FailedIsNotAsked | apps/web/src/chat/SyncService.ts:86-112 | after it the peer is neither asked again nor opened until its failure is forgotten |
| Handshake.OpenPeersProved | apps/web/src/chat/SyncService.ts:142-162 | in every run, each open peer got there by a valid check of a proof that had arrived with the nonce it counts as having proved |
| Handshake.OpensOnlyWhen | apps/web/src/chat/SyncService.ts:149-161 | a step opens a peer only if it is the valid check of a proof of its pending nonce |
| Handshake.ConnectedExactlyWhen | apps/web/src/chat/ChatController.ts:180-186 | a peer has a channel from its opening until the peer is forgotten |
| Handshake.ListsExactly | apps/web/src/chat/ChatController.ts:742-753 | the lists of members and revoked peers come from the session, and the trusted table also from profile updates |
| Handshake.ChecksExactlyWhen | apps/web/src/chat/SyncService.ts:142-149 | a check runs from the arrival of its proof to its own end |
| Handshake.OpenExactlyWhen | apps/web/src/chat/ChatController.ts:485-527 | the exact steps that open a peer and that close it |
| Handshake.RevocationOnlyExactlyWhen | apps/web/src/chat/ChatController.ts:507-527 | the exact steps that keep a peer for its certificate only |
| Handshake.PendingExactlyWhen | apps/web/src/chat/SyncService.ts:86-112 | the exact steps that ask for a proof and that stop asking |
| Handshake.NonceIsFresh | apps/web/src/chat/SyncService.ts:99-99 | a challenge keeps its nonce, and each is drawn once |
| Handshake.FailedExactlyWhen | apps/web/src/chat/SyncService.ts:49-67 | the exact steps that fail a peer and that forget its failure |
| Handshake.StaysApartExactlyWhen | apps/web/src/chat/ChatController.ts:507-527 | open and revocation-only peers stay disjoint if and only if no readmitted revocation-only peer completes a proof |
| Handshake.TrustedIsMembersExactlyWhen | apps/web/src/chat/GroupChatService.ts:122-130 | the trusted table stays the installed list if and only if no profile check of a former member completes |
| Handshake.ReadmittedPeerIsOpenAndRevocationOnly | apps/web/src/chat/ChatController.ts:516-527 | a run that makes a peer both |
| Handshake.DroppedPeerIsTrustedAgain | apps/web/src/chat/GroupChatService.ts:122-130 | a run that trusts a dropped member again |
| Handshake.ChatPeers.BeginHandshake | apps/web/src/chat/SyncService.ts:86-112 | a challenge is pending exactly as the protocol says, with a reused or fresh nonce |
| Handshake.ChatPeers.ForgetPeerConnection | apps/web/src/chat/ChatController.ts:485-495 | the peer leaves every set |
| Handshake.ChatPeers.MarkRevokedPeerReady | apps/web/src/chat/ChatController.ts:507-514 | once per channel the peer loses its handshake and its open state and is kept for its certificate |
| Handshake.ChatPeers.MarkPeerReady | apps/web/src/chat/ChatController.ts:516-527 | a connected peer that is not open becomes open, or revocation-only if revoked |
| Handshake.ChatPeers.OnDataOpen | apps/web/src/chat/ChatController.ts:180-186 | the channel is recorded, an earlier failure is forgotten and a challenge is begun where allowed |
| Handshake.ChatPeers.AcceptProof | apps/web/src/chat/SyncService.ts:149-161 | acts only on the session and nonce the check was started for; then fails, opens or marks the peer |
| Handshake.ChatPeers.InstallGroupPeers | apps/web/src/chat/ChatController.ts:742-753 | the two loops over connected peers amount to one set operation |
| MeshTables.FinishMeans | packages/rtc/src/transport/mesh.ts:224-226 | a replacement is on course if and only if finishing it now would leave senders and published tracks in agreement |
| MeshTables.RollBackMeans | packages/rtc/src/transport/mesh.ts:219-222 | it can be rolled back if and only if doing so now would leave them in agreement |
| MeshTables.BeginsExactlyWhen | packages/rtc/src/transport/mesh.ts:206-213 | a replacement begins able to roll back, and on course if and only if the new track is not published yet (or nobody receives it) |
| MeshTables.FinishSpoiledExactlyWhen | packages/rtc/src/transport/mesh.ts:213-226 | between the awaits each event keeps it on course if and only if it is not one of the listed ones: joining or authorising with other tracks, revoking a listed sender, publishing or unpublishing the two tracks, recreating |
| MeshTables.RollBackSpoiledExactlyWhen | packages/rtc/src/transport/mesh.ts:213-222 | between the awaits each event keeps it able to roll back if and only if it is not one of the listed ones |
| MeshTables.EndsExactlyWhen | packages/rtc/src/transport/mesh.ts:219-228 | a replacement ends in agreement if and only if it was on course, or could be rolled back |
| MeshTables.AgreesExactlyWhen | packages/rtc/src/transport/mesh.ts:107-197 | outside a replacement every event keeps the agreement, except revoking where no authorisation is required |
| MeshTables.TablesAgree | packages/rtc/src/transport/mesh.ts:107-228 | after every sequence of clean events, replacements cut at their awaits included, each live peer's senders are the published tracks if authorised, else nothing; listed streams of others are off; the limit holds |
| MeshTables.RevokedPeerGetsTheTrack | packages/rtc/src/transport/mesh.ts:213-217 | a peer that is revoked while its sender is listed ends up unauthorised with the new track on its sender |
| MeshTables.RevokedPeerGetsItBack | packages/rtc/src/transport/mesh.ts:219-222 | a peer that is revoked after its swap ends up unauthorised with the old track on its sender when the replacement fails |
| MeshLaws.EarlyStreamIsDelivered | packages/rtc/src/transport/mesh.ts:112-130 | a stream that arrives before its peer is authorised is kept back, off and undelivered whatever happens to others meanwhile, and the authorisation delivers it and switches it on |
| MeshLaws.DeliveredExactlyWhen | packages/rtc/src/transport/mesh.ts:407-422 | what is handed over is what waited for its authorisation and what comes from an authorised peer; a stream that becomes active is handed over |
| MeshLaws.LiveExactlyWhen | packages/rtc/src/transport/mesh.ts:384-393 | a peer is live from a connection below the limit until it is disconnected; recreating keeps it |
| MeshLaws.AuthorizedExactlyWhen | packages/rtc/src/transport/mesh.ts:107-144 | a peer is authorised until it is revoked or closed |
| MeshLaws.PublishedExactlyWhen | packages/rtc/src/transport/mesh.ts:163-228 | a track is published until it is taken back or replaced, and the new one is from then on |
| MeshLaws.PendingExactlyWhen | packages/rtc/src/transport/mesh.ts:407-422 | a stream of an unauthorised peer waits until the peer is authorised, revoked or closed |
| MeshLaws.ActiveExactlyWhen | packages/rtc/src/transport/mesh.ts:407-422 | a stream is active from its delivery until its peer is closed |
| MeshLaws.EnabledExactlyWhen | packages/rtc/src/transport/mesh.ts:112-144 | the exact events that switch a stream on and off |
| MeshLaws.ReplacingExactly | packages/rtc/src/transport/mesh.ts:206-228 | a replacement is in flight from its call to its failure or last swap, and lost when a connection is closed before its turn |
| MeshLaws.FinishesOnlyWhole | packages/rtc/src/transport/mesh.ts:213-226 | it cannot finish while a sender is left to swap, or once it is lost |
| MeshLaws.SwapsOne | packages/rtc/src/transport/mesh.ts:214-218 | a swap puts the new track on one listed sender and touches nothing else |
| MeshTables.StepKeepsStreams | packages/rtc/src/transport/mesh.ts:407-422 | tables list live peers only, and streams of unauthorised peers are off |
| MeshTables.StepKeepsLimit | packages/rtc/src/transport/mesh.ts:384-392 | the number of peers never exceeds the limit |
| MeshTables.DeliversOnlyAuthorised | packages/rtc/src/transport/mesh.ts:407-422 | a delivered stream comes from an authorised peer and is on, unless it had arrived before and was switched off |
| MeshTables.HeardExactlyWhen | packages/rtc/src/transport/mesh.ts:112-144 | active streams of authorised peers stay on, exactly until a revoked peer with active streams is authorised again, a stream that was switched off arrives again, or a peer is revoked where nothing is required |
| MeshTables.PlaysListedExactlyWhen | packages/rtc/src/transport/mesh.ts:321-348 | only listed streams of authorised peers are on, exactly until a peer with a playing stream is disconnected |
| MeshTables.AddToAll | packages/rtc/src/transport/mesh.ts:166-172 | the loop adds the track to every receiver that lacks it and to nobody else |
| MeshTables.RemoveFromAll | packages/rtc/src/transport/mesh.ts:188-194 | the loop removes one sender of the track from every peer |
| MeshTables.ListSenders | packages/rtc/src/transport/mesh.ts:210-212 | exactly one sender of the old track is listed per peer that has one |
| MeshTables.AddTracks | packages/rtc/src/transport/mesh.ts:124-126 | exactly the tracks without a sender are added |
| MeshTables.MeshTransport.ConnectPeer | packages/rtc/src/transport/mesh.ts:384-393 | a new peer starts with the published tracks if authorised, else none; refused when full |
| MeshTables.MeshTransport.PublishLocal | packages/rtc/src/transport/mesh.ts:163-175 | one step of the runs TablesAgree covers, computed by the loop over all peers |
| MeshTables.MeshTransport.UnpublishLocal | packages/rtc/src/transport/mesh.ts:185-197 | one step of the runs TablesAgree covers, computed by the loop over all peers |
| MeshTables.MeshTransport.AuthorizeMedia | packages/rtc/src/transport/mesh.ts:112-130 | waiting streams become active and on, and the peer gets the tracks it lacks |
| MeshTables.MeshTransport.RevokeMedia | packages/rtc/src/transport/mesh.ts:132-144 | all streams of the peer go off, waiting ones are dropped and its senders are emptied |
| MeshTables.MeshTransport.StartReplacement | packages/rtc/src/transport/mesh.ts:206-213 | refused unless the old track is published; otherwise the first step of the runs TablesAgree covers |
| MeshTables.MeshTransport.SenderSwapped | packages/rtc/src/transport/mesh.ts:214-218 | one awaited swap, whatever happened to the sender meanwhile |
| MeshTables.MeshTransport.FinishReplacement | packages/rtc/src/transport/mesh.ts:224-226 | the published track is exchanged after the last swap |
| Quota.ManifestFitsReservation | desktop-backend/src/p2p/attachments.rs:392-414 | the JSON text of every valid manifest is shorter than the 64 KiB reserved for it |
| ManifestText.ManifestBytesRead | desktop-backend/src/p2p/attachments.rs:30-42 | the UTF-8 JSON text of every manifest reads back as that manifest, whatever characters it holds |
| ManifestText.Utf8Reads | desktop-backend/src/p2p/attachments.rs:30-42 | UTF-8 text reads back |
| ManifestText.Utf8IsShortest | desktop-backend/src/p2p/attachments.rs:30-42 | no character takes more bytes than it needs |
| ManifestText.EscapesAre | desktop-backend/src/p2p/attachments.rs:30-42 | the characters that are escaped, spelled out |
| ManifestText.ValidManifestMeans | desktop-backend/src/p2p/attachments.rs:392-436 | what makes a manifest valid, in plain numbers and character sets |
| ManifestText.SmallLetterMeans | desktop-backend/src/p2p/attachments.rs:403-405 | what ignoring the case of ASCII letters means |
| ManifestText.ChunkCountMeans | desktop-backend/src/p2p/attachments.rs:401-401 | the announced number of chunks is the least that holds the file |
| ManifestText.ValidManifestIsShort | desktop-backend/src/p2p/attachments.rs:392-414 | the bytes of a valid manifest are fewer than 5000 |
| Quota.FinalizeLowersUsage | desktop-backend/src/p2p/attachments.rs:238-254 | replacing a reservation by content and manifest never raises the usage |
| Quota.AdmitsExactlyWhen | desktop-backend/src/p2p/attachments.rs:81-93 | a new transfer is admitted if and only if usage and reservation together fit the quota |
| Quota.QuotaIsKept | desktop-backend/src/p2p/attachments.rs:73-100 | content plus reservations, as the saturating 64-bit sums measure them, stay within the quota in every interleaving without a straddling finalize and with every directory removed |
| Quota.PreparesExactlyWhen | desktop-backend/src/p2p/attachments.rs:64-100 | one `prepare` at a time, for a valid manifest and a transfer that is not there yet; its three steps follow each other |
| Quota.OpenExactlyWhen | desktop-backend/src/p2p/attachments.rs:95-100 | a transfer is there from its admission until it is discarded, purged or finalized with its directory removed |
| Quota.PublishedExactlyWhen | desktop-backend/src/p2p/attachments.rs:238-254 | content is there from an accepted finalize until it is discarded |
| Quota.DiscardFrees | desktop-backend/src/p2p/attachments.rs:258-274 | discarding gives the whole reservation or the bytes of the content back |
| Quota.UncleanFinalizeGrows | desktop-backend/src/p2p/attachments.rs:254-254 | without the cleanup the usage grows by all that the published content adds, also when it replaces content |
| Quota.StraddlingKeepsQuotaExactlyWhen | desktop-backend/src/p2p/attachments.rs:510-537 | after a finalize between the two measurements the admission keeps the quota if and only if it is refused or there was room for what the hidden file adds as well |
| Quota.QuotaCanBeExceeded | desktop-backend/src/p2p/attachments.rs:81-93 | a run from the empty store that ends above the quota |
| FrameCodec.DecodeAcceptsExactly | packages/rtc/src/file-chunk-codec.ts:40-67 | decoding gives a frame if and only if the buffer is header, metadata and payload of a valid frame and nothing else; the flag byte is free |
| FrameCodec.RoundTrip | packages/rtc/src/file-chunk-codec.ts:11-67 | every frame that can be encoded reads back unchanged |
| FrameCodec.FramesFit | packages/rtc/src/data/messages.ts:5-5 | encoded and accepted frames have the announced length and fit the 320 KiB limit |
| FrameCodec.EncodesExactlyWhen | packages/rtc/src/file-chunk-codec.ts:11-24 | which frames can be encoded, in plain numbers |
| FrameCodec.FrameBegins | packages/rtc/src/file-chunk-codec.ts:25-32 | every frame begins with "RISK", version 1, flag 0 and the header length |
| FrameCodec.HexMeans | packages/rtc/src/file-chunk-codec.ts:80-80 | the hexadecimal digits, spelled out |
| FrameCodec.EncodeFrame | packages/rtc/src/file-chunk-codec.ts:11-38 | the buffer filled through the view is the encoded frame |
| Ipv6.NormalizesExactly | packages/rtc/src/connection-path.ts:75-88 | accepts exactly forms 1 and 2 of section 2.2 of RFC 4291 and spells the eight groups they denote |
| Ipv6.NormalFormIsFixed | packages/rtc/src/connection-path.ts:75-88 | the output is a fixed point |
| Ipv6.AlikeExactlyWhen | packages/rtc/src/connection-path.ts:75-106 | two accepted texts normalise alike if and only if they denote the same groups |
| Ipv6.ZoneIsIgnored | packages/rtc/src/connection-path.ts:76-77 | what follows a percent sign does not matter |
| Ipv6.CaseIsIgnored | packages/rtc/src/connection-path.ts:77-77 | nor does the case of letters |

## Assumptions

- Signature checks are the parameters `valid` and `verifies`; the JSON of chunk metadata with its UTF-8 is an inverse pair (`FrameCodec.Json`); SHA-256 in
  the receiver is a parameter, which `FinalizeInBackend` takes to be the function of `Sha256Spec.dfy`.
- Random ids and nonces are new: requests, runs and nonces are numbered, and event ids are unique.
- Signalling and history channels are reliable and ordered; transfer frames may be lost, repeated and reordered. The rounds of
  `RoundEffect` and `RepairRoundsEnd` are over a reliable channel.
- What was handed to the operating system survives a stop of the process; legacy part files hold the slice of their index. A file
  keeps its bytes while somebody has it open, and removing and renaming go by name.
- `FinalizeIsAlone` and `SecondFinalizeExactlyWhen` speak of runs in which pause, resume and the end of `accept` do not overwrite the
  state of a transfer that is being verified, is completed or cancelled, or has failed after its payload was moved, and in which no
  `file.complete` is handled before the list is installed. `BytesFollowTheList` needs only the latter (`PrematureOutrunsTheList` shows
  why) and that `complete` does not go on while a chunk waits for `hasChunk`, as `waitForInFlightWrites` guarantees.
- The metadata of a chunk frame has the types its validator is written for; `validateFrame` looks only at the truth value and the
  length of `transferId` and `attachmentId`, so that a number or a short array would pass as well.
- A newly added track takes a new sender, and one `replacePublishedTrack` is in flight at a time.
- Stored timestamps are at most 64 characters and event timestamps are safe integers, as the wire validators demand of cursors.
- String order in the database and in JavaScript agrees, because ids and timestamps are ASCII.

## Left out

- ChunkStore.CrashSafety: the rename comes only when no other handler is in flight, as `FinalizeIsSafe` has it for writes; that an open file keeps its bytes when it is renamed is part of `Receiver.dfy`.
- Quota.StraddlingKeepsQuotaExactlyWhen: each of the two tables is measured at one moment, while the code walks its directory.
- MeshTables.RevokedPeerGetsTheTrack: the direction of a transceiver is not modelled, so it is shown that the sender carries the track, not that it is sent.
- MeshTables.RevokedPeerGetsItBack: the same.
- Negotiation.NeedIsServed: one order of steps on a quiet link; `NeedsAreServed` is the statement over every interleaving.
- Peer recreation and m-line recovery inside the negotiation: they depend on browser behaviour; the tables cover recreation.
- An incoming transfer before `accept` sets its state: offers, rejection and the limit on incoming transfers; and an `accept` whose list cannot be read, which leaves the transfer accepted without a list.
- `AsyncSemaphore`: chunk operations interleave without a bound, which covers every bound; nor does a `complete` in the model wait for writes, which covers every wait.
- Two track replacements at once, a rollback that itself fails or is interrupted, and `replaceTrack(kind, track)`, which the media manager does not use.
- Transfer directories without a readable manifest and stray files in the quota; `cleanup_stale_transfers` only removes directories.
- `normalizeIpAddress` around `normalizeIpv6`: brackets and the IPv4 forms are plain pattern matches.
- Lower-casing beyond ASCII letters: no other character becomes a hexadecimal digit.
- Group manifest merging, certificates, ECDSA, HTTP, SQL and session plumbing, media capture, statistics, user interface and desktop shell.
- Sessions without an identity, in which every channel that opens is ready at once.
