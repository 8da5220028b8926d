# Clipse, verified

A Dafny model of the hard core of Clipse, a serverless clipboard-sync daemon, and proofs about it.
`dafny verify dfyconfig.toml` checks everything.

The project follows the program's layers.

| files | what they model |
|---|---|
| `bytes.dfy`, `sorting.dfy` | machine integers as bytes, lexicographic order, stable sort and filter |
| `hlc.dfy` | the hybrid logical clock: one clock object, every run of one clock, any number of clocks |
| `hash.dfy` | content identity and the length-prefixed encoding it shares with pairing |
| `clip_tables.dfy`, `search.dfy`, `tombstones.dfy`, `blob_tables.dfy`, `store.dfy`, `paging.dfy` | the history tables with their text index, what a search finds, which tombstones go, the LRU blob cache, the store object over both, the sync cursor |
| `session_machine.dfy` | one endpoint of a sync session: the blocking program as a machine between its sends and receives |
| `session_turns.dfy`, `session_stores.dfy` | the two endpoints in lock step, phase by phase |
| `session_runs.dfy` | every interleaving of the two endpoints over bounded FIFO streams, between stores at rest |
| `session_shape.dfy`, `session_live.dfy`, `session_knowledge.dfy`, `session_live_theorems.dfy`, `session_story.dfy` | every interleaving over stores in use: users copy, pin, delete and purge, other sessions write, blobs come and go between any two steps |
| `histories.dfy`, `convergence.dfy`, `session_theorems.dfy`, `session_changes.dfy`, `session_blobs.dfy`, `gossip.dfy` | what a session does to the rows of one content and leaves in the two stores, which local changes it carries over, which blobs it asks for, and what any number of devices come to know |
| `session_peer.dfy` | one endpoint against any peer: what it says, what it accepts, what its store keeps |
| `session_races.dfy` | one merge with the store changing between its lookup and its writes |
| `session_store_object.dfy` | the taking side's loops on the store object |
| `noise_link.dfy`, `framing.dfy`, `session_link.dfy` | sealing and rekey accounting, segmentation and reassembly, and a sync session on top of them |
| `chunk.dfy`, `loop_guard.dfy`, `candidate.dfy` | chunked transfer, the echo memory, the dial list |
| `pairing.dfy`, `pairing_state.dfy` | the pairing ceremony and the daemon's pairing slot |
| `crc.dfy` | table-driven CRC-32 and PNG chunks |

Objects the program updates in place are classes (`HlcClock`, `Store`, `Session`, `Decoder`,
`ChunkReceiver`, `LoopGuard`, `CandidateList`, `PairingState`); each method's postcondition ties the new
state to a function of the old one, and the theorems are about those functions, over whole runs.
`run_session` blocks on its peer, so it is a machine whose state is the point it has reached.

## How the code is read

- Hashes are symbolic: a digest is the term that was hashed. That makes BLAKE3 injective, which is what
  the code relies on. Ciphers are symbolic too: a sealed frame names its key, nonce and plaintext.
- Clock readings, random nonces and codes, and the order in which a hash map is walked are arbitrary.
- A payload format is identified by its label, so `Other("text/plain")` is the text format. A row carries
  its payload rows, in label order, which is the only order the store reads them back in.
- Ties in an SQL lookup go to the earliest row.
- The session is modelled with its stores shared: between any two steps of an endpoint its store may change.
  Within one step of an endpoint (a message sent or read, with the store calls that go with it) it may not.
- Clip ids are unique to their content (`Owner`), as random ids are; ids of clips copied during a session too.
- Integers are unbounded where the source cannot overflow or saturates out of reach (row sizes, use
  numbers, nonces); the HLC counter, wall times, length fields, the 32-bit chunk count and the CRC
  registers have their machine width.

## Where the code and its documentation differ

The model follows the code.

- `now` is documented as strictly increasing. It is, unless the 32-bit counter is full and the wall part
  does not move: `HybridClock.ClockRunIsMonotoneAndBounded` has both directions.
- `observe` is documented to land after the remote stamp. `HybridClock.ObserveOrdersAfterRemote` says
  exactly when. No session calls `observe`, so causal order is a theorem about clocks only.
- A newer live clip does not revive an older tombstone: the tombstone takes the live clip's stamp and stays
  deleted (`Convergence.TombstoneStays`). That is one of four ways two stores fail to converge. Equal stamps
  with different flags are another. The third: the store accepts a clip whose hash was taken over its payloads
  in another order than that of their labels, reads it back in label order, and from then on it does not hash
  to its payloads, so every peer refuses it in every session (`Convergence.ReorderedClipIsUnsound`,
  `Convergence.ReorderedClipNeverConverges`). Only `Clip::new` sorts; histories made by it have no such clip
  (`Convergence.CanonicalRunsAreSound`). The fourth: a clip deleted and copied again is two rows; when the live
  one is deleted, the older tombstone answers, under its old stamp (`Convergence.OldTombstoneAnswers`).
  `Convergence.SessionConvergesIff` has the exact condition.
- `delete` is documented to stamp its row anew so that the deletion replicates. Where the clip had been deleted and
  copied again before, that row no longer answers, and a peer that holds the clip alive keeps it, in this session
  and the next (`LocalChanges.DeletionReachesPeerIff`, `LocalChanges.SecondDeletionIsLost`).
- Copying a clip again never brings it back on a peer that deleted it (`LocalChanges.CopyReachesPeerIff`).
- A comment says that a rejected blob is asked for again by the next session. It is not: a session asks for the
  blobs of the clips it takes over, and the clip is not taken over again (`BlobRequests.BlobIsAskedForIff`,
  `BlobRequests.EvictedBlobIsLost`).
- `newest_received` is documented to exclude tombstones. A tombstone of unknown content is inserted and can
  be the newest, and is exactly when it has the latest stamp of what was new (`SessionTheorems.TombstoneIsReportedIff`).
- A wanted clip that is purged between summary and request is skipped with a warning, and then both sides
  wait for ever, whatever else happens (`LiveTheorems.PurgeStrandsBoth`); nothing else makes the two programs wait
  for each other (`LiveTheorems.StuckRunIsFinishedIff`). A link whose key is spent refuses to seal
  (`SessionOnLink.SessionIsSealedIff`), and a merge fails in the two cases of `MergeRaces.RacedApplyFailsIff`.
- Last writer wins is decided on the row as it was looked up; a pin made before the row is written is overwritten
  by an older one (`MergeRaces.LocalChangeSurvivesIff`, `MergeRaces.PinIsLost`).
- The cursor compares wall times as signed 64-bit columns, which is the clock's order exactly on either side
  of 2^63 (`Paging.SqlOrderIsStampOrder`).
- `encode` can fail half way through a message with some segments already sealed; the peer can then open
  nothing sealed later, however often both rekey (`Framing.CutShortLosesTheLink`).
- `delete` is documented to accept an id that was already purged. It answers not found, exactly when no row
  has the id (`ClipTables.DeletedIsGone`).
- A tombstone that arrives by sync has no deletion time, so it is never purged (`Tombstones.SyncedTombstoneStays`,
  `Tombstones.DatedIffDiedHere`), and it keeps an index entry, which search filters out (`ClipTables.SearchIsScan`).

## Model

| member | source | states |
|---|---|---|
| `LiveRuns.EveryRunGoesOn` | crates/clipsed/src/sync.rs:84-427 | Every interleaving of an honest dialler and an honest responder over streams of any capacity of at least one, with any changes to either store in between (copies, pins, deletions, purges, blobs put, read, evicted), as long as every request for clips finds them: no unexpected message, no store error, a step possible exactly until both are done, nothing then in flight |
| `LiveTheorems.NothingPurgedNothingStuck` | crates/clipsed/src/sync.rs:84-427 | If nothing is purged, the same without a further condition, and every step of the session makes a measure smaller that no change to a store can enlarge, so it ends |
| `LiveKnowledge.NothingPurgedAllServed` | crates/clipsed/src/sync.rs:215-244 | Over every such run without a purge, every clip a peer asks for is in the store when the request is read, although the history may have changed since the summary |
| `LiveRuns.RacedInsertFailsIff` | crates/clipsed/src/sync.rs:439-460 | Inserting an incoming clip fails exactly if the store holds a row of its id and none of its content alive |
| `MergeRaces.RacedApplyFailsIff` | crates/clipsed/src/sync.rs:439-484 | A merge with any changes to the store between its lookup and its write, and between its pin and its deletion, fails exactly if an insertion finds its id taken and its content not alive, or an update finds its row gone |
| `MergeRaces.RacedApplySucceeds` | crates/clipsed/src/sync.rs:439-484 | So it never fails unless something is purged, or that very clip is inserted, in between |
| `MergeRaces.LocalChangeSurvivesIff` | crates/clipsed/src/sync.rs:462-470 | A row changed in between ends as a merge decided on the changed row would leave it exactly when it is still older than the clip, or has its stamp and pin; else the change is overwritten |
| `MergeRaces.PinIsLost` | crates/clipsed/src/sync.rs:462-470 | The failing input: a pin made in between under a newer stamp is gone |
| `MergeRaces.UndisturbedIsApply` | crates/clipsed/src/sync.rs:439-506 | With nothing in between it is the merge of the session model |
| `LiveTheorems.StuckRunIsFinishedIff` | crates/clipsed/src/sync.rs:232-244 | With purges too: a run with no step left is a finished one if and only if every request found all its clips |
| `LiveTheorems.UnservedNeverFinishes` | crates/clipsed/src/sync.rs:232-244 | After a request that did not, no continuation finishes |
| `LiveTheorems.PurgeStrandsBoth` | crates/clipsed/src/sync.rs:232-244 | The run with one purge between summary and request, at whose end both sides wait |
| `LiveTheorems.StepsDescend` | crates/clipsed/src/sync.rs:84-427 | Each step of the session makes the measure smaller, each change to a store leaves it |
| `LiveStory.CountsAgree` | crates/clipsed/src/sync.rs:232-278 | In every finished run over changing stores, as many clips and as many blob streams were taken or refused at one end as went out at the other |
| `SessionRuns.QuietRunCompletes` | crates/clipsed/src/sync.rs:84-427 | Between stores at rest every interleaving ends after exactly twice the number of messages with both ends as the lock-step session leaves them |
| `SessionRuns.QuietRunCanFinish` | crates/clipsed/src/sync.rs:84-427 | Between stores at rest every run is the beginning of a finished one |
| `LiveTheorems.QuietRunIsRun` | crates/clipsed/src/sync.rs:84-116 | A run in which no store changes is a run between stores at rest, with the same states |
| `LiveTheorems.EveryRunCanFinish` | crates/clipsed/src/sync.rs:84-427 | Without a purge every run, whatever has changed on the way, is carried to its end by steps of the session alone |
| `LiveStory.SenderHasReadEverything` | crates/clipsed/src/sync.rs:84-116 | Half duplex, on every run over changing stores: a side about to send has read everything sent to it, on both streams |
| `AnyPeer.StoreStaysTrue` | crates/clipsed/src/sync.rs:290-506 | Against any peer, whatever it sends and whatever else changes the store: the tables stay consistent, blob rows and files match, and every blob on disk hashes to its name |
| `AnyPeer.NothingBeforeTheGreeting` | crates/clipsed/src/sync.rs:84-164 | On every such run an endpoint has nothing but its own greeting to say, and is still waiting for one, until the peer it was set up for has greeted it in this version |
| `AnyPeer.OnlyTheExpected` | crates/clipsed/src/sync.rs:134-427 | A message other than the one kind waited for ends the session with the right error and changes nothing; an expected one ends it only if the store fails on a clip |
| `AnyPeer.SaysWhatItHolds` | crates/clipsed/src/sync.rs:118-132 | A greeting names the device, version 1 and the newest stamp of the history, an acknowledgement the newest stamp or the clock's, a blob stream the file asked for or nothing |
| `AnyPeer.OffersItsHistory` | crates/clipsed/src/sync.rs:179-214 | The pages offered hold at most 200 entries, all but the last exactly so; together they describe every row once, oldest first, with content, stamp, kind, flags and size |
| `AnyPeer.CountedIfChanged` | crates/clipsed/src/sync.rs:342-378 | A clip counts as received exactly when it has changed the history, else as rejected |
| `SessionStores.SessionCompletes` | crates/clipsed/src/sync.rs:84-164 | In lock step the two programs always fit, one sending what the other waits for, until both are done |
| `SessionTurns.TurnCompletes` | crates/clipsed/src/sync.rs:179-427 | One whole turn, from the first summary page to the acknowledgement, runs to its end |
| `SessionTurns.PushPhase` | crates/clipsed/src/sync.rs:232-244 | The clips served cross one by one, and a taker that expects more goes on waiting |
| `SessionTurns.BlobsCrossedEnd` | crates/clipsed/src/sync.rs:246-287 | The blob exchange ends with the offerer waiting for the acknowledgement the taker is about to send; neither history changes |
| `BlobRequests.BlobsArrive` | crates/clipsed/src/sync.rs:246-287 | For any list of owed digests: a blob is on the taker's disk afterwards exactly if it was, unchanged, or is owed and the offerer's stream for it hashes to it, with those bytes; the offerer keeps its files; both caches have used what was read and put, in order; the counts of sent, received and rejected are exact |
| `BlobRequests.TurnDelivers` | crates/clipsed/src/sync.rs:246-413 | The same for one whole turn and the digests it asks for |
| `BlobRequests.SessionDelivers` | crates/clipsed/src/sync.rs:84-427 | The same for both disks of a whole session, by which clips were taken over and which files the other side held |
| `SessionStores.ServedMatchesWanted` | crates/clipsed/src/sync.rs:221-244 | Between stores at rest every clip asked for out of a summary is found, so exactly as many pushes go out as the reader waits for, in that order |
| `SessionTurns.MissingClipStalls` | crates/clipsed/src/sync.rs:232-244 | If a requested clip is gone, the run reaches a point where both sides wait |
| `SessionTurns.ServeIsCompleteIff` | crates/clipsed/src/sync.rs:221-244 | As many pushes as requests exactly when every requested hash is still stored |
| `SessionStores.ApplyNeverFails` | crates/clipsed/src/sync.rs:439-506 | Applying a clip read from a consistent store never fails and keeps the tables consistent |
| `SessionTheorems.SessionCounts` | crates/clipsed/src/sync.rs:179-427 | Each side ends having received or rejected exactly as many clips as the other sent |
| `SessionTheorems.FinishedRunConverges` | crates/clipsed/src/sync.rs:84-427 | Between stores at rest any run that can go no further, over any interleaving, has both sides done; the stores agree on every hash if and only if their rows agree; where nothing is buried that is when the histories settle, each hash then with the flags of its newer row, and the stamps agree if and only if every newer row could be taken over |
| `SessionTheorems.NewDevicesCanMeet` | crates/clipsed/src/sync.rs:84-116 | Two devices with empty stores meet every condition of the session theorems |
| `Convergence.SessionConvergesIff` | crates/clipsed/src/sync.rs:290-506 | One session makes two stores, however many rows they hold of a content, say the same of every hash if and only if their rows of every hash agree (`Agrees`). Where no row is buried under an older tombstone that is: the newer row hashes to its payloads in label order, equal stamps came with equal flags, and no tombstone faced a newer live clip; what both then say is the newer row. Both then hold the union of the hashes |
| `Convergence.RowsAfterSession` | crates/clipsed/src/sync.rs:290-506 | One content, any rows on either side: the exact condition for saying the same afterwards, also where a live row beside an older tombstone faces a newer deletion; what is said where nothing is buried; and that a session leaves nothing to bury |
| `Convergence.ViewsAfterSession` | crates/clipse-sync/src/merge.rs:29-52 | Per hash: same stamps exactly when the newer row could be taken over; same flags exactly when settled, and then those of the newer row; a second session would change nothing |
| `Convergence.TombstoneStays` | crates/clipsed/src/sync.rs:462-484 | Where an older tombstone meets a newer live clip it takes its stamp and pin and stays deleted |
| `Convergence.SessionEffect` | crates/clipsed/src/sync.rs:290-506 | A session as a function of the rows the two stores hold of each content, each content independent of the others |
| `Histories.TurnEffect` | crates/clipsed/src/sync.rs:290-395 | One turn, row by row: a content is asked for once for every row of the peer newer than what the taker says of it, each time the peer's answering row is sent, and each time the taker's answering row absorbs it |
| `Convergence.LearnedAnswer` | crates/clipse-store/src/store.rs:293-307 | What a store says after a turn: last writer wins with sticky deletion, except where a live row is entombed beside an older tombstone, which then answers |
| `Histories.ApplyEffect` | crates/clipsed/src/sync.rs:439-506 | Applying a clip of the peer, also where several rows are held of its content: refused if it does not hash to its payloads, added if the content is unknown, else absorbed by the row that answers; never a store error; no row of another content changes |
| `Convergence.SettledSessionIsIdle` | crates/clipsed/src/sync.rs:324-337 | Where neither store has a row newer than what the other says of its content, a session wants nothing, moves nothing and changes nothing |
| `Convergence.NoNewsIff` | crates/clipsed/src/sync.rs:324-337 | With one row a content that is so exactly when the stamps are equal |
| `Convergence.LaterSessionsChangeNothing` | crates/clipsed/src/sync.rs:290-427 | After a session that buries no row no later one between the same stores, whoever dials, changes either; it asks for nothing if and only if neither has news for the other, which with one row a content means that every newer row could be taken over; else the same rows are sent and refused again |
| `Convergence.TwoSessionsSettle` | crates/clipsed/src/sync.rs:290-427 | Whatever the stores hold, after two sessions a third changes nothing |
| `Convergence.NextSessionSaysTheSame` | crates/clipsed/src/sync.rs:290-427 | Content by content: what the two say after a session that buries none of its rows they say after the next |
| `Convergence.CanonicalRunsAreSound` | crates/clipse-core/src/clip.rs:224-231 | Over every run of a store whose clips come from `Clip::new`, every row hashes to its payloads |
| `Convergence.SessionsKeepSound` | crates/clipsed/src/sync.rs:290-427 | No session makes such a history another, whatever the peer holds |
| `Convergence.ReorderedClipIsUnsound` | crates/clipse-store/src/store.rs:180-267 | A clip that is stored no longer hashes to its payloads exactly when they came in another order than that of their labels |
| `Convergence.ReorderedClipNeverConverges` | crates/clipsed/src/sync.rs:324-337 | The failing input: such a clip stays on its device, and the newer row can never be taken over |
| `Convergence.OldTombstoneAnswers` | crates/clipse-store/src/store.rs:293-307 | Where a clip was deleted and copied again, a newer deletion entombs the live row and the store answers with its older tombstone and stamp |
| `Gossip.NewestStampIsLearnt` | crates/clipsed/src/sync.rs:84-116 | Any number of devices, any sequence of sessions: a device has for each hash the newest stamp among the devices it has learnt of that hash from, where a meeting teaches what the other has learnt unless the other's first row of the hash is one every peer refuses |
| `Gossip.SameSourcesSameHistory` | crates/clipsed/src/sync.rs:84-116 | Devices that have learnt of a hash from the same devices have the same stamp and, where the first rows of those do not conflict, say the same: what the newest of them said |
| `Gossip.NewestStampIsHeard` | crates/clipsed/src/sync.rs:84-116 | Where every device's row of the hash hashes to its payloads: the newest stamp among the devices it has heard of at all, at first or second hand |
| `Gossip.SameHearsaySameHistory` | crates/clipsed/src/sync.rs:84-116 | Where every device's row of the hash hashes to its payloads: devices that have heard of the same devices have the same stamps and, where the first rows do not conflict, say the same |
| `Gossip.HeardButNotLearnt` | crates/clipsed/src/sync.rs:84-116 | Without that it is false: a device whose clip every peer refuses meets an empty one; both have heard of both, and their stamps differ |
| `BlobRequests.BlobIsAskedForIff` | crates/clipsed/src/sync.rs:342-395 | A turn asks for a digest if and only if it is not on disk and some clip taken over in that very turn keeps a payload as that blob |
| `BlobRequests.MissingBlobIsNotAskedForAgain` | crates/clipsed/src/sync.rs:402-411 | After a session that buries no row no later one between the same stores asks for any blob, whatever is missing |
| `BlobRequests.EvictedBlobIsLost` | crates/clipsed/src/sync.rs:265-276 | The witness: a clip whose blob was evicted is answered by an empty stream, the peer rejects it, has the clip without it and never asks again |
| `LocalChanges.DeletionReachesPeerIff` | crates/clipse-store/src/store.rs:402-442 | After a local delete and one session, whoever dials, the clip is deleted at the peer exactly when it was so anyway, or what the store then says of it hashes to its payloads and the peer had nothing or something older; that is the deleted row under its new stamp, or, if the clip had been deleted and copied again before, the first tombstone under its old one; here it stays deleted |
| `LocalChanges.SecondDeletionIsLost` | crates/clipse-store/src/store.rs:293-307 | So a clip deleted, copied again and deleted again stays alive on a peer that holds it alive and no older than the first deletion, after this session and the next |
| `LocalChanges.PinReachesPeerIff` | crates/clipse-store/src/store.rs:374-394 | After a local pin or unpin of the row that answers for its content, as every live row does, and one session the peer has that pin under that stamp exactly when the row hashes to its payloads and the peer had nothing or something older, or it had that stamp with that pin; a deleted clip stays deleted |
| `LocalChanges.CopyReachesPeerIff` | crates/clipse-store/src/store.rs:180-267 | After a local copy, also beside the device's own tombstone of it, and one session the clip is alive at the peer exactly when it was alive there, or the peer had nothing and the row hashes to its payloads; a tombstone there stays, however new the copy |
| `Convergence.WhoDialsDoesNotMatter` | crates/clipsed/src/sync.rs:84-116 | Where nothing is buried each side ends with its own view absorbing the other's, whichever side dials |
| `SessionTheorems.NewestIsLatestInsert` | crates/clipsed/src/sync.rs:342-378 | Whatever arrives and in whatever order, the clip reported as newest is the one with the latest stamp of those that brought content never held, the first of several; none exactly when none did |
| `BlobRequests.SessionReportsNewest` | crates/clipsed/src/sync.rs:415-417 | At the end of a session each side reports the clip with the latest stamp of those that brought content its store never had, or nothing exactly when none did |
| `SessionTheorems.TombstoneIsReportedIff` | crates/clipsed/src/sync.rs:77-80 | For any list of arriving clips, what is reported is a tombstone exactly when the latest of the clips that brought content never held is one |
| `SessionTheorems.LoneTombstoneIsReportedIff` | crates/clipsed/src/sync.rs:357-363 | A tombstone arriving alone is reported exactly when its content was never held |
| `SyncSession.ComputeWanted` | crates/clipsed/src/sync.rs:320-337 | The loop over a summary asks for exactly the hashes that are unknown or older here, in order |
| `SyncSession.ComputeNeeded` | crates/clipsed/src/sync.rs:383-395 | The loop over mentioned digests asks for each missing one once, in order of first mention |
| `SyncSession.Needed` | crates/clipsed/src/sync.rs:383-395 | Exactly the mentioned digests that are not on disk, without repeats |
| `SessionStoreObject.ApplyClip` | crates/clipsed/src/sync.rs:439-506 | Merging one clip into the store object in place is the merge function; the store stays valid and its blobs untouched |
| `SessionStoreObject.TakePushes` | crates/clipsed/src/sync.rs:342-378 | The receive loop on the store object computes the turn's counts, missing blobs and newest clip |
| `LiveStory.OneConversation` | crates/clipsed/src/sync.rs:84-427 | On every run over changing stores, also one that a purge leaves waiting for ever, both sides process the same messages in the same order across streams: what both have is the same, and what only one has it has sent |
| `SessionOnLink.ConversationStaysInStep` | crates/clipse-crypto/src/session.rs:266-308 | On every run a reader's counters before each message equal the writer's before sealing it, so what could be sealed is opened, to what was sealed, never refused for want of a rekey |
| `SessionOnLink.SessionIsSealedIff` | crates/clipse-crypto/src/session.rs:244-279 | On every run everything either side has sent could be sealed if and only if the whole conversation so far is at most 10,000 pieces and all but the last of them under 64 MiB of ciphertext |
| `SessionOnLink.LightSessionNeverRefused` | crates/clipse-crypto/src/session.rs:244-308 | A session within that bound seals and opens every message |
| `HybridClock.HappenedBeforeImpliesSmallerStamp` | crates/clipse-core/src/hlc.rs:101-145 | On every run of any number of devices in which nothing is clamped and no full counter is incremented, happened-before implies a strictly smaller stamp |
| `HybridClock.ClockRunIsMonotoneAndBounded` | crates/clipse-core/src/hlc.rs:101-145 | For arbitrary readings and remote stamps: never back; strictly increasing exactly unless the counter is full and the wall part stays; wall part within 60,000 ms of the greatest reading so far |
| `HybridClock.ClockFollowsTime` | crates/clipse-core/src/hlc.rs:101-144 | After every tick of every run the wall part is the latest of what it was, the physical reading and the remote stamp (one over a minute ahead counts as made at the reading); the counter is 0 exactly when the reading is later than both, else one more than that of a stamp with that wall part and more than all of them, as far as it counts |
| `HybridClock.ClockKeepsUp` | crates/clipse-core/src/hlc.rs:101-144 | Over every run the clock is never behind any reading it was given, and without remote stamps it is the latest of them |
| `HybridClock.ObserveOrdersAfterRemote` | crates/clipse-core/src/hlc.rs:117-145 | Exactly when `observe` lands strictly after the remote stamp |
| `HybridClock.SaturationBreaksOrder` | crates/clipse-core/src/hlc.rs:121-145 | A full counter gives back the stamp received |
| `HybridClock.StampOrderIsTotal` | crates/clipse-core/src/hlc.rs:45-52 | Of two distinct stamps exactly one is smaller |
| `HybridClock.StampOrderIsTransitive` | crates/clipse-core/src/hlc.rs:45-52 | Stamp order is transitive |
| `HybridClock.HlcClock.Now` | crates/clipse-core/src/hlc.rs:101-115 | The clock after a local event, and exactly when the stamp is greater than the last |
| `HybridClock.HlcClock.Observe` | crates/clipse-core/src/hlc.rs:121-145 | The clock after a receipt |
| `ClipTables.EveryRunKeepsInv` | crates/clipse-store/src/store.rs:180-462 | Over every run of insert, set_pinned, delete and purge: distinct ids, at most one live row per hash, exactly one index entry holding the clip's text for each live row |
| `ClipTables.SearchIsScan` | crates/clipse-store/src/store.rs:341-372 | Indexed search returns exactly what a scan of the live rows would, in the same order and page |
| `HistorySearch.SearchFindsExactly` | crates/clipse-store/src/store.rs:341-372 | After any run of the store a search returns exactly the live rows of the kind and pin asked for whose preview, joined with their plain text where that differs, matches |
| `HistorySearch.FoundByPreviewAndText` | crates/clipse-store/src/fts.rs:6-15 | For a search text that also matches inside longer text: a live clip is found if its preview matches, if its plain text matches, also past the end of the preview, and not if neither they nor the two joined do |
| `HistorySearch.SearchIsPaged` | crates/clipse-store/src/store.rs:341-372 | Limit and offset cut consecutive slices out of one list, newest first, with no row twice; an empty search text finds nothing |
| `ClipTables.StoredKeepsBody` | crates/clipse-store/src/fts.rs:10-15 | Reading payloads back in label order changes neither the labels nor the indexed text |
| `ClipTables.InsertIsFound` | crates/clipse-store/src/store.rs:180-267 | After inserting a live clip its content is found under the clip's own stamp; known content is refreshed in its one live row, whatever stamp that had, keeping id, pin and payloads; otherwise a row is added, also beside a tombstone; no other row changes |
| `AnyPeer.RejectedIff` | crates/clipse-store/src/store.rs:180-190 | Insert refuses a clip as not hashing to its payloads exactly when it does not, and then changes nothing |
| `AnyPeer.HashFixesPayloads` | crates/clipse-core/src/clip.rs:254-268 | Of two clips under one hash, if one hashes to its payloads the other does exactly when it has the same labels and digests in the same order |
| `ClipTables.DeletedIsGone` | crates/clipse-store/src/store.rs:407-442 | A deleted clip is found by no search, and no other row changes |
| `ClipTables.PurgeIsInvisible` | crates/clipse-store/src/store.rs:448-462 | A purge removes exactly the tombstones deleted at a known time long enough ago, and no search can tell |
| `Tombstones.DatedIffDiedHere` | crates/clipse-store/src/store.rs:407-442 | Over every run of the store a row has a time of deletion exactly when a step of the run deleted it while it was live, and it is the time of that step |
| `Tombstones.SyncedTombstoneStays` | crates/clipse-store/src/store.rs:448-462 | A row inserted as a tombstone is never purged nor dated, whatever is done afterwards |
| `ClipTables.LookupAny` | crates/clipse-store/src/store.rs:293-307 | A live row if there is one, else a tombstone, else nothing |
| `Paging.PagingIsCompleteIff` | crates/clipse-store/src/store.rs:470-520 | Paging an unchanging store visits every row once, in order, for every positive limit, if and only if stamps are distinct |
| `Paging.TextOrderIsByteOrder` | crates/clipse-store/src/store.rs:470-520 | Text order of hyphenated lowercase-hex ids is byte order |
| `Paging.SqlOrderIsStampOrder` | crates/clipse-store/src/store.rs:470-520 | SQL order of two stamps is clock order exactly when the wall times are on the same side of 2^63 |
| `Paging.OrderedIsStampOrder` | crates/clipse-store/src/store.rs:470-520 | For wall times below 2^63, pages come in the clock's own order |
| `BlobTables.EveryRunKeepsInv` | crates/clipse-store/src/blob.rs:43-198 | Over every run of put, read, quota pass, prune and reopen: rows and files match one to one, sizes are true, use numbers are distinct |
| `BlobTables.QuotaPassIsShortestPrefix` | crates/clipse-store/src/blob.rs:100-152 | A quota pass evicts the shortest prefix, in order of use, of the unprotected blobs: bytes conserved, protected blobs kept, under quota or only protected blobs left |
| `StoreObject.QuotaSparesPinned` | crates/clipse-store/src/blob.rs:100-152 | A quota pass over any history: a blob of a live pinned clip stays with its bytes, while over quota nothing else stays, of two other blobs the one used longer ago goes first, and under quota nothing changes |
| `StoreObject.OrphansGo` | crates/clipse-store/src/blob.rs:176-198 | An orphan pass keeps a blob, as it was, exactly if some row names it |
| `BlobTables.TotalIsBytesOnDisk` | crates/clipse-store/src/blob.rs:100-107 | What is held against the quota is the bytes on disk |
| `BlobTables.UsedBlobIsLastToGo` | crates/clipse-store/src/blob.rs:43-87 | The first bytes put for a digest are what every later read gives, and a put or a read makes it the last in eviction order |
| `StoreObject.Store.Insert` | crates/clipse-store/src/store.rs:180-267 | The tables after an insert, a dedup or a refusal; stays valid |
| `StoreObject.Store.SetPinned` | crates/clipse-store/src/store.rs:376-394 | The tables after a pin; stays valid |
| `StoreObject.Store.Delete` | crates/clipse-store/src/store.rs:407-442 | The tables after a deletion; stays valid |
| `StoreObject.Store.PurgeTombstones` | crates/clipse-store/src/store.rs:448-462 | The tables and the cache after a purge, and how many rows went |
| `StoreObject.Store.PutBlob` | crates/clipse-store/src/blob.rs:43-65 | The cache after a put; stays valid |
| `StoreObject.Store.ReadBlob` | crates/clipse-store/src/blob.rs:70-87 | The cache after a read, and the bytes; a miss leaves the counter alone |
| `StoreObject.Store.EnforceBlobQuota` | crates/clipse-store/src/blob.rs:100-152 | The eviction loop and its report; on the rows: blobs of live pinned clips stay with their bytes, while over quota nothing else stays, and the rest goes in order of last use |
| `StoreObject.Store.PruneOrphans` | crates/clipse-store/src/blob.rs:176-198 | The orphan loop drops exactly the blobs no row names |
| `StoreObject.Store.Reopen` | crates/clipse-store/src/store.rs:166-178 | The use counter seeded from the table; stays valid |
| `ContentHashes.PartsEncodingInjective` | crates/clipse-crypto/src/pairing.rs:109-116 | Two lists of parts with the same length-prefixed encoding are the same list |
| `ContentHashes.MultiPartIdentityInjective` | crates/clipse-core/src/hash.rs:20-31 | Two clips hash the same bytes only if their labelled parts are the same |
| `ContentHashes.HashInput` | crates/clipse-core/src/hash.rs:20-31 | The hasher loop feeds exactly the encoding |
| `NoiseLink.UsageIsBounded` | crates/clipse-crypto/src/session.rs:244-308 | On every run of sealing, opening (forgeries included) and rekeying, one key protects at most 10,000 messages and fewer than 64 MiB + 65,535 bytes, and the counters are exactly the traffic since the last rekey |
| `NoiseLink.EveryNonceOnce` | crates/clipse-crypto/src/session.rs:257-308 | Whatever is sealed, opened or rekeyed in between, of two frames an end has sealed the later has the greater nonce, and so of two it has opened: none is opened twice or out of order |
| `NoiseLink.ReaderIsInStep` | crates/clipse-crypto/src/session.rs:266-308 | On every half-duplex run the next frame finds its reader at its writer's counters and opens; with empty wires the ends agree |
| `NoiseLink.CrossingFramesDisagree` | crates/clipse-crypto/src/session.rs:266-308 | Without half duplex the counters part |
| `NoiseLink.LoneRekeyCutsTheLink` | crates/clipse-crypto/src/session.rs:249-262 | If one end rekeys alone, nothing the other seals opens |
| `NoiseLink.Session.WriteMessage` | crates/clipse-crypto/src/session.rs:266-279 | The session after sealing; refused for a rekey exactly at a threshold |
| `NoiseLink.Session.ReadMessage` | crates/clipse-crypto/src/session.rs:292-308 | The session after opening; a refusal changes nothing |
| `NoiseLink.Session.RekeyNow` | crates/clipse-crypto/src/session.rs:257-262 | Fresh keys, counters at zero |
| `Framing.StreamIsConserved` | crates/clipse-net/src/framing.rs:63-103 | For any cut of the stream and any errors: bytes fed are the length-prefixed bodies handed back, then the pending buffer |
| `Framing.EncodedStreamComesBack` | crates/clipse-net/src/framing.rs:30-84 | Any messages, cut as `encode` cuts, come back in order, each on its last segment, with an empty buffer between |
| `Framing.MessagesCrossTheLink` | crates/clipse-net/src/framing.rs:30-103 | Through two sessions in agreement: every frame at most 65,535 bytes and accepted, messages back in order, ends in agreement again |
| `Framing.EncodeSucceedsIff` | crates/clipse-net/src/framing.rs:30-48 | Exactly when a message can be encoded: at most 32 MiB, messages left for all its segments, and all but the last segment leaving the key under 64 MiB |
| `Framing.SealsIff` | crates/clipse-crypto/src/session.rs:266-279 | The same for any pieces that each fit a Noise message |
| `Framing.CutShortLosesTheLink` | crates/clipse-net/src/framing.rs:44-47 | The only refusal is a spent key; refused before its first segment a message costs nothing, cut short it leaves the peer unable to open any frame the writer ever seals again, whatever is sent either way and however often both rekey |
| `Framing.Encode` | crates/clipse-net/src/framing.rs:30-48 | The segment loop seals the cut of the prefixed body, one frame a segment |
| `Framing.Decoder.Accept` | crates/clipse-net/src/framing.rs:63-84 | Buffer and answer after one frame; a refused frame leaves the buffer alone |
| `Framing.AnswerMeans` | crates/clipse-net/src/framing.rs:63-104 | When the decoder waits, refuses a length over 32 MiB, refuses a body that does not parse, or hands a message over, and what is then left in the buffer |
| `Framing.RefusedForGood` | crates/clipse-net/src/framing.rs:63-104 | A stream once refused gets the same answer to every later segment |
| `ChunkTransfer.RangesTile` | crates/clipse-sync/src/chunk.rs:79-94 | Ranges are non-empty, start at 0, meet end to start, end at the size; the arithmetic stays inside a machine word |
| `ChunkTransfer.EveryByteInOneRange` | crates/clipse-sync/src/chunk.rs:87-94 | Every byte of the blob is in exactly one range |
| `ChunkTransfer.IndexInRange` | crates/clipse-sync/src/chunk.rs:79-94 | An index exists exactly when its chunk starts before the end; the 32-bit cast loses nothing |
| `ChunkTransfer.TransferCompletes` | crates/clipse-sync/src/chunk.rs:145-181 | Right chunks in any order with repeats and refusals: exactly the blob once every index is covered, else the exact number missing |
| `ChunkTransfer.OnlyThePromisedBytes` | crates/clipse-sync/src/chunk.rs:167-181 | Whatever arrives, only the promised bytes come out, and only when complete |
| `ChunkTransfer.ResumeIsFirstUncovered` | crates/clipse-sync/src/chunk.rs:134-140 | The resume index is the first one no stored delivery covers |
| `ChunkTransfer.NewSource` | crates/clipse-sync/src/chunk.rs:61-69 | Accepted exactly when the chunk size is positive and the size within 512 MiB |
| `ChunkTransfer.ChunkReceiver.Accept` | crates/clipse-sync/src/chunk.rs:145-165 | Buffer and flags after a chunk; a refused one changes neither |
| `ChunkTransfer.ChunkReceiver.ResumeFrom` | crates/clipse-sync/src/chunk.rs:134-140 | The first missing index |
| `ChunkTransfer.ChunkReceiver.Finish` | crates/clipse-sync/src/chunk.rs:170-181 | Counts what is missing, then checks the digest, then gives the bytes |
| `LoopGuards.VerdictsMatchUnboundedLogIff` | crates/clipse-sync/src/loop_guard.rs:82-128 | With a clock that does not go back, every verdict at every point of a run is the unbounded log's if and only if fewer than 4,096 logged hashes are in the window at each record |
| `LoopGuards.HeldBackForAReason` | crates/clipse-sync/src/loop_guard.rs:89-106 | Whatever has been forgotten, a hash is held back only if its latest record is inside the window, as its origin exactly if that record came from this very peer, else as an echo |
| `LoopGuards.SentOnForAReason` | crates/clipse-sync/src/loop_guard.rs:89-106 | And while the window holds fewer than 4,096 hashes it is sent on only if it has no record inside the window |
| `LoopGuards.EveryRunForgetsOldestFirst` | crates/clipse-sync/src/loop_guard.rs:82-128 | Over every such run, nothing forgotten is newer than anything kept |
| `LoopGuards.MemoryIsBounded` | crates/clipse-sync/src/loop_guard.rs:82-128 | Whatever the clock does: at most 4,096 entries, and the hash just recorded is among them |
| `LoopGuards.CrowdKeepsHalf` | crates/clipse-sync/src/loop_guard.rs:108-128 | A record forgets exactly what is outside the window while fewer than 4,096 hashes are inside, and else all but 2,048 of them |
| `LoopGuards.BackwardsClockForgets` | crates/clipse-sync/src/loop_guard.rs:108-113 | With a clock that goes back a verdict can differ from the log's |
| `LoopGuards.LoopGuard.RecordReceived` | crates/clipse-sync/src/loop_guard.rs:82-86 | Prunes, then records |
| `LoopGuards.LoopGuard.JudgePeer` | crates/clipse-sync/src/loop_guard.rs:89-106 | The verdict of the remembered entries |
| `LoopGuards.LoopGuard.Prune` | crates/clipse-sync/src/loop_guard.rs:108-128 | Keeps what is in the window, and of 4,096 or more the newest 2,048, ties in any order |
| `Candidates.EveryRunKeepsAddressesDistinct` | crates/clipse-net/src/candidate.rs:69-170 | Over every run of upsert, refresh_lan and set_tailnet an address is listed once |
| `Candidates.PruneKeepsSix` | crates/clipse-net/src/candidate.rs:131-163 | Exactly six LAN entries stay, or all if fewer; the others are untouched, in order |
| `Candidates.PruneDropsOldest` | crates/clipse-net/src/candidate.rs:131-163 | What goes is a LAN entry no fresher than any LAN entry that stays |
| `Candidates.FreshSightingsSurvive` | crates/clipse-net/src/candidate.rs:123-128 | Up to six addresses discovered at a strictly newer time are all listed afterwards, as LAN entries seen then |
| `Candidates.TailnetIsReplaced` | crates/clipse-net/src/candidate.rs:165-171 | After set_tailnet any tailnet entry is the given one, and every LAN address stays on the LAN |
| `Candidates.UpsertMeans` | crates/clipse-net/src/candidate.rs:85-106 | A known address is on the LAN if it was or now is, and seen at the later of the two times; a new one goes to the end; no other entry changes |
| `Candidates.EveryAddressIsListed` | crates/clipse-net/src/candidate.rs:69-75 | A list made of some candidates lists every one of their addresses |
| `Candidates.CandidateList.Upsert` | crates/clipse-net/src/candidate.rs:90-106 | Merged into the entry of that address, or appended; addresses stay distinct |
| `Candidates.CandidateList.RefreshLan` | crates/clipse-net/src/candidate.rs:123-128 | The sightings folded in, then pruned |
| `Candidates.CandidateList.PruneLan` | crates/clipse-net/src/candidate.rs:131-163 | The index-based retain is the pruned list |
| `Candidates.CandidateList.SetTailnet` | crates/clipse-net/src/candidate.rs:165-171 | Tailnet entries dropped, the given one folded in |
| `Candidates.CandidateList.DialOrder` | crates/clipse-net/src/candidate.rs:175-183 | A permutation in which no tailnet address comes before a LAN one and of two of a kind none before one seen later; ties keep their order |
| `Pairing.WithoutDigitsNoForgery` | crates/clipse-crypto/src/pairing.rs:397-412 | Whatever an attacker hashes that does not end in the digits, and however it reuses proofs, commitments and tags it has seen, a proof that verifies was computed by an honest device |
| `Pairing.InitiatorAgreement` | crates/clipse-crypto/src/pairing.rs:479-537 | With any number of ceremonies and an attacker who cannot forge a proof: whenever an initiator pairs, some responder completed the very same transcript, and each record names the other |
| `Pairing.ResponderAgreement` | crates/clipse-crypto/src/pairing.rs:592-633 | The same for a responder; a reflected proof is never accepted |
| `Pairing.AgreementIsInjective` | crates/clipse-crypto/src/pairing.rs:414-418 | With fresh nonces the matching is one to one |
| `Pairing.BothVerifyMeansSameTranscript` | crates/clipse-crypto/src/pairing.rs:479-633 | When both verify, either proof is the other's own exactly when version, identities, nonces and code agree; with different digits neither is |
| `Pairing.UntamperedRunVerifiesIffInTime` | crates/clipse-crypto/src/pairing.rs:433-633 | An untampered run verifies on both sides, with the right records, exactly when all three checks are within three minutes of the start |
| `Pairing.MacInjective` | crates/clipse-crypto/src/pairing.rs:397-412 | Equal proofs mean equal transcripts and equal roles |
| `Pairing.CommitmentBinds` | crates/clipse-crypto/src/pairing.rs:600-602 | A commitment opens to one nonce only |
| `Pairing.NonceWasFixedByOffer` | crates/clipse-crypto/src/pairing.rs:592-602 | A responder completes only in time and only with the nonce its offer committed to |
| `Pairing.OfferIsTakenIff` | crates/clipse-crypto/src/pairing.rs:554-585 | A responder goes along exactly with an unexpired offer of this version |
| `Pairing.TagIdentifiesCode` | crates/clipse-crypto/src/pairing.rs:196-201 | A lookup tag answers for exactly one code |
| `Pairing.ParseCode` | crates/clipse-crypto/src/pairing.rs:165-185 | Accepted exactly when six digits remain without separators, and then those digits |
| `Pairing.ShownCodeParses` | crates/clipse-crypto/src/pairing.rs:220-225 | What the screen shows parses back to the code |
| `PairingSlot.PairingTracesToItsOffer` | crates/clipsed/src/pairing.rs:98-199 | Over every run a device is paired only by the proof its own offer stored, in time, with the slot busy with nothing else in between |
| `PairingSlot.UntamperedCeremonyPairs` | crates/clipsed/src/pairing.rs:98-199 | From idle on any run: begin, lookup with its digits, accept and the finish its confirm draws from the other device, all in time, pair the sender of the accept, and the other device pairs this one |
| `PairingSlot.RightTagGetsTheOffer` | crates/clipsed/src/pairing.rs:136-157 | On every run a lookup with the digits of an open offer, within three minutes of its begin, is answered with that offer and changes nothing |
| `PairingSlot.OfferedOnlyToTheRightTag` | crates/clipsed/src/pairing.rs:136-157 | And no other lookup is answered with one |
| `PairingSlot.OfferStaysIff` | crates/clipsed/src/pairing.rs:98-215 | Exactly which calls an open offer outlives, on every run, and what becomes of it otherwise |
| `PairingSlot.ClaimStaysIff` | crates/clipsed/src/pairing.rs:98-215 | A proof waited for, or a claim, outlives everything but an accept, a finish and a cancel |
| `PairingSlot.ClaimFromIdle` | crates/clipsed/src/pairing.rs:123-129 | A claim is granted exactly from idle |
| `PairingSlot.BeginPutsUpOffer` | crates/clipsed/src/pairing.rs:98-119 | From idle a begin puts up an offer for three minutes and shows its digits, from any other state it is refused and changes nothing |
| `PairingSlot.OneDevicePerBegin` | crates/clipsed/src/pairing.rs:98-199 | Of two pairings, the later one's offer was begun after the earlier was over |
| `PairingSlot.AtMostEightGuesses` | crates/clipsed/src/pairing.rs:136-157 | Over every run an offer refuses at most eight wrong tags, and the eighth takes it down |
| `PairingSlot.OutOfOrderLeavesIdle` | crates/clipsed/src/pairing.rs:161-199 | An accept or a finish out of order leaves the slot idle |
| `PairingSlot.PairingState.BeginOffer` | crates/clipsed/src/pairing.rs:98-119 | From idle an offer with no wrong guesses; busy otherwise |
| `PairingSlot.PairingState.ClaimForAnswering` | crates/clipsed/src/pairing.rs:123-129 | From idle answering; busy otherwise |
| `PairingSlot.PairingState.LookUp` | crates/clipsed/src/pairing.rs:136-157 | Stale offers drop, the right tag gets the offer, wrong ones count |
| `PairingSlot.PairingState.AnswerAccept` | crates/clipsed/src/pairing.rs:161-186 | To proving, or idle on every failure |
| `PairingSlot.PairingState.FinishCeremony` | crates/clipsed/src/pairing.rs:191-198 | Paired or not, idle afterwards |
| `PairingSlot.PairingState.CancelOffer` | crates/clipsed/src/pairing.rs:201-203 | Idle from any state |
| `PairingSlot.PairingState.DropIfStale` | crates/clipsed/src/pairing.rs:207-215 | Drops exactly an offer past its deadline |
| `PngChunks.Crc32` | apps/clipse-app/src/lib/image-encode.ts:97-101 | The table-driven loop gives the bit-at-a-time division of every byte string |
| `PngChunks.ReferenceValues` | apps/clipse-app/src/lib/image-encode.ts:87-101 | The check value of nothing is 0 and that of one zero byte 0xd202ef8d, as the standard has it |
| `PngChunks.BuildTable` | apps/clipse-app/src/lib/image-encode.ts:87-95 | Entry n is eight single-bit steps of n |
| `PngChunks.TableStep` | apps/clipse-app/src/lib/image-encode.ts:97-101 | One lookup does the work of eight single-bit steps |
| `PngChunks.OneByteChangeIsDetected` | apps/clipse-app/src/lib/image-encode.ts:97-101 | Changing any one byte changes the check value |
| `PngChunks.MakeChunk` | apps/clipse-app/src/lib/image-encode.ts:105-113 | The array filled in place is length, type, body and check value |
| `PngChunks.ChunkParsesBackIff` | apps/clipse-app/src/lib/image-encode.ts:105-113 | A chunk, whatever follows it, parses back to its type and body exactly when the body is shorter than 2^32 |
| `PngChunks.AlteredChunkIsRejected` | apps/clipse-app/src/lib/image-encode.ts:105-113 | With one byte of type or body altered a chunk never parses |
| `PngChunks.ChunksParseBack` | apps/clipse-app/src/lib/image-encode.ts:105-123 | Concatenated chunks parse back to the list |

## Left out

- SessionConvergesIff: stated for stores that could not come to more than 100,000 rows, what one summary carries, by taking over what only the other knows. The stores do not change during the session. Of several rows of a content with no live one the earliest answers; SQL leaves that open.
- RowsAfterSession: the same reading of ties as SessionConvergesIff.
- SessionEffect: the same conditions as SessionConvergesIff.
- TurnEffect: the offering store holds at most 100,000 rows; the same reading of ties.
- FinishedRunConverges: the same conditions as SessionConvergesIff.
- LaterSessionsChangeNothing: the same conditions as SessionConvergesIff, and the first session buries no live row under an older tombstone; otherwise the second session may still change something, and `TwoSessionsSettle` says that the third does not.
- TwoSessionsSettle: the same conditions as SessionConvergesIff.
- NextSessionSaysTheSame: the same conditions as SessionConvergesIff, and the first session buries no row of that content.
- DeletionReachesPeerIff: the same conditions as SessionConvergesIff, the change made before the session starts.
- SecondDeletionIsLost: the same conditions as SessionConvergesIff, the change made before the session starts; two sessions, not any number.
- PinReachesPeerIff: the same conditions as SessionConvergesIff, the change made before the session starts. A tombstone that does not answer, or one that buries a live clip of the peer, is not covered.
- CopyReachesPeerIff: the same conditions as SessionConvergesIff, the change made before the session starts.
- OffersItsHistory: the store holds at most 100,000 rows.
- SessionDelivers: the same conditions as SessionConvergesIff.
- SessionReportsNewest: the same conditions as SessionConvergesIff.
- StoreStaysTrue: other users of the store put blobs under their own digest, as every caller does.
- BlobIsAskedForIff: the offering store holds at most 100,000 rows.
- MissingBlobIsNotAskedForAgain: the same conditions as LaterSessionsChangeNothing.
- NewestStampIsLearnt: every device holds one row of a content, and all of them together at most 100,000 contents. With two rows stamps can go back (`Convergence.OldTombstoneAnswers`).
- SameSourcesSameHistory: the same conditions as NewestStampIsLearnt.
- NewestStampIsHeard: the same conditions as NewestStampIsLearnt, and no device's row of the hash is one that peers refuse.
- SameHearsaySameHistory: the same conditions as NewestStampIsHeard.
- HeardButNotLearnt: the same conditions as NewestStampIsLearnt.
- TagIdentifiesCode: tags are whole digests here, not their first 16 bytes.
- EveryRunGoesOn: a store does not change within one step of an endpoint, in particular not between the lookup and the writes of one merged clip (`MergeRaces.RacedApplyFailsIff` and `MergeRaces.LocalChangeSurvivesIff` say what then happens to that merge, not to the run around it), or between reading a blob and sending it. I/O failures, time-outs and disconnections are not modelled.
- WithoutDigitsNoForgery: symbolic; guessing six digits, on line or from a tag, is not modelled.
- The session programs are modelled on values, as two machines and their streams, with the taking side's loops also in place on the store object; recording into the loop guard and announcing to user interfaces inside `apply`, and the epoch, label and platform fields of the greeting, are not modelled.
- MessagePack is a parameter: any deserialiser, which may refuse a body.
- The sampling of a pairing code from random bytes is not modelled.
- The handshake (Noise IK, X25519) and the trust set it consults are not modelled; two established sessions start in agreement.
- The SQL engine, the full-text tokeniser (a predicate on text here) and the file system, including a crash between a file and its row, are not modelled.
- The rest of the image encoder (BMP, PNG headers, scanlines, deflate) is not modelled.
- Transport, discovery, tailnet and IPC code, peer-management loops and timers, request dispatch, the desktop app and the platform clipboard backends are not modelled.
- Backoff, trust epochs, configuration and paths would only add easy members.
