# guix-p2p, modelled and verified

guix-p2p lets Guix machines fetch substitutes (nars) from one another. This
project models its daemon in Dafny and proves what its parts promise. The heart
is the multi-peer block downloader: a nar is cut into blocks, peers advertise the
blocks they hold, a scheduler spreads requests over them, and a ledger accepts
only blocks whose SHA-256 matches the advertised list. Around it stand the local
nar store that serves blocks, the Nix base-32 hash decoder, the socket protocol
between daemon and relay, the handling of one substitute request from lookup to
terminal reply, the HTTP fallback, peer selection and handshakes, the persistent
peer list, the dashboard's accounts, and the calendar arithmetic of the
end-to-end reports.

Check everything with `dafny verify dfyconfig.toml`.

## How it is built

Objects that the program updates in place are classes with the same fields
(`ActiveDownload`, `BlockScheduler`, `NarStore`, `ReplyWriter`, `PeerStore`,
`Reputation`, `Connections`, `TransferRegistry`, `EventHistory`), and loops are
loops. Each method is tied to a function of the old state, and the theorems are
about those functions, for every input and every run.

- `Blocks`, `Ledger`, `Scheduler`: block geometry, the verified-block ledger, the
  in-place scheduler.
- `Invariants`, `Progress`, `DispatchQuality`: the download as a state machine
  (dispatch, answer, failure, expiry, in any order and with any payloads) and
  what every step keeps.
- `DownloadLoop`, `LoopResults`, `LoneDownload`: the loop that drives it as a fold
  over its script of clock readings and notifications, why it ends and with what.
- `StaleSlots`, `DeadEnds`, `DeadEndOffers`, `StallScript`: slots that stay taken,
  when a download can run into them, with which offers, and a script that stalls.
- `Starvation`, `StarvingCourse`: when one honest peer on time is enough.
- `NarStore`, `Serving`, `BlockSizes`: the store's index, the serving side against
  the downloader, and two block sizes.
- `NixBase32`, `Base64`, `Relay`: the codecs and the socket protocol.
- `SwarmDownload`: handshakes, block download and reward in one.
- `HttpFallback`, `Substitute`, `SubstituteSession`: one substitute request, over
  a connection that may break after any number of characters.
- `StableSort`, `PeerStore`, `PeerTables`, `Handshakes`, `Gathering`: peer lists,
  reputation and backoff, ranking, the two rounds of handshakes.
- `Transfers`, `Calendar`, `Common`: the dashboard's fold, the calendar, shared
  vocabulary.

In the table below, rows marked as main results carry the project; the others are
the steps and facts they rest on.

SHA-256 is an arbitrary function from byte strings to 32 bytes. Where collisions
would matter, a theorem assumes only that no received payload collides with a
block of the nar in question. The clock is a parameter. Wherever the program walks
a `HashMap`, the model makes an arbitrary choice.

## What the proofs turned up

Places where the code does less than one would expect. Each is proved with the
exact condition under which it does what one expects.

- The block hashes of a download come unchecked from the first handshake. When the
  list is shorter than the block count, any payload for a block past its end
  panics the download (`SomeReplyAbortsIff`, `ExitReasons`), as it does for a
  narinfo with a known size and a handshake without hashes (`ShortListPanics`); a
  list that is long enough never does (`LongEnoughNeverPanics`). The request then
  ends without a reply.
- The handshake states the provider's block size, and the downloader counts by its
  own. For a nar of known size an honest provider fits exactly when both sizes cut
  it into equally many blocks (`KnownSizeFitsIff`, `BlockSizesCanDisagree`);
  otherwise nothing is ever delivered, whatever is sent (`MisfitNeverDelivers`).
- A late answer from another peer can complete a block that is still counted in
  flight at the peer first asked. Neither a request failure (`FailureFreesSlotsIff`)
  nor expiry (`ExpiryFreesSlotsIff`) frees that slot. Once everyone who has a
  missing block is full of such slots, nothing but another answer can move the
  download (`FrozenForever`). With some offers a download can run into this while a
  connected peer has the block exactly when at least two peers take part and the cap
  on requests a peer is below the block count (`DeadEndIff`); when everybody offers
  everything, exactly when all the caps together are (`SeedsDeadEndIff`).
  `LoopCanStall` is one script, with running clocks, that exits as stalled.
- A wrong block costs its sender no failure, and ties between peers are broken in
  any way. One honest peer that offers everything and is always on time suffices,
  whatever the others send, exactly when none of them offers any block
  (`OneHonestPeerSufficesIff`); otherwise a peer with a wrong block can be asked
  for it again until the stall deadline while the honest peer is idle.
- A peer that never answers can be asked, and punished, in both rounds of
  handshakes (`PunishedTwiceIff`, `NewcomerPunishedTwice`).
- The base-32 decoder indexes out of bounds on texts of length 1, 3 or 6 modulo 8
  (`AbortsIff`). The request then ends without any reply, and an annotation of the
  store from narinfos stops at such a hash (`AnnotateFromNarinfos`).
- Bits beyond the last whole byte are dropped by the decoder, so several texts can
  decode alike (`EncodeInvertsDecodeIff`).
- An empty nar is advertised as one block, but there is nothing to serve
  (`AdvertisedIsServableIff`), and the relay rejects it (`NarArrivesIff`). A relay
  with no destination left waits for ever when a nar arrives.
- Saving a nar under a name other than its hash puts it in the index, but a restart
  drops it (`SaveKeepsSyncIff`).
- A full peer list forgets an address recorded in the same second as the entries
  already there (`RecordedSurvivesIff`, `SameSecondIsForgotten`).
- `block_count` is truncated to 32 bits (`GeometryExact`, `CountWraps`).
- The relay and the daemon read a command's destination differently when the line
  starts with white space (`DestinationsDifferIff`).

## Model

| member | source | states |
|---|---|---|
| Blocks.GeometryExact | src/swarm/block.rs:14-29 | the block count equals the number of chunks if and only if that number is positive and fits 32 bits; block size and last block size add up to the file size |
| Blocks.CountWraps | src/swarm/block.rs:21 | a file of 2^32 one-byte blocks gets block count 0 |
| Blocks.ChunksFlatten | src/swarm/block.rs:41-49 | the hashed chunks concatenate to the data |
| Blocks.ChunkAt | src/swarm/block.rs:41-49 | chunk i is the slice from i times the size, cut at the end of the data |
| Blocks.ChunksClamp | src/swarm/block.rs:14-49 | clamping the block size to the file size does not change the chunks, so both sides hash the same blocks |
| Blocks.LastChunk | src/swarm/block.rs:14-49 | the last of the chunks is the remainder, or a full block |
| Ledger.RecordedMeaning | src/swarm/downloader.rs:73-90 | recording a reply accepts exactly the in-range indices whose slot was empty and for which some payload matches; each is accepted once, with its first matching payload, and every other slot is unchanged |
| Ledger.RecordKeepsValid | src/swarm/downloader.rs:73-90 | every recorded block hashes to the advertised hash, after any reply |
| Ledger.ActiveDownload.constructor | src/swarm/downloader.rs:43-59 | a download starts with no receivers |
| Ledger.ActiveDownload.AddPeer | src/swarm/downloader.rs:61-71 | a peer gets an empty slot for every block |
| Ledger.ActiveDownload.RecordBlocks | src/swarm/downloader.rs:73-90 | the ledger and the accepted list become what the specification of a reply gives; an unknown peer changes nothing; it panics if and only if the peer is known and the reply names a block that has a slot but no hash, leaving what the entries before it recorded |
| Ledger.SomeReplyAbortsIff | src/swarm/downloader.rs:76-79 | some reply of a known peer makes recording panic if and only if the hash list is shorter than the block count |
| Ledger.ActiveDownload.IsComplete | src/swarm/downloader.rs:92-107 | true if and only if every block is held by some receiver |
| Ledger.ActiveDownload.Assemble | src/swarm/downloader.rs:109-134 | Incomplete if a block is missing; otherwise the join, size check and hash check of some choice of held copies |
| Ledger.AssembledIsVerified | src/swarm/downloader.rs:121-134 | what assemble returns has the narinfo's hash, and its size when that is known, whatever the peers sent |
| Ledger.RecordKeepsGenuine | src/swarm/downloader.rs:73-90 | with the nar's own hashes and no collision, any reply leaves only the nar's own blocks in the ledger |
| Ledger.GenuineAssembles | src/swarm/downloader.rs:109-134 | a genuine ledger assembles to the nar whichever copies are picked, with known or unknown size |
| Scheduler.BlockScheduler.constructor | src/daemon.rs:1470-1490 | all blocks pending; per peer its offered indices below the block count, nothing in flight |
| Scheduler.BlockScheduler.RequeueExpiredBlocks | src/daemon.rs:1700-1729 | exactly the in-flight blocks older than the timeout become pending, their peers lose the slot and gain one failure each, and the count is returned |
| Scheduler.BlockScheduler.RequeueInFlightBlocksForPeer | src/daemon.rs:1731-1757 | exactly the blocks in flight at the peer become pending, and its slots and failures are adjusted |
| Scheduler.BlockScheduler.RecordBlockResponse | src/daemon.rs:1602-1621 | ledger, block states and peer state all become what one reply makes of them; the number accepted is returned; a panic leaves the scheduler untouched |
| Scheduler.BlockScheduler.UpdatePeerAfterBlockResponse | src/daemon.rs:1627-1639 | the replying peer's bytes grow by the payload sizes and every index in the reply leaves its in-flight set |
| Scheduler.BlockScheduler.MarkAcceptedBlocks | src/daemon.rs:1667-1675 | exactly the accepted blocks become complete |
| Scheduler.BlockScheduler.RequeueRejectedBlocks | src/daemon.rs:1677-1698 | exactly the blocks in the reply that were not accepted and are in flight at this peer become pending |
| Scheduler.BlockScheduler.BestPeer | src/daemon.rs:1771-1785 | the peer chosen for a block has it, is below the cap and is minimal in the dispatch order; no peer is chosen only if none is eligible |
| Scheduler.BlockScheduler.DispatchBlockRequests | src/daemon.rs:1759-1802 | a greedy round over the blocks in order; the batches partition the assigned blocks, each is strictly increasing, and the returned count is their total |
| Invariants.StepKeeps | src/daemon.rs:1602-1802 | **Main result:** every dispatch, answer, failure and expiry keeps: a block in flight at a peer is counted there; a counted block is in flight there or complete; counted is within available and within the cap; a block is complete if and only if some receiver holds it |
| Invariants.InitialInv | src/daemon.rs:1461-1500 | the invariant holds at the start of every download |
| Invariants.RunKeeps | src/daemon.rs:1504-1596 | the invariant holds after every legal run |
| Invariants.AcceptedAreHeld | src/daemon.rs:1602-1621 | after a reply, the held blocks are those held before together with the accepted ones |
| Invariants.CompleteTogether | src/swarm/downloader.rs:92-107 | the ledger is complete if and only if every block state is Complete |
| Invariants.CompleteIsFinal | src/daemon.rs:1667-1757 | no step takes a block out of Complete |
| Invariants.PendingIsUncounted | src/daemon.rs:1759-1802 | a pending block is in no peer's in-flight set |
| Invariants.UnsolicitedIsIgnored | src/daemon.rs:1602-1621 | a reply from a peer outside the download changes nothing |
| DispatchQuality.RoundIsMaximal | src/daemon.rs:1769-1801 | after a round, a peer that has a block still pending is at its cap |
| DispatchQuality.GreedyIsHalfOptimal | src/daemon.rs:1759-1802 | **Main result:** any other assignment of the pending blocks within residual capacity has at most twice as many requests as the round made |
| DispatchQuality.FactorTwoIsTight | src/daemon.rs:1759-1802 | a case in which the other assignment has exactly twice as many |
| DispatchQuality.RoundKeepsBalance | src/daemon.rs:1769-1801 | when every peer has every pending block and loads differ by at most one, they still do after the round |
| Progress.EveryRunReassembles | src/swarm/downloader.rs:73-134 | **Main result:** after any run of dispatches, replies, failures and expiries, with the nar's own hashes and no collision, any choice of copies joins to exactly the nar |
| Progress.RunStaysGenuine | src/swarm/downloader.rs:73-90 | along any run the ledger holds only the nar's own blocks |
| Progress.RunFillsAccepted | src/daemon.rs:1554-1567 | the filled slots grow by exactly the number of blocks accepted over the run |
| Progress.ProgressIsBounded | src/daemon.rs:1554-1567 | **Main result:** over a run, at most peers times blocks acceptances, hence at most that many extensions of the stall deadline |
| Progress.RequestsAreConserved | src/daemon.rs:1677-1802 | **Main result:** over any run, blocks in flight at first plus requests sent equal blocks in flight at the end plus requeues plus completions |
| Progress.GivingUpIsSound | src/daemon.rs:1524-1546 | when nothing is counted in flight after a dispatch, every incomplete block is pending and no peer has it |
| Progress.RoundSendsNothing | src/daemon.rs:1759-1802 | a round sends nothing if and only if every peer that has a pending block is at its cap |
| StaleSlots.FailureFreesSlotsIff | src/daemon.rs:1731-1757 | a request failure leaves the peer with no slot counted if and only if none of its counted blocks was already complete |
| StaleSlots.RoomAfterFailure | src/daemon.rs:1731-1757 | the slots a failed peer keeps are exactly its counted complete blocks |
| StaleSlots.ExpiryFreesSlotsIff | src/daemon.rs:1700-1729 | after an expiry pass the peer keeps exactly its counted blocks that have not expired, complete ones among them; it is free of all if and only if none was complete and all had expired |
| StaleSlots.StaleSlotStays | src/daemon.rs:1602-1802 | a complete block counted at a peer stays counted there through every step but that peer's own answer naming it |
| StaleSlots.FrozenForever | src/daemon.rs:1514-1592 | when nothing flies, a block is missing and whoever has it is full, no requeue, dispatch round, failure or silent second changes anything, for as long as no answer comes |
| StaleSlots.FrozenIsIncomplete | src/daemon.rs:1504-1600 | **Main result:** from such a state, without an answer, the loop ends by a deadline or a receive error, never by giving up, and the download fails |
| DeadEnds.FrozenIff | src/daemon.rs:1514-1546 | these states are exactly those with a block missing that the loop does not give up on and that no expiry and no dispatch round changes |
| DeadEnds.RoomPreventsDeadEnds | src/daemon.rs:1759-1802 | in such a state, a connected peer can have a missing block only if the cap is below the number of blocks it offers |
| DeadEnds.OnePeerRun | src/daemon.rs:1602-1802 | in any run with a single peer no complete block is ever counted at it |
| DeadEnds.DeadEndIff | src/daemon.rs:1454-1600 | **Main result:** for every non-empty nar and every setting, some run of the loop reaches such a state with a missing block at a connected peer if and only if there are at least two peers and the cap is below the block count |
| DeadEndOffers.DeadEndPacks | src/daemon.rs:1602-1802 | for any offers: where a run dead-ends for want of a block, every peer offering it has a cap's worth of other blocks of its own offer, no block for two of them |
| DeadEndOffers.DeadEndNeedsHolders | src/daemon.rs:1504-1802 | so there are two peers at least, and the caps of those offering the missing block together fall short of the block count |
| DeadEndOffers.FirstOfSoleNeverLacks | src/daemon.rs:1759-1802 | no run dead-ends for want of the first block a peer offers if nobody else offers it |
| DeadEndOffers.PackingIsNotEnough | src/daemon.rs:1759-1802 | offers that have such blocks to spare, and on which no run dead-ends |
| DeadEndOffers.SeedsDeadEndIff | src/daemon.rs:1454-1600 | **Main result:** when every peer offers every block, some run dead-ends if and only if there are at least two peers and all their caps together fall short of the block count |
| StallScript.LoopCanStall | src/daemon.rs:1504-1600 | a script with increasing clocks and any number of silent seconds after which the loop exits as stalled, although a connected peer has the missing block and nothing is in flight |
| DownloadLoop.LargeNarsGetTransferTime | src/daemon.rs:1437-1452 | the overall timeout leaves, beyond the stall timeout, time for the nar at the assumed minimum rate, unless the sums saturate |
| DownloadLoop.DownloadBlocksFromPeers | src/daemon.rs:1454-1600 | **Main result:** the loop does exactly what the fold over its script says: per turn requeue, a greedy dispatch round, the tests in order, one notification; its exit is that of the fold, it returns nothing if and only if it panicked, otherwise the result is decided by the ledger the fold ends with, and returned data has the narinfo's hash and size |
| DownloadLoop.ReturnedIsVerified | src/daemon.rs:1580-1599 | returned data has the expected hash and size, with no assumption on the peers |
| LoopResults.CourseKeeps | src/daemon.rs:1504-1598 | at every point of every run of the loop, with any script, the invariants of the state machine hold |
| LoopResults.ExitReasons | src/daemon.rs:1504-1592 | **Main result:** each of the six exits happens if and only if a turn that was reached meets its cause: overall deadline passed; stall deadline passed; nothing counted while a block is missing; a recorded reply that completes the ledger; a receive error or the end of the script; a panic, namely a reply of a known peer naming an announced block without a hash |
| LoopResults.StallDeadlineIs | src/daemon.rs:1564-1567 | **Main result:** at every turn the stall deadline is the stall timeout after the last notification that brought an accepted block, or after the start if there was none |
| LoopResults.GivingUpLosesNothing | src/daemon.rs:1539-1546 | **Main result:** when the loop gives up for want of providers, a block is missing and no peer of the download has any missing block |
| LoopResults.CompleteIffAllReceived | src/daemon.rs:1569-1571 | a download of at least one block has all of them at the end if and only if that is why it stopped |
| LoopResults.HonestOutcome | src/daemon.rs:1454-1600 | **Main result:** with the nar's own hashes and no collision, for every script and every peer behaviour, there is no panic and the result is the nar if the loop stopped because everything was received, and Incomplete otherwise |
| LoneDownload.LoneProviderIsServed | src/daemon.rs:1504-1600 | **Main result:** a lone honest provider on time: the loop ends with everything received at turn number blocks over cap, rounded up, not before, and returns the nar, for every hash function |
| LoneDownload.LongEnoughNeverPanics | src/daemon.rs:1554-1562 | with a hash for every announced block no script makes the loop panic |
| LoneDownload.ShortListPanics | src/daemon.rs:983-1000 | the geometry taken from a first handshake without hashes makes the loop panic on any one reply naming block 0, whatever its payload |
| Starvation.SoleOffererSuffices | src/daemon.rs:1504-1600 | when one peer offers every block and nobody else any, and every turn is fair to it (short of the overall deadline; nothing it owes expires or fails; what it sends is an honest answer to all it was asked, before the stall deadline; that deadline is looked at within the stall timeout of the last notification), the loop ends with everything received unless a receive error ends it, whatever the others send |
| Starvation.LoneIsFair | src/daemon.rs:1504-1600 | every download from a lone honest provider on time that is long enough to finish is such a run |
| StarvingCourse.StarvingCourseExists | src/daemon.rs:1677-1698 | when another peer offers any block, there is a run whose turns are all fair to the honest peer in that sense, and yet the loop stalls with nothing outstanding at the honest peer |
| StarvingCourse.OneHonestPeerSufficesIff | src/daemon.rs:1504-1802 | **Main result:** for an honest peer that offers every block, every run that is fair to it and that no receive error ends has everything at the end, whatever the others send, if and only if no other peer offers any block |
| NarStore.NarStore.constructor | src/nar_store.rs:88-155 | opening a store builds exactly the index of its directory |
| NarStore.NarStore.Scan | src/nar_store.rs:98-155 | a scan indexes exactly the files named by their hash, with their size, geometry and metadata |
| NarStore.NarStore.SaveWithSource | src/nar_store.rs:172-208 | the file, its sidecar and the index entry are written; the creation time is kept if the sidecar had one |
| NarStore.NarStore.SeedStorePath | src/nar_store.rs:212-240 | a failed command changes nothing; an indexed nar becomes a manual seed and keeps its path; otherwise the export is saved |
| NarStore.NarStore.AnnotateSeedStorePath | src/nar_store.rs:274-294 | a path is added exactly to an indexed nar without one, and true is returned exactly then |
| NarStore.NarStore.AnnotateFromNarinfos | src/nar_store.rs:248-271 | the narinfos are applied in order, those whose hash does not decode skipped; the call panics if and only if a hash field panics the decoder, and then has done exactly what the narinfos before it ask; the count is the number of nars that had no store path before and have one now |
| NarStore.NarStore.RemoveSeed | src/nar_store.rs:325-343 | index entry, file and sidecar go together, and the entry's description is returned |
| NarStore.SaveKeepsSyncIff | src/nar_store.rs:172-208 | after a save the index equals a rescan if and only if the name is the hash of the bytes |
| NarStore.OperationKeepsSyncIff | src/nar_store.rs:172-343 | **Main result:** every operation keeps index and directory in step if and only if it was given a true hash |
| NarStore.IndexAlwaysEqualsRescan | src/nar_store.rs:98-343 | **Main result:** after any sequence of saves, seedings, annotations and removals with true hashes, the index is what a fresh scan would build |
| NarStore.CreationTimeIsStable | src/nar_store.rs:186-240 | no operation but removal changes the creation time of a nar with a readable sidecar |
| Serving.SlicesAreChunks | src/nar_store.rs:452-478 | for any list of indices, serving returns exactly the nar's chunks at the indices in range, in the order and as often as asked |
| Serving.AdvertisedIsServableIff | src/nar_store.rs:384-478 | **Main result:** every advertised block can be served and hashes as advertised if and only if the nar is not empty |
| Serving.HonestHandshakeFitsIff | src/daemon.rs:983-1000 | **Main result:** with any block size on either side, an honest handshake leads the downloader to the nar's own blocks as the provider cuts them if and only if the nar is not empty and the downloader's count in 32 bits is their number; it counts by its own size for a known nar size, and takes the provider's count otherwise |
| Serving.SameBlockSizeFitsIff | src/daemon.rs:983-1000 | with one block size on both sides it fits if and only if there is at least one block and the count fits 32 bits |
| Serving.KnownSizeFitsIff | src/daemon.rs:994-999 | for a non-empty nar of known size and a count within 32 bits it fits if and only if both sizes give the same number of blocks |
| Serving.BlockSizesCanDisagree | src/daemon.rs:994-999 | eight bytes served in blocks of four and counted in blocks of two: four blocks, two hashes |
| BlockSizes.MisfitNeverDelivers | src/daemon.rs:983-1600 | **Main result:** when the downloader's count is not the number of the provider's hashes, every run on a nar of known size that does not panic ends as incomplete, whatever is sent that does not collide |
| BlockSizes.HonestMisfitNeverDelivers | src/daemon.rs:983-1600 | so what an honest provider announces for a non-empty nar of known size, counted in blocks of another size, delivers nothing when the two counts differ |
| Serving.HonestReplyIsAccepted | src/swarm/downloader.rs:73-90 | an honest answer to a batch of missing blocks is accepted whole and stores exactly those chunks |
| Serving.RoundSize | src/daemon.rs:1759-1802 | with one peer holding everything and idle, a round requests the cap or all pending blocks, whichever is less |
| Serving.RoundCompletesBatch | src/daemon.rs:1602-1802 | an honest dispatch-reply round completes exactly its batch and leaves the peer idle |
| Serving.LeftAfterRounds | src/daemon.rs:1602-1802 | after r rounds with a lone honest provider, the pending blocks number n minus r times the cap, or none |
| Serving.LoneProviderRounds | src/daemon.rs:1602-1802 | a lone honest provider has completed the ledger after r rounds if and only if r is at least n over the cap, rounded up |
| Serving.LoneProviderDelivers | src/swarm/downloader.rs:109-134 | after that many rounds the assembled nar is the provider's |
| NixBase32.OrAt | src/nar_hash.rs:26-52 | or-ing a byte succeeds exactly in bounds and changes that byte only |
| NixBase32.SetByteInPlace | src/nar_hash.rs:54-58 | the bits are or-ed into that byte only, and an offset out of bounds changes nothing |
| NixBase32.SetNixBase32Quintet | src/nar_hash.rs:26-52 | fails exactly when the digit's first byte is out of bounds; otherwise packs the five bits |
| NixBase32.PackedBits | src/nar_hash.rs:26-52 | packing sets exactly the digit's bits at stream positions 5i to 5i+4 and keeps the others |
| NixBase32.PackedIsPositional | src/nar_hash.rs:16-24 | **Main result:** read little-endian, the output is the base-32 value of the text modulo two to the number of output bits |
| NixBase32.DecodeNixBase32 | src/nar_hash.rs:16-24 | **Main result:** rejects texts with a foreign character, panics on texts of length 1, 3 or 6 modulo 8, and otherwise gives the little-endian bytes of the positional value |
| NixBase32.DecodeInvertsEncode | src/nar_hash.rs:16-58 | decoding undoes the encoder for every byte sequence |
| NixBase32.EncodeInvertsDecodeIff | src/nar_hash.rs:16-58 | **Main result:** encoding gives the text back if and only if the bits beyond the last byte are zero |
| NixBase32.Sha256Bytes | src/nar_hash.rs:2-10 | the optional prefix is stripped, 64 hexadecimal digits are read as hexadecimal, everything else as base 32, and only 32 bytes are accepted |
| NixBase32.NarHashRoundTrips | src/nar_hash.rs:2-10 | a digest's hexadecimal text and its 52-character base-32 text, with or without prefix, all decode to the digest |
| NixBase32.AbortsIff | src/nar_hash.rs:2-58 | the hash field panics if and only if it is a base-32 text of length 1, 3 or 6 modulo 8 |
| Base64.DecodeInvertsEncode | src/relay.rs:140-142 | the standard alphabet of section 4 of RFC 4648: decoding undoes encoding |
| Base64.AcceptedIsCanonical | src/relay.rs:140-142 | a text that decodes is the encoding of what it decodes to |
| Relay.ReplyWriter.constructor | src/daemon/protocol.rs:48-58 | a writer starts with empty channels |
| Relay.ReplyWriter.WriteLine | src/daemon/protocol.rs:61-70 | the line goes to fd 4, to the buffer, or framed to the socket buffer, by mode |
| Relay.ReplyWriter.WriteTrace | src/daemon/protocol.rs:73-79 | the trace goes to stdout, to the buffer, or framed to the socket buffer |
| Relay.ReplyWriter.WriteEnd | src/daemon/protocol.rs:120-125 | an empty line, or the socket's end mark |
| Relay.ReplyWriter.WriteNarData | src/daemon/protocol.rs:82-97 | in socket mode one base64 line per 48 KiB chunk and an end line; otherwise nothing |
| Relay.Forward | src/relay.rs:73-199 | the read loop routes every line of the stream in turn, and succeeds if and only if it ran to the end, no nar is open and a substitute got its terminal reply |
| Relay.NarArrivesIff | src/relay.rs:117-167 | **Main result:** a framed nar lands whole at the next destination if and only if it has a byte and a destination is left; an empty one fails, and one with no destination blocks |
| Relay.SocketRefinesDirect | src/daemon/protocol.rs:61-145 | **Main result:** for every sequence of lines, traces, ends and non-empty nars, what the relay writes to fd 4 and stdout is exactly what direct mode writes there, and each nar arrives byte for byte |
| Relay.SessionEndsWellIff | src/relay.rs:182-199 | a whole session ends well if and only if it is a query or a terminal reply was sent |
| Relay.DestinationsDifferIff | src/relay.rs:201-206 | daemon and relay read different destinations if and only if the line starts with white space and its trimmed text is a substitute command with a space after the path and at least one more character |
| HttpFallback.DownloadCandidates | src/http_client.rs:282-307 | the candidates are the supported entries by preference; an error names the first unsupported entry, and only when there is no candidate |
| HttpFallback.CandidatesAreStablySorted | src/http_client.rs:282-307 | the candidates are exactly the supported entries, each once, ordered by preference and in file order within one |
| HttpFallback.DownloadNarHttp | src/http_client.rs:149-224 | **Main result:** the nested loops give exactly the result described without loops: the first try that settles the matter, else the last mismatch, else the last failure |
| HttpFallback.ResolvesUniquely | src/http_client.rs:149-224 | that description determines the result |
| HttpFallback.VerifiedIff | src/http_client.rs:196-224 | **Main result:** the verified flag is set if and only if the data has the narinfo's hash, and a verified nar is returned if and only if some try matches before any body breaks off |
| HttpFallback.Attempt | src/http_client.rs:170-205 | connection errors, bad statuses and bad archives let the next URL be tried; a broken body or an undecodable narinfo hash ends the download |
| Substitute.Link.WriteNar | src/daemon/protocol.rs:99-114 | the streamed nar is the buffered framing, cut where the connection breaks, and success is reported if and only if all of it went through |
| Substitute.FetchNar | src/daemon.rs:528-672 | traces and nar are those of the policy: swarm only, swarm then HTTP, or HTTP then swarm; a panic of the swarm download ends it |
| Substitute.TrySwarmSubstitute | src/daemon.rs:420-849 | **Main result:** on a link and channels in any state, reply, destination file and store after a request are exactly those specified, for every outcome of lookups, downloads and writes, and wherever the connection breaks; a panic over the socket puts nothing on the link |
| Substitute.ServeSubstitute | src/daemon.rs:2125-2156 | over the socket, after whatever was sent before, the relay receives exactly the framed operations, cut where the connection breaks |
| Substitute.AtMostOneReply | src/daemon.rs:420-849 | **Main result:** at most one reply, always a terminal one; none if and only if the narinfo's hash or the swarm download panicked or the connection broke under the nar; success only for bytes with the narinfo's hash, a mismatch only for bytes without it |
| SubstituteSession.UnusedWayIsIgnored | src/daemon.rs:529-672 | the HTTP nar download under p2p-only, and the second way whenever the first brings the nar, has no effect on any trace, reply or ending; the narinfo is fetched over HTTP all the same |
| SubstituteSession.RefusedIff | src/daemon.rs:528-672 | once the narinfo is known and its hash readable, the reply is not-found if and only if every way the policy allows found nothing |
| SubstituteSession.MismatchIff | src/daemon.rs:674-716 | **Main result:** when the swarm data comes from the block downloader and the HTTP data from the HTTP download, a mismatch is reported if and only if the nar in hand came over HTTP with its verified flag off |
| SwarmDownload.TryP2pDownload | src/daemon.rs:854-1038 | **Main result:** a swarm download gathers handshakes, takes the geometry from the first, runs the block download over exactly their offers, and rewards every peer in the list if and only if a nar came; nar and panic are those of the download's course, and without enough handshakes there is neither |
| SwarmDownload.SwarmNarIsVerified | src/daemon.rs:1003-1033 | a nar from the swarm has the narinfo's hash, and its size when that is known |
| SwarmDownload.SwarmPanicsIff | src/daemon.rs:983-1010 | the swarm download panics if and only if it got to the block download and a turn that was reached heard a peer of it name an announced block without a hash |
| SwarmDownload.HonestSwarmAnswer | src/daemon.rs:983-1033 | with an honest first handshake there is no panic, and the answer is the nar if and only if the download received everything |
| SwarmDownload.SwarmMismatchIff | src/daemon.rs:528-716 | a request whose swarm answer is this download's reports a mismatch if and only if the nar in hand came over HTTP unverified |
| SubstituteSession.SeedingIsSound | src/daemon.rs:780-808 | seeding keeps the store's index equal to a rescan, adds at most the delivered nar under its own hash, and only if its source may be seeded |
| SubstituteSession.CutShortIsSafe | src/relay.rs:73-199 | **Main result:** wherever the connection breaks, a relay that saw a terminal reply has written the verified nar to its destination if it was delivered and nothing otherwise; if the nar did not get through it saw none |
| SubstituteSession.WholeSessionIff | src/relay.rs:73-199 | **Main result:** over a lasting connection the relay ends well if and only if the request was not aborted and a delivered nar was not empty; then fd 4 has the one reply and the destination the nar exactly on success |
| StableSort.SortedAtRank | src/peer_store.rs:116 | the stable sort puts every element at its rank: after greater keys and after equal ones listed before it |
| StableSort.SortIsPermutation | src/peer_store.rs:116 | sorting keeps the multiset of elements |
| PeerStore.PeerStore.Load | src/peer_store.rs:38-52 | loading prunes the file's entries; an unreadable file counts as empty |
| PeerStore.PeerStore.Prune | src/peer_store.rs:107-118 | the entries become the pruned ones, which are distinct, latest first, at most the maximum, and live |
| PeerStore.PeerStore.RecordAddress | src/peer_store.rs:63-88 | an existing entry is refreshed or a new one appended, then the list is pruned and saved; an unusable address changes nothing |
| PeerStore.PeerStore.RemoveAddress | src/peer_store.rs:91-105 | exactly the entries of that peer and address go, and the file is rewritten if and only if one did |
| PeerStore.RetainedIsFirstLive | src/peer_store.rs:107-115 | of every peer and address, retain keeps exactly the first entry that is recent and usable |
| PeerStore.PruneIsClean | src/peer_store.rs:107-118 | a prune leaves distinct, recent, usable entries, latest first and at most the maximum |
| PeerStore.PruneFixesIff | src/peer_store.rs:107-118 | a prune changes nothing if and only if there is nothing to prune; pruning twice is pruning once |
| PeerStore.SurvivesIff | src/peer_store.rs:107-118 | **Main result:** a retained entry survives the truncation if and only if fewer than the maximum go before it |
| PeerStore.NeverDropsTheNewer | src/peer_store.rs:117 | no retained entry is dropped while a strictly older one is kept |
| PeerStore.RecordedSurvivesIff | src/peer_store.rs:63-88 | **Main result:** a recorded address is kept if and only if it is usable and fewer than the maximum usable ones listed before it were recorded in the same second |
| PeerStore.NewSecondIsRemembered | src/peer_store.rs:63-88 | what is recorded in a new second is kept |
| PeerStore.SameSecondIsForgotten | src/peer_store.rs:63-88 | a full store forgets an address recorded in the same second as its entry |
| PeerStore.RestartKeepsLive | src/peer_store.rs:38-52 | reloading what was saved keeps, in order, exactly what is still recent and usable |
| PeerTables.MergeKeepsFirst | src/daemon.rs:1184-1187 | merging gives the members of both lists, each once, and leaves a duplicate-free first list in front |
| PeerTables.ExcludePeers | src/daemon.rs:1207-1210 | exactly the peers not excluded remain, and no duplicate arises |
| PeerTables.Reputation.RecordFailure | src/reputation.rs:72-76 | one more failure for that peer, seen now, and nothing else changes |
| PeerTables.Reputation.RecordSuccess | src/reputation.rs:64-69 | one more success and the bytes served for that peer, seen now, and nothing else changes |
| PeerTables.Connections.RecordAttempt | src/connection.rs:184-195 | one more attempt, dated now, for that peer; a new peer also gets its activity dated; nothing else changes |
| PeerTables.Connections.OnConnected | src/connection.rs:69-87 | the peer is connected, active now, with its attempts reset, and nothing else changes |
| PeerTables.Connections.OnActive | src/connection.rs:98-101 | the peer is active now, and nothing else changes |
| PeerTables.RewardProviders | src/daemon.rs:1015-1024 | after a download every handshake in the list brings its peer a success and activity |
| PeerTables.RewardIsOnceEach | src/daemon.rs:1015-1024 | for a list without duplicates each peer gains exactly one success and the bytes, nobody else changes, and no ban comes or goes |
| PeerTables.SelectProviderCandidates | src/daemon.rs:1260-1289 | the loop selects the first dialable peers of the ranking, up to the maximum |
| PeerTables.SelectionIsBest | src/daemon.rs:1260-1289 | everyone selected is a provider, unbanned and dialable, nobody twice; an eligible peer is passed over only for a full list of peers scoring no lower |
| Handshakes.HandshakeWithProviders | src/daemon.rs:1327-1420 | **Main result:** results, requests sent, connection table and reputation after a round are exactly those of the fold over its script: the first requests, then per notification an answer, a retry of everyone due, or the end, and one failure for each peer still waiting |
| Handshakes.RetryPending | src/daemon.rs:1387-1405 | after a silent second exactly the peers under three requests whose last one is three seconds old are asked again |
| Handshakes.PunishWaiting | src/daemon.rs:1411-1417 | one failure for each peer that did not answer, none for others |
| Handshakes.AnsweredIff | src/daemon.rs:1353-1383 | **Main result:** a peer is among the results if and only if it was contacted and a reply of its arrives before the deadline and before a receive error |
| Handshakes.FirstReplyCounts | src/daemon.rs:1353-1383 | every result is the first reply of its peer that arrived in time |
| Handshakes.RoundSends | src/daemon.rs:1342-1405 | a contacted peer is sent its first requests and at most two more, one for each retry; nobody else is sent anything |
| Handshakes.TableIs | src/daemon.rs:1342-1376 | after a round, who answered is connected with no attempts counted, who was only contacted has its attempts counted and dated, and nobody else changed |
| Handshakes.PunishedIff | src/daemon.rs:1411-1417 | a peer gains a failure if and only if it was contacted and no reply of its came in time |
| Gathering.GatherHandshakes | src/daemon.rs:893-985 | **Main result:** handshakes, tables and verdict are exactly those of selection, first round, fallback selection and second round in turn |
| Gathering.NobodyTwice | src/daemon.rs:893-972 | after both rounds no peer is in the list twice |
| Gathering.ContactsAreEligible | src/daemon.rs:893-961 | in both rounds everyone contacted was unbanned and dialable when selected, and the second contacts nobody who has answered |
| Gathering.FailuresAdded | src/daemon.rs:893-972 | a peer's failures grow by the number of rounds it was contacted in and stayed silent |
| Gathering.PunishedTwiceIff | src/daemon.rs:893-972 | **Main result:** one gathering punishes a peer twice if and only if it is silent in the first round, too few answered, the fallback selects it, and it is silent again |
| Gathering.SilentIsAskedAgainIff | src/daemon.rs:937-948 | when the fallback has room for its pool, it asks a silent peer again if and only if its failures at the start, plus one, are below the ban threshold, the connection table with those just contacted is not full, and its attempts with those just made are below the retry limit or their backoff is over |
| Gathering.LoneProviderPunished | src/daemon.rs:893-972 | the only known provider, silent throughout, is punished twice if, in the starting tables, its failures plus one are below the ban threshold, the connection table has room, and its attempts plus one are below the retry limit or their backoff is over; once otherwise |
| Gathering.NewcomerPunishedTwice | src/daemon.rs:893-972 | a new provider that never answers is punished twice under the program's limits |
| Gathering.OffersAreKeptIff | src/daemon.rs:1461-1490 | the download starts with every handshake's own offer if and only if no peer is listed with two different offers, as holds for a list without duplicates |
| Transfers.TransferRegistry.Observe | src/dashboard.rs:819-880 | every event has exactly its effect on the account of its nar, and all accounts stay true |
| Transfers.AccountsStayTrue | src/dashboard.rs:832-878 | **Main result:** for every nar and every whole log of events, in the registry those events leave, blocks and bytes received equal both the sums over download peers and what the log says; likewise blocks served; exactly the log's peers are listed |
| Transfers.EventHistory.Record | src/dashboard.rs:899-911 | the history is exactly the last 500 events, or all of them, with consecutive ids |
| Calendar.CivilIsValid | e2e/src/format.rs:54-66 | every day number gives a valid Gregorian date |
| Calendar.EpochIsDayZero | e2e/src/format.rs:54-66 | day 0 is 1970-01-01 |
| Calendar.CivilSteps | e2e/src/format.rs:54-66 | **Main result:** the next day number gives the next date, across month ends, leap days and centuries |
| Calendar.CivilIsIncreasing | e2e/src/format.rs:54-66 | later day numbers give later dates |
| Calendar.CountingUndoesCivil | e2e/src/format.rs:54-66 | **Main result:** counting days from the date gives the day number back, for every integer |
| Calendar.CivilUndoesCounting | e2e/src/format.rs:54-66 | every valid date comes back from its day number |
| Calendar.FieldsReconstructTimestamp | e2e/src/format.rs:42-52 | the printed fields are in range and add up to the timestamp |

## Left out

- libp2p, Kademlia, mDNS and the event plumbing of the runtime: a notification is an input, and a run is any sequence of them.
- Real clocks, timers and channels: clock readings and the choice of event are inputs. Every receive error, a closed channel or an overrun one, is the same notification, and a finite script ends with it.
- SHA-256, signatures, zstd, gzip and lzip: uninterpreted functions.
- Files, descriptors and sockets: a directory is a map and a descriptor a text that grows. Reads and writes succeed, except where `Substitute` makes their failure an input.
- Text encodings: protocol texts are sequences of characters, and a connection breaks between two of them.
- Scheduler.BlockScheduler.DispatchBlockRequests: failures are counted without the 32-bit limit of the program's counter.
- PeerTables.SelectProviderCandidates: scores are integers of an arbitrary scoring function; the floating-point formula with its decay is not modelled.
- PeerTables.Connections.OnConnected: peer addresses are not modelled, nor are disconnections.
- Handshakes.HandshakeWithProviders: the first requests of a round share one clock reading, and so do its failures.
- Gathering.GatherHandshakes: the DHT lookup and its waiting times are inputs, and connected peers come in arbitrary order rather than sorted by text.
- Substitute.TrySwarmSubstitute: the outcome of the swarm download, a panic included, is an input; `SwarmDownload` says what it can be. Build registry and dashboard events are not part of this model. When writing the destination fails halfway, what is left there is unspecified.
- SubstituteSession.WholeSessionIff: asks for texts without newlines, which paths and narinfo fields read line by line are.
- NarStore.NarStore.SaveWithSource: a failed write, after which the program's index and directory may differ, is not modelled.
- Transfers.TransferRegistry.Observe: byte totals are those of the events. The scheduler's events can over-count when one reply repeats an index.
- DeadEndOffers.DeadEndPacks: for offers that are not all complete the condition is necessary, not sufficient (`PackingIsNotEnough`): which blocks a peer is asked for also depends on block order and load, and an exact condition on arbitrary offers is not given.
- Starvation.SoleOffererSuffices: an honest answer covers all that the peer was asked and has not answered; answering one of several outstanding requests alone is not modelled as honest.
- SwarmDownload.TryP2pDownload: provider lookup and its waiting are inputs, and dashboard events are left out.
- PeerStore.PeerStore.RecordAddress: parsing and normalising multiaddresses is an input, as is the list of local interfaces.
- The have and info queries, narinfo parsing and caching, provider health checks, bandwidth limiting, configuration, command line, dashboard pages and the virtual-machine end-to-end driver: plumbing with easy claims.
