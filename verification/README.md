# Verification of quiksync's copy core

A Dafny 4.11 model of the parts of quiksync that decide whether the right bytes arrive: the
content-defined chunker, the delta transfer with its atomic write session, the signature
caches, the mid-hop relay, the framed RPC of the daemon, and the small concurrent machines
beside them. `dafny verify dfyconfig.toml` checks everything.

Code that the program runs step by step is modelled as methods and classes (`StreamChunks`,
`Diff`, `LocalSession`, `TryTransfer`, `TransferOne`, `Send`, `Recv`, `Helper`,
`LockedStreamReader`, `ClientWrite`, `ObjectSession`, `Registry`, `SharedLimiter`,
`DeleteExtras`), each tied to a function that says what one call does; and what these functions
do is said once more in the fields they read and change, without them. Properties over
interleavings are proved on event machines built from the same functions, over every sequence
of events, and each machine has runs that do the work.

Shared assumptions:

- BLAKE3 is ideal: equal digests mean equal contents, and no content has the zero digest,
  which marks an absent file (`Base.Digest`).
- LZ4 and zstd are lossless; what they make of the data is arbitrary (`Ranges.Encode`).
- JSON is lossless; its size is a parameter. Only the 32 MiB read cap looks at it.
- A rename is atomic, and removing a directory that is not empty fails.
- Failures, crashes, other processes, clocks and what a reader hands out are nondeterministic.
  `stable` says of a source, and `quiet` of a destination path, that nobody else changes it;
  `calm` that no access fails; `Others` what the other users of a relay store may do.

| file | models |
|---|---|
| Base, Chunker, Streaming, ChunkerLaws, CutLaws | internal/chunk/chunk.go |
| Ranges | internal/transport/reuse.go, internal/compress/compress.go |
| Delta | internal/delta/delta.go |
| WriteSession, NeverTorn | internal/transport/local/local.go |
| SignatureCache, CacheRuns | internal/index/cache.go |
| Endpoints, Transfer, Evidence, Engine, EngineLimits | `tryTransfer` in internal/engine/engine.go |
| Outcomes, Workers, Mirror, Sync | `transferOne`, `Run`'s counters, `deleteExtras`, and a whole sync, there |
| RelayManifest, RelayPublish, RelaySend, RelayRuns | the sending half of internal/relay/relay.go |
| RelayStage, RelayRecv, RelayRoundTrip | the receiving half, and both together |
| Frames | internal/protocol/protocol.go |
| RpcServer, RpcClient, RpcSession, RpcRuns, RpcFiles | internal/transport/daemon/helper.go and quic.go |
| S3Signature | signatures and write sessions in internal/transport/s3/s3.go |
| WakeRegistry | internal/transport/daemon/relay_signal.go |
| Limiter | internal/transfer/limiter.go |

Where the code does not do what one would expect, the model follows the code, and a lemma says
exactly when it does:

- A non-zero `AvgSize` that is a multiple of 2^30 normalises to an empty buffer. `readFill`
  then reports nothing, not even the end of the file, and `streamChunks` loops for ever;
  with any other value it terminates (`ZeroBufferIff`, `ReadFill`, `StreamChunks`).
- The range checks let a 64-bit offset of at least 2^63 wrap into the file
  (`WrappedRangeAccepted`). Only the operating system's refusal of negative offsets keeps
  such a write out (`WriteAcceptedIff`, `ReuseAcceptedIff`).
- A cached destination signature may have chunks longer than the 256 KiB cap on reuse. An
  undisturbed attempt that comes to the transfer puts the file in place exactly when every
  chunk passes its cap, against the one signature that stands for the destination
  (`CopiesIff`); it always does when the cached chunks are at most 256 KiB. At an average of
  1 MiB there are files and a cached entry, itself left by a copy, for which every attempt
  fails, whatever the journal holds, and leaves the entry for the next (`LargeCachedChunkFails`,
  `FailsEachTime`).
- A compressed chunk longer than 64 MiB cannot be decoded (`DecodeEncodeIff`).
- A dry run reports the payload of the copy exactly unless no chunk is missing although the
  files differ; then it reports the whole size (`DryRunPredicts`). With the default chunking
  256 KiB of zeros brought over the same and one more byte are such a pair (`DryRunOverstates`).
- An attempt whose last journal write fails reports a failure although the file is in place.
  That write is the only way: a failed attempt leaves what nobody else changes as it was
  exactly unless it has come to that write and the write has failed (`TryTransfer`, with
  `TreeAfter`);
  the branch is reachable from every source of fitting chunks (`FailedYetPlaced`).
- A file walked at size 0 that has content when `Send` reads it is published in a manifest
  that no receiver accepts (`SentManifestValidIff`, `GrownFromEmpty`), and so is a job whose
  manifest exceeds 32 MiB (`RoundTrip`).
- `validateManifest` does not keep targets out of the receiver's own staging directory. An
  undisturbed receive of what can be served is acknowledged exactly when no target overwrites
  what is staged for a later one of other content (`Recv`, with `Promotable`), and then leaves
  every target in place exactly when none is a staging path of the job. There is a manifest
  that is acknowledged and loses a target (`StagingTargetLost`).
- On S3 a reuse at a wrapped 64-bit offset asks for a range that ends before it starts, and gets
  the whole object: it takes bytes of the right digest from the start of it
  (`RangedReuseAcceptedIff`, `WrappedReuseAccepted`).
- The relay's registry drops the wake of a legal job exactly when nobody waits for it and 1024
  other jobs are pending (`WakeDelivers`); 1025 wakes of distinct jobs are a run that loses the
  last (`WakeLost`).

## Model

| member | source | states |
|---|---|---|
| Chunker.NormalizedFromAverage | internal/chunk/chunk.go:64-84 | with only AvgSize set, 0 < MinSize < MaxSize exactly for the averages named, in particular all below 2^30, and MaxSize is 0 exactly at the non-zero multiples of 2^30 |
| Chunker.ZeroBufferIff | internal/chunk/chunk.go:64-84 | for all options, when exactly the normalised buffer is empty |
| Chunker.NormalizedKeeps | internal/chunk/chunk.go:64-84 | sizes that are given and in order are kept, a given average always is, and the minimum is never zero |
| Chunker.MaskForAvg | internal/chunk/chunk.go:213-224 | the loop gives a mask of as many one bits as the average has binary digits after the first, at least 8 |
| Chunker.MaskBitsBracket | internal/chunk/chunk.go:213-224 | the mask's power of two brackets the average size, and fits 32 bits |
| Chunker.FindCut | internal/chunk/chunk.go:191-211 | the scan cuts at the first position past MinSize that passes the cut test, else at MaxSize, else nowhere; no earlier position passes it |
| Chunker.FirstHitIsFirst | internal/chunk/chunk.go:199-206 | the cut taken is a hit and no earlier position is one |
| Streaming.ReadFill | internal/chunk/chunk.go:175-188 | the buffer holds its old front and then the bytes read, in order; a full buffer or the end of the file unless a read fails; with no room it reports nothing at all |
| Streaming.EmitPieces | internal/chunk/chunk.go:132-157 | the inner loop emits the next chunks of the simple definition and leaves as carry exactly the bytes without a cut |
| Streaming.StreamChunks | internal/chunk/chunk.go:107-173 | for every way the reader splits its bytes, a successful run emits exactly the recursive chunk list, with the true size and digest; a failed one a prefix; every chunk ends at the first position that passes the cut test, or is MaxSize long, or ends the file; only a wrong size hint fails a reliable run; it terminates for every non-empty buffer |
| ChunkerLaws.SignatureOfIsTrue | internal/chunk/chunk.go:107-173 | the chunks tile the input without gap or overlap, each with the digest of its own bytes |
| ChunkerLaws.ChunkSizes | internal/chunk/chunk.go:191-211 | every chunk is at most MaxSize, and every chunk but the last exceeds MinSize |
| ChunkerLaws.AppendStable | internal/chunk/chunk.go:132-157 | every chunk of x that ends at a genuine cut is a chunk of x + y: appending disturbs at most the last |
| ChunkerLaws.Resynchronise | internal/chunk/chunk.go:132-157 | two inputs with equal suffixes from boundaries p and q have equal later chunk lists, shifted by q - p |
| ChunkerLaws.GearWindow | internal/chunk/chunk.go:199-206 | modulo 2^b the wrapping 32-bit gear hash depends on the last b bytes only |
| ChunkerLaws.CutTestIsWindowed | internal/chunk/chunk.go:199-224 | with the b-bit mask of the average, equal last b bytes give equal cut tests, at any two positions of any two buffers |
| CutLaws.HitIff | internal/chunk/chunk.go:199-224 | a position passes the cut test exactly when the sum of the gear values since MinSize, each doubled once for every byte that follows, is divisible by the power of two of the mask |
| CutLaws.ChunksAtHits | internal/chunk/chunk.go:132-211 | no position of a chunk after MinSize passes the test before its last; it is MaxSize long, ends the file, or its last position passes |
| CutLaws.OnlyChunksAtHits | internal/chunk/chunk.go:132-211 | the chunk list is the only one that tiles the bytes and ends every chunk so |
| Ranges.WriteRangeIff | internal/transport/reuse.go:30-42 | exactly which ranges the write check accepts, wrap-around included |
| Ranges.ReuseRangeIff | internal/transport/reuse.go:12-26 | exactly which ranges the reuse check accepts, with its length cap |
| Ranges.WrappedRangeAccepted | internal/transport/reuse.go:30-42 | an offset beyond every file that the check alone accepts |
| Ranges.DecodeEncodeIff | internal/compress/compress.go:56-156 | decoding what was encoded gives the data back exactly when it went raw or fits 64 MiB, and never anything else |
| Ranges.EncodeIs | internal/compress/compress.go:56-103 | data goes compressed exactly when a compressor is asked for, there are 64 bytes or more and the result is shorter; nothing on the wire is longer than the data |
| Delta.Diff | internal/delta/delta.go:21-48 | the loops split the source chunks in order by whether the destination's first chunk of that digest has their length |
| Delta.PlanIff | internal/delta/delta.go:21-48 | a chunk is missing exactly when it is not reusable; reuse entries are exactly those of reusable chunks; nothing is in neither |
| Delta.HaveIsFirst | internal/delta/delta.go:26-32 | of several destination chunks of one digest the first is the one looked up |
| Delta.PlanInOrder | internal/delta/delta.go:33-47 | both lists of the plan keep the order of the source |
| Delta.LookupNeverMisses | internal/engine/engine.go:622-706 | for the chunks of one file, the missing set says exactly "not reusable", and otherwise the offset map has the chunk's own entry |
| Delta.ReuseNamesEqualBytes | internal/delta/delta.go:36-44 | under true signatures a reuse entry names a range of the old file with exactly the new chunk's bytes |
| Delta.NeedsTransferIff | internal/delta/delta.go:51-62 | no transfer is needed exactly when the destination exists with the same bytes |
| WriteSession.LocalSession.constructor | internal/transport/local/local.go:212-255 | the session begins with a staging file of the declared length and a handle on the old file |
| WriteSession.LocalSession.WriteChunk | internal/transport/local/local.go:297-312 | which writes are accepted, with which error otherwise, and what they do to the staging file |
| WriteSession.LocalSession.ReuseChunk | internal/transport/local/local.go:314-356 | likewise for reuse, with the old-file check, both range checks, the short read and the digest check |
| WriteSession.LocalSession.Commit | internal/transport/local/local.go:358-410 | the destination changes only by a rename of a staging file with the expected digest; after a failing read or sync the session is as it was, after a failing close or rename it is closed |
| WriteSession.LocalSession.Abort | internal/transport/local/local.go:444-461 | drops the staging file unless committed |
| WriteSession.AbortIsFinal | internal/transport/local/local.go:444-461 | after an Abort of a session that has not committed no write, reuse or Commit succeeds; a committed one it leaves alone |
| WriteSession.CommitRetries | internal/transport/local/local.go:358-410 | a commit succeeds exactly without a fault and with the digest asked for; after a failing read or sync it can be repeated, after a later fault never |
| WriteSession.WriteAcceptedIff | internal/transport/local/local.go:297-312 | a write is accepted exactly when it decodes and lies inside the session in unbounded arithmetic, whatever the 64-bit offset |
| WriteSession.ReuseAcceptedIff | internal/transport/local/local.go:314-345 | a reuse is accepted exactly when both ranges lie inside, the length is within the cap, and the old bytes have the digest |
| NeverTorn.RunKeepsInv | internal/transport/local/local.go:297-461 | over every interleaving, the tree is what the logged whole-file renames and removals produce, and every staging file keeps its declared length |
| NeverTorn.NeverTorn | internal/transport/local/local.go:212-461 | at every point each path holds its initial file or the whole digest-verified file of the last session that renamed onto it |
| NeverTorn.SessionFinishes | internal/transport/local/local.go:212-461 | after any run, a session that begins, writes its file and commits puts exactly that file at its path and changes nothing else, whatever other sessions do between its calls |
| SignatureCache.Cache.Get | internal/index/cache.go:53-81 | a hit needs equal size and mtime and, if one is asked for, the same average |
| SignatureCache.PutKeepsHonest | internal/index/cache.go:83-102 | putting a computed signature keeps every entry the signature of some content |
| SignatureCache.AcceptedIsTrue | internal/engine/engine.go:596-610 | an entry whose digest matches the live bytes is their true signature, chunk for chunk |
| CacheRuns.HitIsTrue | internal/index/cache.go:53-115 | over any history of puts, deletes and outside changes of the destination, a hit whose digest matches the live file is the signature that hashing it again at the entry's average gives |
| CacheRuns.StepsTell | internal/index/cache.go:53-115 | after any run a put is found as put, a dropped entry is gone, and nothing else moves |
| SignatureCache.DishonestEntryAccepted | internal/index/cache.go:53-81 | an entry not put by the engine can pass every check and still be false |
| Transfer.SendOne | internal/engine/engine.go:675-716 | the callback of the second pass: which of write, reuse and raw write happens, and what it counts |
| Transfer.SendStepWorks | internal/engine/engine.go:675-716 | an undisturbed chunk goes through exactly when it passes its cap, and then its own bytes land at its own place |
| Transfer.SendAllFills | internal/engine/engine.go:667-745 | for every source, old file, true destination signature and reuse capability the second pass succeeds exactly when every chunk passes its cap, and then staging holds exactly the source bytes, each counted once as payload or reuse |
| Transfer.SendAllPayload | internal/engine/engine.go:683-698 | the payload sent is exactly what the plan calls missing |
| Transfer.SendAllCounts | internal/engine/engine.go:675-716 | the second pass sends as many chunks as the plan calls missing; what goes over the wire is never longer than what goes in, and as long when nothing is compressed |
| Evidence.CheckJournal | internal/engine/engine.go:515-554 | what the journal decides for arbitrary journal contents, and that it drops the cached entry exactly when it forces a comparison |
| Evidence.VerdictIs | internal/engine/engine.go:519-554 | the decision in terms of the entry and the files: a line that speaks of the file (resuming, not comparing contents, complete, size and mtime as walked and as at the destination) skips it if it has a digest and both files have it, and else forces the transfer; any other line decides nothing |
| Evidence.JournalSkipMeansEqual | internal/engine/engine.go:522-543 | a skip on the journal's word means equal bytes on both sides |
| Evidence.DestSignature | internal/engine/engine.go:592-617 | on a quiet destination the signature used is determined: the cached one if it is selected by size, mtime and average, describes the live bytes and has chunks, else a fresh one, else the zero signature; exactly a stale cached entry is dropped |
| Evidence.LookIff | internal/engine/engine.go:592-617 | in the fields of the entry: it is selected by size, mtime and, if one is given, average; used if its digest is that of the live bytes and it has chunks; dropped if its digest is another |
| Evidence.UsedIsTrue | internal/engine/engine.go:592-617 | with an honest cache the signature used is the truth about the destination, its chunks within the cap of the cached entry |
| Engine.Examine | internal/engine/engine.go:584-652 | the outcome is that of the one signature that stands for the destination, and the cache keeps its entry unless it is stale; an orderly examination does not fail, and a stable source as walked is not called unstable |
| Engine.Fill | internal/engine/engine.go:667-716 | the loop of the second pass, stopping at the first error |
| Engine.Finalize | internal/engine/engine.go:717-750 | nothing is renamed unless the bytes re-read, the source's metadata and the staging digest all agree with the first pass |
| Engine.Transmit | internal/engine/engine.go:654-773 | undisturbed, it copies exactly when every chunk passes its cap, reports the counters of the second pass, and payload plus reused bytes are the file size when reuse is available; disturbed, only a whole verified file is ever exposed |
| Engine.TransmitAndRecord | internal/engine/engine.go:654-773 | after a transfer that copies, the cache has exactly the source's signature, and a failing last journal write turns the report into a failure with the file in place; after one that does not, nothing is recorded |
| Engine.CapsSuffice | internal/engine/engine.go:700-706 | with chunks of at most 64 MiB and a destination signature within the reuse cap every chunk passes |
| Engine.TryTransfer | internal/engine/engine.go:459-773 | skips are justified for arbitrary journal contents; the destination holds the file read exactly if the attempt copies or its last journal write fails, and else every path that nobody else writes is as it was; the cache stays honest; an orderly attempt has the report, the placement and the cache that the specification of an attempt computes from the entry, the files and the cache, whatever happens at other paths meanwhile; a dry run changes nothing; a copy is reported only if the source still had the walked size and mtime after the last read, and a stable source that has them is never called unstable |
| Engine.SkipsExactly | internal/engine/engine.go:515-621 | an undisturbed attempt reports a skip exactly: if the journal speaks of the file, when its line has a digest and both files have it; otherwise when size and mtime match and contents are not compared, or when the bytes are equal |
| Engine.DisprovedIsCopied | internal/engine/engine.go:522-621 | if the journal speaks of the file and its line has no digest, or one of the files lacks it, the cached entry is dropped and the file copied against a fresh signature, whatever the bytes are |
| Engine.PlacedIsRecorded | internal/engine/engine.go:752-767 | an attempt that places the file has cached the source's own signature under the file's size, mtime and average, and no attempt touches the entry of another file |
| Engine.CopiedIsSettled | internal/engine/engine.go:515-621 | the next undisturbed attempt skips a file that has been brought across, unless a journal line that speaks of it names another digest or none |
| Engine.CopiesIff | internal/engine/engine.go:654-773 | an undisturbed attempt that comes to the transfer places the file exactly when every chunk passes its cap against the signature that stands for the destination, reports a copy exactly if the last journal write works too, and otherwise leaves the cache as the look at it did |
| Engine.WouldCopyIff | internal/engine/engine.go:634-643 | an undisturbed dry run that compares contents reports a copy exactly when the journal has disproved the destination or the files differ, and places nothing |
| Engine.FailedYetPlaced | internal/engine/engine.go:759-767 | from every source of fitting chunks a failing last journal write gives a failure with the file in place |
| Engine.CopyCounts | internal/engine/engine.go:667-773 | the payload reported is what the plan calls missing, in as many chunks, and with reuse it makes up the file with the bytes reused; compression never adds to the wire bytes |
| Engine.CompareSkips | internal/engine/engine.go:619-621 | once the journal has disproved the destination, or contents differ, there is no skip |
| Engine.DryRunPredicts | internal/engine/engine.go:634-643 | for the same undisturbed attempt a dry run reports exactly the payload of the copy, unless by the two signatures nothing is missing although the files differ; then it reports the size and the copy sends nothing |
| EngineLimits.DryRunOverstates | internal/engine/engine.go:639-641 | two real files, at the default chunking, for which the dry run reports 262144 bytes and the copy sends none |
| EngineLimits.LargeCachedChunkFails | internal/transport/reuse.go:16-18 | two files and a cached entry as a copy leaves it for which every undisturbed attempt, whatever the journal holds, fails on the engine's own reuse request and leaves file and entry |
| EngineLimits.FailsEachTime | internal/engine/engine.go:700-706 | any number of attempts in a row fail on such a pair, and the cache and what nobody else writes never change |
| Outcomes.TransferOne | internal/engine/engine.go:384-439 | at most MaxFileAttempts attempts (one if that is less), exactly one outcome; whatever fails, a stable source whose place nobody else writes is settled: the file is there if it reports a copy, a skip means equal bytes or, without content comparison, equal size and mtime, and a failure has the file in place exactly if the last journal write has failed; in good order only the stable window turns attempts away, they are retried, by fresh metadata, until one is let through, none is left, or a sleep is cancelled, and the first that is let through has the outcome of its specification |
| Workers.Conservation | internal/engine/engine.go:231-336 | over any interleaving of any number of workers the counters add up to the number of entries at the join, and deletion starts only when no entry has failed |
| Workers.SerialRun | internal/engine/engine.go:231-336 | for every list of results there is a run that has exactly these, counts them and, with one for each entry, joins |
| Workers.CancelledRun | internal/engine/engine.go:231-336 | after a cancellation every entry still queued is counted as skipped, and the run joins |
| Mirror.RemoveFiles | internal/engine/engine.go:783-814 | the file loop removes exactly the listed files that are not spared, and counts them |
| Mirror.RemoveDirs | internal/engine/engine.go:815-839 | deepest first, a directory goes exactly when nothing spared is under it; a cancellation ends the loop with an error and an exact count |
| Mirror.DeleteExtras | internal/engine/engine.go:783-840 | what is left is exactly the kept, excluded and hidden entries and the directories above them, and the result is the number removed; whatever fails, and wherever it is cancelled, nothing of these is removed and the count is right |
| Sync.NextKeepsInv | internal/engine/engine.go:231-336 | no step of any worker moves or breaks an entry that is done, or the tree |
| Sync.CleanRunSyncs | internal/engine/engine.go:231-336 | over every interleaving of any number of workers, whatever fails: a run that joins uncancelled and without a failed entry has every directory of a stable source in place and every file, byte for byte if contents are compared, else at least of its size and mtime |
| Sync.CleanRunExists | internal/engine/engine.go:231-336 | from every destination in which no file stands where the source has a directory, nor the reverse, there is a run that joins clean, with the source in place |
| Sync.DeleteAfterRun | internal/engine/engine.go:320-345 | deletion after such a run never disturbs an entry of the source; if nothing fails the destination is exactly the source, the excluded and hidden entries, and the directories above those |
| RelayManifest.ValidateFile | internal/relay/relay.go:505-529 | accepts exactly the entries whose chunks meet the wrapping accumulator |
| RelayManifest.Validate | internal/relay/relay.go:485-503 | accepts exactly the manifests of this schema and job with valid entries and distinct paths |
| RelayManifest.AcceptedIffContiguous | internal/relay/relay.go:505-529 | within the 32 MiB JSON cap an entry is accepted exactly when its chunks tile the file from 0 |
| RelayManifest.WrappedCoverAccepted | internal/relay/relay.go:513-527 | without that cap 2^38 chunks pass for an empty file |
| RelayPublish.UploadKeeps | internal/relay/relay.go:244-259 | uploading a chunk stores it under its own digest and disturbs no other object, also when Stat fails for an object that exists |
| RelayPublish.AssembleTiles | internal/relay/relay.go:232-264 | stored chunks, end to end, are the file |
| RelaySend.SendFile | internal/relay/relay.go:232-265 | on a store that others write too, a finished entry is backed by stored objects and nothing is lost |
| RelaySend.Send | internal/relay/relay.go:202-301 | success exactly when the walk gives readable files that match their size hint (when nothing fails); the published manifest is that of the files and fully backed; wherever a Send stops on a store whose job nobody else writes, manifest and notify marker are as before if a file cannot be sent, a new manifest is that of all the files and backed, and the marker is new only beside it |
| RelaySend.ManifestNames | internal/relay/relay.go:227-265 | the manifest names the walked files in order, each with its walked path, size and mtime and with the digest and the chunks of what was read |
| RelaySend.SentManifestValidIff | internal/relay/relay.go:232-288 | what Send publishes passes validateManifest exactly when every path is clean and distinct, every file was walked at its true size, and no chunk exceeds 64 MiB |
| RelaySend.GrownFromEmpty | internal/relay/relay.go:239-264 | a file that grew from size 0, sent but never valid |
| RelayRuns.NextKeepsInv | internal/relay/relay.go:220-301 | no step of any sender or receiver breaks the store, and no object ever changes |
| RelayRuns.PublishSafety | internal/relay/relay.go:220-301 | over every interleaving of sends, receives and crashes: objects hash to their names, every visible or held manifest can be read back in full, and lease, manifest, notify and ack appear in order |
| RelayRuns.SenderPublishes | internal/relay/relay.go:202-301 | after any run a sender left to itself leaves the manifest of all its files, announced, under its lease, and a receiver that reads it acknowledges all of them |
| RelayStage.Fetch | internal/relay/relay.go:595-615 | whatever the store holds, only bytes of the wanted digest and length come back |
| RelayStage.ServedFills | internal/relay/relay.go:531-593 | from any leftover staging content, with or without reuse, a backed entry fills the session with its bytes |
| RelayStage.Materialize | internal/relay/relay.go:531-593 | the staged path gets a file of the manifest's digest or nothing changes; a backed entry succeeds, with honest writers in the store and any at other paths |
| RelayStage.Promote | internal/relay/relay.go:377-412 | the target gets the staged bytes, re-checked for size and digest, or nothing changes; at the rename it is complete whoever else writes there |
| RelayRecv.StageAll | internal/relay/relay.go:354-362 | staging touches staging paths only |
| RelayRecv.PromoteAll | internal/relay/relay.go:363-367 | at every point each target is old or complete |
| RelayRecv.Recv | internal/relay/relay.go:319-375 | for arbitrary store contents, any number of polls, other writers on both sides and a crash anywhere it is fail-closed; every rename onto a target exposes complete content, and an ack needs all of them; undisturbed, what can be served is acknowledged exactly when it is promotable, and an acknowledged receive leaves all targets complete exactly when none is a staging path; the store gets the ack and nothing else |
| RelayRecv.CompleteIffApart | internal/relay/relay.go:354-367 | the clean-up spares every target exactly when no target is a staging path |
| RelayRecv.StagingTargetAccepted | internal/relay/relay.go:485-503 | a manifest with such a target is valid, served by any store, and promotable |
| RelayRecv.StagingTargetLost | internal/relay/relay.go:319-375 | received undisturbed it is acknowledged, and its second target is gone |
| RelayRecv.WaitForJob | internal/relay/relay.go:426-483 | the wait ends well only on a published job, and when nobody else touches the job exactly then, whatever the number of polls |
| RelayRoundTrip.StableIsValid | internal/relay/relay.go:505-529 | the manifest of a stable tree in chunks of at most 64 MiB is valid |
| RelayRoundTrip.SentIsServeable | internal/relay/relay.go:319-375 | what Send leaves in the store is all that a receiver needs |
| RelayRoundTrip.RoundTrip | internal/relay/relay.go:202-375 | Send and Recv make every file byte-equal to the source, while other jobs add to the store and others write other paths, from any leftover and with or without reuse; a manifest over 32 MiB is sent but refused |
| Frames.Stream.WriteMsg | internal/protocol/protocol.go:64-79 | appends one encoded frame, or nothing if the payload exceeds 64 MiB |
| Frames.EncodedIs | internal/protocol/protocol.go:64-79 | a frame is its type, the payload length in four bytes, most significant first, and the payload |
| Frames.Stream.ReadMsg | internal/protocol/protocol.go:81-98 | takes one frame off the stream or fails |
| Frames.ParsedIsEncoded | internal/protocol/protocol.go:81-98 | whatever is read as a frame is the encoding of that frame |
| Frames.FramesRoundTrip | internal/protocol/protocol.go:64-98 | any sequence of messages written is the sequence read, with what follows left on the stream |
| Frames.TruncatedFrameIsError | internal/protocol/protocol.go:81-98 | a message cut short is never read as a shorter one |
| RpcServer.Helper.Turn | internal/transport/daemon/helper.go:100-441 | what each request does to the session and the tree and which frames it appends to the byte stream, in every branch |
| RpcServer.EveryRequestAnsweredOnce | internal/transport/daemon/helper.go:100-441 | whatever fails, each request yields data frames and then exactly one terminal frame |
| RpcServer.SessionAfter | internal/transport/daemon/helper.go:205-374 | when a request opens, keeps and ends the helper's session |
| RpcFiles.OnlyOkMovesFiles | internal/transport/daemon/helper.go:100-441 | the files move only with an OK to a Commit or a Remove |
| RpcFiles.RemoveAnswered | internal/transport/daemon/helper.go:393-409 | an OK to a Remove means that the path is gone and nothing else has changed |
| RpcFiles.BeginAnswered | internal/transport/daemon/helper.go:205-229 | when BeginWrite is answered OK, and the session it then opens |
| RpcFiles.WriteAnswered | internal/transport/daemon/helper.go:230-254 | a WriteChunk is answered OK exactly when it decodes and lies inside the session; then its bytes are at its offset of the staging file and nothing else has changed; refused, it costs the session |
| RpcFiles.ReuseAnswered | internal/transport/daemon/helper.go:255-292 | likewise a ReuseChunk, with the bytes at its old offset of the old file, which have its digest |
| RpcFiles.CommitAnswered | internal/transport/daemon/helper.go:341-366 | a Commit is answered OK exactly when the staging file has its digest and nothing fails; then that file is at the path and every other path is as it was; refused, it leaves all files alone |
| RpcFiles.OthersAnswered | internal/transport/daemon/helper.go:112-204 | the other requests move nothing, an Abort drops the session, and a read is answered with its pieces in order and a final OK or error |
| RpcFiles.RunKeepsLive | internal/transport/daemon/helper.go:230-374 | after any run of client calls an open session is uncommitted and its staging file has the declared length |
| RpcServer.Helper.Send | internal/transport/daemon/helper.go:443-446 | the stream carries exactly one more reply |
| RpcServer.CarriesFrames | internal/protocol/protocol.go:64-98 | a byte stream that carries replies is the encodings of as many frames, end to end, each meaning its reply |
| RpcClient.LockedStreamReader.Read | internal/transport/daemon/quic.go:301-332 | one Read: from the rest of a frame, the next frame, or the end |
| RpcClient.LockedStreamReader.Close | internal/transport/daemon/quic.go:334-352 | drains the reply and unlocks if this reader still holds the lock, once |
| RpcClient.ReadInOrder | internal/transport/daemon/quic.go:301-332 | with any buffer size a Read hands out the next bytes of the reply and ends only when none is left |
| RpcClient.ReadManyInOrder | internal/transport/daemon/quic.go:301-332 | over any buffer sizes the bytes come in order, without loss or repeat |
| RpcClient.DrainConsumesReply | internal/transport/daemon/quic.go:334-352 | Close consumes exactly through the terminal frame |
| RpcClient.Client.ReadMsg | internal/protocol/protocol.go:81-98 | what the client parses from the bytes is the oldest unread reply, and only that is consumed |
| RpcClient.ReaderGetsWhatServerRead | internal/transport/daemon/helper.go:156-204 | from the server's reads to the client's, the file's bytes arrive in order |
| RpcSession.Call | internal/transport/daemon/quic.go:238-282 | one request, one frame, and the lock free again |
| RpcSession.BeginWrite | internal/transport/daemon/quic.go:398-411 | the lock is kept exactly when the helper has opened a session |
| RpcSession.ClientWrite.Chunk | internal/transport/daemon/quic.go:413-438 | a local refusal sends nothing; otherwise the helper's verdict |
| RpcSession.ClientWrite.Commit | internal/transport/daemon/quic.go:490-505 | releases the lock on success only |
| RpcSession.ClientWrite.Abort | internal/transport/daemon/quic.go:507-523 | ends and releases, whatever the helper answers |
| RpcFiles.CallAnswered | internal/transport/daemon/quic.go:238-282 | on an idle stream a call returns the one answer to its own request |
| RpcFiles.SessionEnds | internal/transport/daemon/quic.go:490-523 | an Abort always ends the session and frees the lock; a Commit does so exactly if it is answered OK |
| RpcFiles.WholeFile | internal/transport/daemon/quic.go:398-505 | BeginWrite, writes and reuses that tile a file, and Commit are all answered OK exactly when the helper can take every chunk, nothing fails and the digest is that of the file; then the helper's tree has exactly that file, and otherwise it is as it was |
| RpcRuns.NextKeepsInv | internal/transport/daemon/quic.go:284-523 | every client call keeps the stream in lockstep |
| RpcRuns.Lockstep | internal/transport/daemon/quic.go:398-523 | after any run: a free lock means no unread reply, an empty byte stream and no helper session, so the next BeginWrite is not "already active"; an ended session has unlocked exactly once; closing or aborting always frees the lock |
| RpcFiles.RunPutsFile | internal/transport/daemon/quic.go:398-523 | such a write is a run on a free connection, which ends it free, the lock released once |
| RpcFiles.RunReadsFile | internal/transport/daemon/quic.go:284-352 | opening and reading a file on a free connection hands out what the helper reads, in order, all of it at the end, and Close leaves the connection free |
| S3Signature.ObjectSession.Commit | internal/transport/s3/s3.go:464-521 | on a bucket nobody else writes, a success leaves the object with these bytes and the digest of them in its metadata, a true signature of them as its sidecar, and all else as it was; a failure leaves the bucket as before, the object alone, or, answered wrongly, both; only digest-checked staging bytes of the declared size are ever put |
| S3Signature.PutsCommit | internal/transport/s3/s3.go:487-515 | the first put changes the object only, and both together are the commit |
| S3Signature.CommittedIsSigned | internal/transport/s3/s3.go:276-342 | after a commit the sidecar is accepted and true; for an empty file, whose signature has no chunks, hashing the object gives the true one |
| S3Signature.RunCommitsAndRemoves | internal/transport/s3/s3.go:255-270 | after any run the requests of a commit leave what a commit leaves, and those of a removal neither object nor sidecar |
| S3Signature.ObjectSession.WriteChunk | internal/transport/s3/s3.go:387-402 | which writes the staging file takes, and with which error otherwise |
| S3Signature.ObjectSession.ReuseChunk | internal/transport/s3/s3.go:421-462 | whoever replaces the object between the two requests, an accepted reuse puts the bytes of the digest asked for; undisturbed, exactly the checks of the source decide |
| S3Signature.RangedReuseAcceptedIff | internal/transport/s3/s3.go:421-462 | a reuse is accepted exactly when the object is as it was at the start, the new range lies inside, the length is within the cap and the bytes at the old offset, or at the start of the object if that offset wraps, have the digest |
| S3Signature.WrappedReuseAccepted | internal/transport/s3/s3.go:444-462 | ten bytes asked for at offset 2^64 - 5 are accepted from the start of the object |
| S3Signature.ObjectSession.Abort | internal/transport/s3/s3.go:523-535 | drops the staging file unless committed |
| S3Signature.Store.Remove | internal/transport/s3/s3.go:255-270 | nothing but the object and its sidecar goes, the object first; after a success both are gone |
| S3Signature.Store.GetSignature | internal/transport/s3/s3.go:276-304 | whatever fails and whoever writes between its requests, what comes back is the true signature of the object at the request that settles the answer; undisturbed it is the sidecar exactly if that is bound to the object, else what hashing the object gives |
| S3Signature.AcceptedSidecarIsTrue | internal/transport/s3/s3.go:320-342 | a sidecar read in one reachable state and found bound in a later one is the true signature of the live object, whatever crashed and whoever shares the sidecar |
| S3Signature.FastAgreesWithSlow | internal/transport/s3/s3.go:276-342 | in every reachable state the fast path equals hashing the object |
| S3Signature.DishonestyIsAccepted | internal/transport/s3/s3.go:320-342 | a forged sidecar, and false metadata, pass the check |
| WakeRegistry.Registry.Wake | internal/transport/daemon/relay_signal.go:43-64 | takes all waiters and closes each once, or marks the job pending if there is room |
| WakeRegistry.Registry.Register | internal/transport/daemon/relay_signal.go:66-92 | a pending job returns at once; else at most 64 waiters queue |
| WakeRegistry.Registry.Leave | internal/transport/daemon/relay_signal.go:94-106 | removes this waiter only, and the entry when it was the last |
| WakeRegistry.LeaveIs | internal/transport/daemon/relay_signal.go:94-106 | the other waiters of the job stay registered, in order, and so does every other job |
| WakeRegistry.WaitIs | internal/transport/daemon/relay_signal.go:66-92 | when exactly a wait returns at once, queues behind the others, or is refused |
| WakeRegistry.RegistrySafety | internal/transport/daemon/relay_signal.go:43-114 | over every interleaving: never pending and waited on, at most 64 waiters and 1024 pending jobs, no channel closed twice |
| WakeRegistry.TakenAreClosed | internal/transport/daemon/relay_signal.go:61-63 | the channels a wake has taken are closed, all of them, whatever else happens |
| WakeRegistry.WakeDelivers | internal/transport/daemon/relay_signal.go:43-92 | a wake reaches every registered waiter, or makes the next wait return at once whenever it comes, unless 1024 other jobs are pending, when it is lost |
| WakeRegistry.QueuedIsWoken | internal/transport/daemon/relay_signal.go:43-106 | a waiter that has queued and not left is woken by the next wake of its job, whatever other waits, wakes and leaves come between |
| WakeRegistry.WakeLost | internal/transport/daemon/relay_signal.go:56-60 | a concrete run of 1025 wakes that loses the last: the next wait for its job queues |
| Limiter.SharedLimiter.Wait | internal/transfer/limiter.go:35-78 | grants exactly n unless cancelled; with any turns of other callers in between, all grants together stay within what the clock has earned; a caller that goes on waiting has left no token, and one that is alone gets exactly what was there and what the clock has earned, below the capacity |
| Limiter.BucketBound | internal/transfer/limiter.go:35-78 | over any interleaving of callers and any clock readings, even backwards: tokens stay in [0, capacity] and grants within tokens plus rate times elapsed time |
| Limiter.WindowBound | internal/transfer/limiter.go:20-78 | no window grants more than one second's burst plus rate times its length |
| Limiter.TurnExact | internal/transfer/limiter.go:45-74 | a turn grants the tokens there, with what the clock has earned since and up to the capacity, as far as they are wanted, and the rest stays |
| Limiter.FreshBurst | internal/transfer/limiter.go:20-33 | a fresh limiter grants a full second's burst at once, and not more |
| Limiter.RunAdds | internal/transfer/limiter.go:35-78 | the turns of a run add up, one after the other |

## Left out

- Directories (but for Sync) and symbolic links in `tryTransfer`, file modes, the stable-window clock and the TestBeforeCommit hook: only regular files are modelled, and "not stable yet" is a nondeterministic verdict.
- The local transport lists directories in Walk, and `Send` then fails on opening one; `Send` is modelled on the files it is given, of which any may be unreadable.
- Path cleaning and confinement: paths are opaque strings, `clean` is an arbitrary predicate in the relay, and distinct strings are taken for distinct files.
- The cross-device copy in Commit, which is not atomic, and the 24-hour sweep of staging files.
- The gear table's values are a parameter; every result holds for every table (the two examples on runs of zeros need an odd entry for the byte 0, as the table has).
- LZ4, zstd and BLAKE3 themselves, and JSON encoding beyond its size.
- Autotune: codec, chunk size and worker count are arbitrary parameters.
- SignatureCache.Cache.Put: does not model a failing write of the cache's own file, which the engine ignores; such a file is missing, old or unreadable, so the cache stays honest.
- Evidence.CheckJournal: does not model the journal's own file; every attempt may find any entry. The cache is one attempt's own while it runs: other workers' entries are other files.
- Sync.CleanRunSyncs: takes a source that does not change during the run, and no symbolic links; a worker's steps are its look, its rename and its report, which carries what `TransferOne` ensures.
- `relay.GC`, which removes objects before the manifest and is outside the publish invariant.
- RelayRecv.WaitForJob: takes a signal from the daemon for one more tick; ticks are a number, not times.
- Frames larger than 64 MiB in the helper's replies (a huge walk or signature), which end the connection, and the hello exchange.
- RpcClient.LockedStreamReader.Read: does not model one handle used by several goroutines at once.
- Limiter.SharedLimiter.Wait: does not model float rounding or the length of sleeps; times and tokens are reals.
- S3Signature.ObjectSession.Commit: does not model the session's mutex; its calls come one at a time. An ETag stands for the digest of the body.
- The NFS, SSH, SMB and QUIC plumbing, the CLI, progress reporting and logging.
- The slice of waiters that a wake has taken is not changed by a later in-place deletion, because its table entry is gone by then; in the model both are values, so this aliasing is not captured.
- Stats of bytes, elapsed time and ratios in `Run`; only the outcome counters are summed.
