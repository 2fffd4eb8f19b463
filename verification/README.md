# CamVault: a verified model of the recording path

CamVault takes HLS segments from cameras, keeps a live window in RAM, batches segments into
recordings, encrypts each recording, seals it in a crash-safe outbox on disk and replays it to a
WebDAV store. This project models that path in Dafny and proves what it is meant to guarantee.
`dafny verify dfyconfig.toml` checks all of it.

How the modules follow the program:

- `Container`, `RangeReader` (`crypto.py`, the range readers of `storage.py` and `spool.py`): the
  chunked authenticated container; streaming encryption and decryption in any pieces equal plain
  slices. The cipher is any function pair with two laws: sealing can be undone and adds 16 bytes, and
  only what was sealed opens. A concrete pair shows that the laws are consistent. That a sealed text opens
  with its own nonce and data only is asked where it is needed, of the texts in question
  (`OpensOnlyAs`): no cipher with tags of 16 bytes has it for all texts.
- `RangeHeader` (`storage.py`): the text of a Range header.
- `Numerals`, `ArchiveGrammar`, `Stamps`, `AudioBitmap`, `ArchiveName` (`archive.py`): file names with a time
  stamp, fixed-width fields and an optional activity bitmap, printed and read back.
- `RemoteNames`, `RemoteCommit` (`storage.py`): the PUT/MOVE commit against a server that may fail, or
  answer wrongly, at any call. The server is a class; `faults` counts the calls that went wrong, so
  that "fault-free" can be said of a run.
- `SpoolDisk`, `Outbox`, `OutboxRuns`, `OutboxRecovery`, `OutboxDelivery`, `OutboxProgress`, `OutboxFailures` (`spool.py`): the outbox protocol as a state
  machine over disk, remote store and memory. Contents that were not fsynced, directory entries that were
  not fsynced, renames and removals whose parent directory was not fsynced may all come back differently
  after a power loss. A killed process loses its memory and nothing else. Every recording has its own
  entry; runs interleave the actions of all entries, crashes and restarts.
- `SpoolLedger` (`spool.py`): the byte accounting of the outbox.
- `Pipeline` (`archive.py`, `service.py`): one camera's ingest task, queue, worker, byte budget and
  shutdown, as interleaved events between suspension points.
- `Segments`, `Batching`, `LiveBuffer`, `Ingest` (`archive.py`, `buffer.py`, `service.py`): the mutable
  live segment on the heap, the accumulator and its adaptive tuner, the live window with its HLS playlist,
  and the three together.
- `Retention` (`retention.py`, `storage.py`): both retention loops against one specification.
- `Timeline` (`web.py`): the merge loop of the timeline.
- `Arithmetic`, `Wrappers`, `Bytes`: what the others share.

Results about the code that a reader may not expect:

- The clean-up of old remote media without sidecar lists first and deletes later, without looking again and
  without a lock against a running replay; it may even run in another process. A deletion is safe exactly if
  at that moment no upload of the recording has been told, or is bound to be told by a call under way, that
  its media is in place, and its directory has not been given up for the remote pair
  (`OutboxDelivery.CleanupIsSafeExactly`); in every other state it leads to the loss of the footage
  (`UnsafeCleanupLoses`). All cases occur: an upload between its media commit and its rename
  (`CleanupLosesFootage`); a retry that has heard nothing yet and is still comparing the media that it found in
  place (`ComparisonLosesFootage`); and, with no upload running at the listing nor at the deletion, an upload
  that came to its end in between (`LateCleanupLosesFootage`). The outbox theorems take it as a hypothesis that
  the clean-up deletes nothing in such a state; they let it list at any time.
- The bitmap is encoded with the exact duration and decoded with the millisecond one. The marks survive
  exactly if rounding loses no slot or no segment is active (`AudioBitmap.BitmapSurvives`); 4.0004 s is an
  instance where they move (`LostSlotExample`).
- `parse_archive_filename` raises a division by zero, which it does not catch, exactly on names whose bitmap
  step is all zeros and whose time is a legal one (`ArchiveName.ZeroStepRaises`). A number too wide for its field makes a name that does
  not parse at all (`ArchiveName.NameRoundTrip`).
- A batch whose attempt was interrupted before its clean-up cannot be persisted again by the same process, because
  the directory stays in the way; in every other state it can (`OutboxDelivery.RetrySucceeds`, `InterruptedStays`).
- A retry of a batch whose rename succeeded and whose directory fsync failed is adopted without the capacity
  check, and so can pass the outbox's limit; `SpoolLedger.Ledger.Persist` says when.
- The local retention drops too old files that it cannot delete from its report, and takes free space that it
  cannot read for none (`Retention.ApplyRetention`, `UnreadableFreeSpace`).
- A segment over the archive's memory limit stays in the live window, which then answers a repeat with
  "duplicate"; the archive never gets it (`Ingest.Recorder.Upload`).
- An unreadable Range header is answered with 416, where section 14.2 of RFC 9110 would have it ignored; the
  model follows the code.

## Model

| member | source | states |
|---|---|---|
| Container.HeaderRoundTrip | src/camvault/crypto.py:37-75 | A packed header of any legal recording parses back to itself; no field overflows |
| Container.HeaderIsCanonical | src/camvault/crypto.py:37-75 | Whatever 32 bytes parse are the packing of what they parse to |
| Container.PlaintextSizeFits | src/camvault/crypto.py:46-66 | The chunk limit keeps every legal plaintext size inside its eight bytes |
| Container.ChunkRegionsTile | src/camvault/crypto.py:78-98 | Stored chunk regions start after the header, meet without gap or overlap, and end where `encrypted_size` says |
| Container.EncryptedSpan | src/camvault/crypto.py:101-117 | A span exists exactly for ranges inside the plaintext, and its first and last chunk are those that hold the range's ends |
| Container.NoncesDiffer | src/camvault/crypto.py:120-122 | No two chunks of a recording share a nonce, wrap-around included (section 8 of NIST SP 800-38D) |
| Container.DecryptInvertsSeal | src/camvault/crypto.py:184-204 | A stored chunk opens to exactly the text of the right length that was sealed as that chunk |
| Container.AadTellsAll | src/camvault/crypto.py:125-132 | The associated data of a chunk tells the digest of its path, every field of the header, its index and its size: equal data, equal all of them |
| Container.BindingIsConsistent | src/camvault/crypto.py:125-132 | What the next row asks of the cipher can be had: for any text, nonce and data there is a lawful cipher under which it opens as nothing else |
| Container.ForeignChunkFails | src/camvault/crypto.py:184-204 | With a cipher under which a sealed chunk opens with its own nonce and data only, it opens exactly for its own path, header and index: a chunk of another path, of another recording or from another place fails |
| Bytes.BigEndianPlace | src/camvault/crypto.py:15 | Integers are written with the most significant byte first |
| Container.EncryptArchiveChunks | src/camvault/crypto.py:135-181 | However the plaintext is split, empty pieces included: of the declared length it gives the one whole stream, too short the stream of what came and an error, too long an error after a prefix |
| Container.SealFullChunks | src/camvault/crypto.py:158-166 | The inner loop leaves less than a chunk pending and stays on the one stream |
| Container.StreamMakesFile | src/camvault/crypto.py:135-181 | The emitted pieces joined are the stored file |
| Container.StoredLength | src/camvault/crypto.py:78-84 | The stored file is as long as `encrypted_size` promises |
| Container.StoredChunk | src/camvault/crypto.py:87-98 | Chunk i cut out at its offset lies in the file and decrypts to plaintext block i |
| Container.StoredHeader | src/camvault/crypto.py:69-75 | The first 32 bytes of a stored file parse to its header |
| RangeHeader.GroupsFound | src/camvault/storage.py:68 | A text matches the header pattern in one way only, and that one is found |
| RangeHeader.HeaderIsRead | src/camvault/storage.py:68-80 | With any blanks around it, a header that matches the pattern asks from the first number to the last, from the first on, or for the last so many; numbers of more than 4300 digits raise |
| RangeHeader.ClosedRangeIsRead | src/camvault/storage.py:63-76 | `bytes=n-m`, for all n and m with any leading zeros, selects the positions from n to m that there are, or nothing |
| RangeHeader.OpenRangeIsRead | src/camvault/storage.py:71-76 | `bytes=n-` selects the positions from n on |
| RangeHeader.SuffixRangeIsRead | src/camvault/storage.py:77-80 | `bytes=-n` selects the last n positions, or all if there are fewer |
| RangeHeader.NoHeaderAsksForAll | src/camvault/storage.py:66-67 | Without a header the whole recording is selected, with status 200 |
| RangeHeader.OthersAreUnreadable | src/camvault/storage.py:68-70 | A header is not read exactly if, without the blanks around it, it does not match |
| RangeReader.ResolveByteRange | src/camvault/storage.py:63-80 | The selected interval holds exactly the positions that the request names (section 14.1.2 of RFC 9110); none is selected exactly if none is named |
| RangeReader.DecryptRemoteRange | src/camvault/storage.py:730-789 | For every split of a 206 or 200 body: what is handed out and the verdict are those of reading the body in one piece; a dropped connection fails |
| RangeReader.OpenReadyChunks | src/camvault/storage.py:758-781 | Hands out every chunk that has fully arrived, and no other |
| RangeReader.LocalRead | src/camvault/spool.py:588-607 | For any file content, hands out and fails as the remote reader does for the same content |
| RangeReader.LocalPlainRead | src/camvault/spool.py:608-616 | With reads of any size, an unencrypted range is the file's slice, or the part there is and an error |
| RangeReader.ReadRangeIsSlice | src/camvault/storage.py:730-789 | On genuine bytes every output is a prefix of the wanted plaintext slice, all of it if no stored byte is missing, and an error otherwise |
| RangeReader.PartialResponseIsEnough | src/camvault/storage.py:683-711 | A 206 body of the span reads like the whole file, for any content, damaged or cut short |
| RangeReader.CompleteIsAuthentic | src/camvault/crypto.py:184-204 | For any content, a reading that completes has the promised length and drew only on chunks that were sealed at their place under this header and path |
| RangeReader.ForeignFileIsRejected | src/camvault/crypto.py:193-204 | A file whose first wanted chunk was sealed for another path, header or place gives no byte and is rejected |
| Numerals.PaddedRoundTrip | src/camvault/archive.py:216-219 | A zero-padded numeral reads back to its number, in decimal and hexadecimal |
| Numerals.PaddedWidth | src/camvault/archive.py:216-219 | A padded field keeps its width exactly if the number fits |
| ArchiveGrammar.Split | src/camvault/archive.py:72-79 | Finds only groups that the pattern allows, and only of this very name |
| ArchiveGrammar.SplitRoundTrip | src/camvault/archive.py:72-79 | Every name of the pattern splits into its own groups: the optional audio tag makes nothing ambiguous |
| ArchiveGrammar.LegacyRoundTrip | src/camvault/archive.py:82-89 | Every name of the first release splits into its own groups |
| ArchiveGrammar.PatternsAreDisjoint | src/camvault/archive.py:72-89 | No name matches both the current and the first release's pattern |
| AudioBitmap.SlotBound | src/camvault/archive.py:280-281 | At most 128 slots, and they span the recording |
| AudioBitmap.StepIsLeast | src/camvault/archive.py:280-281 | The step is the least with which 128 slots are enough |
| AudioBitmap.FillSlots | src/camvault/archive.py:278-290 | The loop marks exactly the slots that share time with an active segment |
| AudioBitmap.SlotCountsAgree | src/camvault/archive.py:242-246 | The decoder's slot count is the encoder's, but for one slot under an exact condition on the rounding |
| AudioBitmap.BitmapRoundTrip | src/camvault/archive.py:242-246 | What the decoder reads: the marks, or all but the first shifted by a slot |
| AudioBitmap.BitmapSurvives | src/camvault/archive.py:242-256 | The decoded slots are the encoded ones if and only if no slot is lost or none is marked, that is, with durations that occur, no segment is active |
| AudioBitmap.LostSlotExample | src/camvault/archive.py:242-246 | 4.0004 seconds: five slots are written, four read, the marks move |
| AudioBitmap.PointsAreOrderly | src/camvault/archive.py:247-256 | Decoded points are in order, disjoint, and inside the recording |
| AudioBitmap.ActiveTimeIsShown | src/camvault/archive.py:247-256 | Every instant of an active segment lies in a decoded point, unless a slot is lost |
| AudioBitmap.ShownTimeIsActive | src/camvault/archive.py:247-256 | Every decoded point shares time with an active segment, unless a slot is lost |
| Stamps.StampRoundTrip | src/camvault/archive.py:211-212 | Every legal local time with its offset is printed in the pattern of the name and reads back to the same time |
| Stamps.CalendarEnds | src/camvault/archive.py:238 | The calendar counts from the first to the last day that a date can have |
| Stamps.CalendarAnchors | src/camvault/archive.py:238 | Two known midnights have their known seconds: that of the year one, and that of the Unix epoch |
| Stamps.MonthsBegin | src/camvault/archive.py:238 | The months of any year begin after 0, 31, 59 or 60, ... days |
| Stamps.OffsetMovesInstant | src/camvault/archive.py:238 | A clock at +hh:mm names an instant that much before the same clock at UTC, one at -hh:mm that much after |
| Stamps.NextSecondIsOneLater | src/camvault/archive.py:238 | The next second on clock and calendar names the next instant, over the ends of minutes, hours, days, months and years, leap years included |
| Stamps.EdgesOfTime | src/camvault/archive.py:238-267 | The first second of the calendar is refused with an offset east, and the last with one west, because in UTC they are outside it |
| ArchiveName.AudioFilenameTag | src/camvault/archive.py:270-293 | The tag is that of the overlap specification, or absent without a measurement |
| ArchiveName.AudioTagFits | src/camvault/archive.py:270-293 | For every duration that fits its field, step and bitmap fit the pattern and read back |
| ArchiveName.NameRoundTrip | src/camvault/archive.py:206-267 | A printed name reads back to its start in UTC to the second, duration, sequence, stream, object id, bitmap and encryption flag if and only if its numbers fit; otherwise it is no archive name |
| ArchiveName.StreamOf | src/camvault/archive.py:116-121 | The stream of a batch is found if and only if all its segments have it |
| ArchiveName.LegacyNameRoundTrip | src/camvault/archive.py:228-267 | A name of the first release reads to its start in UTC, duration, sequence and id, with no stream and no bitmap, unencrypted |
| ArchiveName.SampleName | tests/test_archive.py:379-385 | One whole name, letter by letter, with the instant that it tells |
| ArchiveName.OverflowBreaksHead | src/camvault/archive.py:72-89 | A field that is too wide matches neither pattern |
| ArchiveName.ZeroStepRaises | src/camvault/archive.py:237-245 | Parsing divides by zero exactly if the time is legal and the bitmap step is all zeros |
| RemoteNames.NamesTellOwner | src/camvault/storage.py:57-60 | From each of a recording's four remote names its owner and role can be read, so no two recordings share one |
| RemoteCommit.Server.Put | src/camvault/storage.py:1056-1096 | The server's PUT: success stores the whole body, failure may leave anything, nothing else changes |
| RemoteCommit.Server.Move | src/camvault/storage.py:1101-1127 | MOVE with Overwrite: F (section 9.9 of RFC 4918) that may be carried out and still answered with an error |
| RemoteCommit.Server.Matches | src/camvault/storage.py:1129-1149 | A match is never claimed wrongly |
| RemoteCommit.Server.Delete | src/camvault/storage.py:1151-1157 | Best-effort removal of one name |
| RemoteCommit.Rename | src/camvault/storage.py:1098-1127 | After an unclear reply only the destination's bytes are believed; without faults it succeeds exactly if the name was free or held the same bytes, and leaves no transaction file |
| RemoteCommit.CommitFile | src/camvault/storage.py:521-539 | One file's PUT and MOVE, every server call being a step of the protocol |
| RemoteCommit.DropPartials | src/camvault/storage.py:554-559 | After a failed attempt the transaction files are deleted: without faults none is left |
| RemoteCommit.WritePrepared | src/camvault/storage.py:503-564 | Success means both commits confirmed; without faults an attempt succeeds if and only if no finished name holds something else, and leaves no transaction file either way |
| RemoteCommit.StepKeeps | src/camvault/storage.py:521-559 | One server call, or hearing its answer: finished objects are never changed, no sidecar without media, other recordings untouched, answers and confirmations true |
| RemoteCommit.AttemptKeeps | src/camvault/storage.py:521-559 | The same over every attempt, cut off anywhere; after both confirmations both bodies are in place exactly |
| RemoteCommit.Replay | src/camvault/spool.py:401-487 | Retries converge: from a store without conflict every failed attempt has cost the server a fault |
| SpoolDisk.LoadedIsExact | src/camvault/spool.py:263-280 | Because of the write order, sizes alone are enough: what loads is one sealing, byte for byte, and its digests match |
| SpoolDisk.OtherLengthsDoNotLoad | src/camvault/spool.py:263-280 | A directory that loads would not with a file of another length in it: cut files are retained, not uploaded |
| SpoolDisk.LossKeepsSound | src/camvault/spool.py:318-338 | No power loss produces a manifest beside data that it does not describe |
| SpoolDisk.LossKeepsDurable | src/camvault/spool.py:335-339 | A complete, fsynced, renamed directory survives every power loss unchanged |
| Outbox.FillKeeps | src/camvault/spool.py:320-336 | Writing and fsyncing the three files in order keeps the invariant |
| Outbox.CommitKeeps | src/camvault/spool.py:293-374 | So do sealing, mkdir, rename, acknowledging, and adopting what an earlier attempt left |
| Outbox.ClearKeeps | src/camvault/spool.py:340-347 | So does the clean-up of a failed attempt, cut off anywhere |
| Outbox.CourierKeeps | src/camvault/spool.py:401-449 | So do picking, uploading with the server's answers heard later than they are given, failing, and the rename to `.committed`, which only follows both confirmations |
| Outbox.SweepKeeps | src/camvault/spool.py:388-399 | So does emptying a committed directory, in the replay or at start |
| Outbox.ScanKeeps | src/camvault/spool.py:220-257 | So do promoting, registering and retaining at start |
| Outbox.DeletionKeeps | src/camvault/storage.py:811-848 | So does deleting what a retention run has listed, whatever is there by then: records chosen by the policy at any time, orphans in a safe state |
| Outbox.WorldKeeps | src/camvault/storage.py:791-885 | So do kernel write-back and the listings and deletions of retention runs, interleaved with everything else |
| Outbox.PowerLossKeeps | src/camvault/spool.py:293-399 | So does a power loss at any point, with every unsynced change undone or not |
| Outbox.EventKeeps | src/camvault/spool.py:186-449 | So does every event of the whole system, orphans being deleted in safe states only |
| Outbox.NoFootageIsLost | src/camvault/spool.py:293-399 | Over all runs: a batch whose `write_batch` returned is complete and durable on disk, or byte-exact at both remote names, or its finished record was deleted by policy since its last upload began; a committed directory means the remote pair. Hypothesis: orphans are deleted in safe states only |
| Outbox.NothingIsForgotten | src/camvault/spool.py:369-416 | Over all runs: once up, every acknowledged batch not yet uploaded is pending with exactly its bytes; no digest mismatch and no remote conflict can stop it |
| OutboxRecovery.PowerLossStabilizes | src/camvault/spool.py:220-257 | After a power loss nothing unsettled is left, so recovery may lose power again |
| OutboxRecovery.RecoveryIsIdempotent | src/camvault/spool.py:220-257 | However often the scan is interrupted, its result depends on the first directories only: committed ones gone, complete ones pending with the same files, incomplete ones untouched |
| OutboxRecovery.RecoveriesAgree | src/camvault/spool.py:220-257 | An interrupted and an uninterrupted recovery of the same directory give the same pending set, names and files |
| OutboxProgress.ScanEnds | src/camvault/spool.py:220-257 | Wherever the scan of a start is with a directory, it can finish with it, by promoting, registering, retaining or sweeping it and having it written back |
| OutboxProgress.OpenSucceeds | src/camvault/spool.py:220-257 | From every state that the scan of a start can be in, steps of its own and write-backs lead to its end, and the service is up |
| OutboxProgress.StartSucceeds | src/camvault/spool.py:186-257 | The same from every state in which the process is down |
| OutboxProgress.RecoveryGetsThrough | src/camvault/spool.py:186-257 | So from every such state there is a recovery that ends, to which the results of `OutboxRecovery` apply |
| OutboxProgress.DeliveryIsAlwaysPossible | src/camvault/spool.py:186-449 | No dead end: from every reachable state of the whole system with an acknowledged batch that is not given up, a restart and an upload bring it to the remote store exactly, and off the disk |
| OutboxProgress.NewBatchSucceeds | src/camvault/spool.py:293-374 | While the service is up, a batch of any new path can be taken and acknowledged, whatever the other entries are doing |
| OutboxFailures.PowerLossMayRuin | src/camvault/spool.py:293-399 | The failures are real: the power may go in any state, undo any rename or removal not fsynced since, and ruin any content not fsynced |
| OutboxFailures.NothingIsTakenBack | src/camvault/spool.py:335-399 | The program acknowledges, empties a directory that it gave up, and is done with one that it promoted or removed, only when no power loss can take the rename or removal back |
| OutboxFailures.AttemptMayFail | src/camvault/spool.py:340-349 | An attempt may fail at any point; the batch stays in RAM |
| OutboxFailures.ReplayMayFail | src/camvault/spool.py:438-487 | A replay may fail at any point; the entry stays pending until its directory is given up |
| OutboxFailures.ScanMayFail | src/camvault/spool.py:254-257 | A scan may fail at any point |
| OutboxFailures.RecordMayExpire | src/camvault/storage.py:850-923 | The policy may delete a finished record at any time, both objects or its media only |
| OutboxDelivery.SendRefines | src/camvault/storage.py:521-539 | Every step of `RemoteCommit`, a server call, an answer or a conclusion from one, is one upload step of its own entry and changes no other entry's pair |
| OutboxDelivery.PersistSucceeds | src/camvault/spool.py:293-374 | If nothing fails, `write_batch` acknowledges a new batch |
| OutboxDelivery.RetrySucceeds | src/camvault/spool.py:293-349 | Wherever the worker is with a batch in RAM, it can still get it acknowledged, by clearing a failed attempt away, starting again, or adopting what is complete, unless an attempt was interrupted |
| OutboxDelivery.InterruptedStays | src/camvault/spool.py:314-317 | And only then not: an interrupted attempt leaves its directory, and no later one in the same process gets past it |
| OutboxDelivery.UploadChecksBytes | src/camvault/spool.py:415-424 | Whatever became of the files, an upload streams exactly the bytes that the manifest was made from, or the entry is blocked |
| OutboxDelivery.UploadSucceeds | src/camvault/spool.py:415-424 | If nothing fails, an upload reaches both confirmations from whatever earlier attempts left |
| OutboxDelivery.DeliverySucceeds | src/camvault/spool.py:415-437 | From every reachable state with an acknowledged batch that is not given up, an upload under way or not, there is a way to the remote pair with the spool directory gone |
| OutboxDelivery.CleanupLosesFootage | src/camvault/storage.py:829-848 | If the clean-up deletes in any state in which an upload has been told, or is bound to be told, that its media is in place, the acknowledged batch ends up nowhere complete |
| OutboxDelivery.ComparisonLosesFootage | src/camvault/storage.py:1129-1149 | From every state in which the clean-up lists a pending recording, a retry may be comparing the media, with nothing heard yet, when the deletion makes it lose the footage |
| OutboxDelivery.LateCleanupLosesFootage | src/camvault/storage.py:802-848 | From every state in which the clean-up lists a pending recording and no upload runs, an upload may finish before the deletion, which then takes the only copy while no upload runs |
| OutboxDelivery.UnsafeCleanupLoses | src/camvault/storage.py:829-848 | In every state that the condition rules out, the deletion leads to the loss of the footage |
| OutboxDelivery.CleanupIsSafeExactly | src/camvault/storage.py:829-848 | The deletion keeps the invariant if and only if no upload has been told, or is bound to be told, that its media is in place, and the directory has not been given up |
| SpoolLedger.Ledger.Open | src/camvault/spool.py:220-257 | Used bytes are those left on disk, but for further files beside an entry's own; pending are the directories under their own name that load and the transactions that load and whose name is free, each counted with the bytes of just that directory's files |
| SpoolLedger.Ledger.Register | src/camvault/spool.py:369-374 | Registering again adds nothing; used bytes stay the sum of the entries and the orphans |
| SpoolLedger.Ledger.Remove | src/camvault/spool.py:425-437 | Removal takes off what the entry was counted for; the empty flag is set only without entries |
| SpoolLedger.Ledger.Persist | src/camvault/spool.py:300-313 | A batch is admitted if and only if both limits hold with 16 KiB for the manifest, and then the total stays within the limit; an adopted one is not checked, and stays within exactly if it was known or small enough |
| Pipeline.EventKeeps | src/camvault/archive.py:447-479 | Every event of ingest, worker, stop and abort keeps the invariant |
| Pipeline.NothingLostOrReordered | src/camvault/archive.py:447-479 | Under every interleaving: written, in flight, queued, blocked and accumulated are in order what was accepted; retained bytes are exact and within the cap, as is every batch |
| Pipeline.ClampIsIdle | src/camvault/archive.py:594-598 | The `max(0, ...)` of `_release` never acts |
| Pipeline.WorkerUnblocks | src/camvault/archive.py:581-592 | While ingest waits, the worker has an event to go on with, and each success lowers the backlog |
| Pipeline.IngestGetsThrough | src/camvault/archive.py:468-479 | A waiting ingest gets through after at most the backlog's number of successful worker events: no deadlock |
| Pipeline.Drains | src/camvault/archive.py:447-479 | A running pipeline can be emptied; then it has written all it accepted, with the segment that an `add` was waiting with, and retains nothing |
| Pipeline.SegmentGetsWritten | src/camvault/archive.py:447-479 | In every reachable running state, any segment that fits can be taken and is written right after all that came before |
| Pipeline.SealsAtNeed | src/camvault/archive.py:463-470 | But for new targets, an `add` seals what is accumulated exactly if the segment does not fit beside it |
| Pipeline.StopWritesEverything | src/camvault/archive.py:546-556 | An orderly stop ends with everything accepted written, nothing retained, nothing to report |
| Pipeline.StopAdvances | src/camvault/archive.py:546-556 | Before the end of a stop, the worker, the ingest task or the stop itself can go on, and each such event brings the end nearer |
| Pipeline.StopGetsThrough | src/camvault/archive.py:546-556 | A stop reaches its orderly end in at most 22 events if writes succeed, from every state that it can be in or begin in |
| Pipeline.AbortReport | src/camvault/archive.py:561-569 | `abort` reports exactly the missing bytes plus those written and not yet released |
| Pipeline.AbortNeverUnderReports | src/camvault/archive.py:561-579 | However a run ends in `abort`, at least the missing bytes are reported, no memory is retained and no worker is left |
| Pipeline.AbortGetsThrough | src/camvault/archive.py:561-579 | An abort comes to its end from every state, wherever the worker is cancelled |
| Pipeline.AbortAfterStop | src/camvault/service.py:200-211 | The abort that ends every service stop changes nothing after an orderly one |
| Pipeline.AbortIsFinal | src/camvault/archive.py:561-579 | After an abort no event reports, accepts or writes anything more |
| Batching.Accumulator.Pop | src/camvault/archive.py:332-339 | Gives up all segments in order and starts afresh |
| Batching.Accumulator.Tune | src/camvault/archive.py:313-322 | Seals at once, and only, what has crossed the new targets |
| Batching.Accumulator.Add | src/camvault/archive.py:324-330 | Afterwards the accumulator is empty or below both targets by its own counters; its byte count is exact |
| Batching.SmoothedIsBetween | src/camvault/archive.py:487-498 | Smoothing goes from the old estimate towards the sample by the share that its duration has in five minutes, at least a hundredth of the way and at most all of it; so it ends between the two |
| Batching.LargestIsLargest | src/camvault/archive.py:508-511 | Without a memory sample the target is the largest number of bytes within the target object and a third of the cap |
| Batching.ShareIsFair | src/camvault/archive.py:512-516 | The cameras' shares of memory are together what may be used beyond the reserve, but for less than a byte each |
| Batching.RateTimesSeconds | src/camvault/archive.py:487-524 | A segment's rate brings its bytes in its duration, and at the estimated rate the target seconds bring the target bytes |
| Batching.Tuner.Estimate | src/camvault/archive.py:487-498 | The rate estimate is the smoothed one, and stays between the least and the greatest instantaneous rate ever seen |
| Batching.Tuner.Retarget | src/camvault/archive.py:500-529 | Target bytes lie between segment size and cap, at least the floor, and otherwise follow the lesser of the target size and the camera's share of free memory; target seconds lie in the configured interval and follow the rate inside it |
| Batching.AddSegment | src/camvault/archive.py:447-479 | With targets that follow the bitrate, the accumulator has the live ones afterwards: what was held comes out exactly if it has crossed them or the segment would pass the cap, and what is then held with the segment exactly if it reaches them, so nothing comes out if none of the three holds. With fixed targets the first does not apply. Batches and accumulator hold the segments in order, none is over the cap |
| Ingest.Recorder.Rotate | src/camvault/archive.py:531-537 | Seals the tail and loses nothing |
| Ingest.Recorder.Archive | src/camvault/archive.py:447-479 | A segment that fits joins the archive, one over the limit is refused and changes nothing; batches and accumulator hold all that fit, once and in order |
| Ingest.Recorder.Upload | src/camvault/service.py:225-279 | A repeated name changes nothing in the archive; any other is archived once, in order, or, if it is too large, kept in the live window only and then for ever a repeat; no batch mixes two streams |
| Ingest.Recorder.Playlist | src/camvault/service.py:234-236 | A playlist changes held segments in place, in the accumulator too; the counters stay, and the duration counter drifts by exactly those changes |
| LiveBuffer.Buffer.RememberName | src/camvault/buffer.py:80-85 | The remembered names stay distinct and bounded, and the set is theirs |
| LiveBuffer.Buffer.Evict | src/camvault/buffer.py:87-92 | As few of the oldest segments as necessary leave, for both bounds; the byte count stays exact |
| LiveBuffer.Buffer.Append | src/camvault/buffer.py:73-77 | Sequence and discontinuity numbers stay consecutive, and held names stay the last of the remembered ones |
| LiveBuffer.Buffer.AddSegment | src/camvault/buffer.py:48-78 | Refuses exactly the remembered names; any other becomes the newest segment with its hint and the right numbers |
| LiveBuffer.Buffer.KeepHint | src/camvault/buffer.py:119-122 | The latest hints in order of arrival are kept, as many as the bound allows, and none is altered but the new one |
| LiveBuffer.Buffer.ApplyPlaylist | src/camvault/buffer.py:94-123 | Each held segment gets the last duration that the playlist gives its name, others keep theirs; the hints kept are the latest, with what the playlist said last or what was known before; the window is unchanged |
| LiveBuffer.Buffer.TargetDuration | src/camvault/buffer.py:135 | The least number of whole seconds, from one on, that no duration exceeds, exact or rounded to milliseconds |
| LiveBuffer.MillisIsNearest | src/camvault/buffer.py:157 | A printed duration is the nearest number of milliseconds, the even one of two |
| LiveBuffer.Buffer.RenderSegment | src/camvault/buffer.py:147-158 | A segment's lines give a player its sequence and discontinuity number |
| LiveBuffer.Buffer.RenderPlaylist | src/camvault/buffer.py:131-159 | A player that follows sections 4.3.3.2 and 4.3.3.3 of RFC 8216 gets back every segment's own sequence and discontinuity number, with its name, time and rounded duration |
| Retention.CutIsUnique | src/camvault/retention.py:132-178 | A minimal oldest-first cut is unique |
| Retention.PolicyIsDeterminate | src/camvault/retention.py:108-178 | The policy determines all four phases, so implementations that follow it delete the same prefix |
| Retention.SortedAges | src/camvault/retention.py:108-120 | In a sorted list the age phase takes a prefix |
| Retention.AgePhase | src/camvault/retention.py:108-120 | The local age phase: deletes old files that are not stuck, drops all old ones from later phases |
| Retention.DeleteOldest | src/camvault/retention.py:132-178 | Each later local phase deletes a minimal oldest-first cut of the files that are not stuck, within the file limit |
| Retention.ApplyRetention | src/camvault/retention.py:82-192 | Deleted and remaining bytes and stuck old files add up to the total; without stuck files the run is what the policy asks for |
| Retention.RemoteAgePhase | src/camvault/storage.py:851-860 | The WebDAV age phase |
| Retention.RemotePhase | src/camvault/storage.py:862-914 | Each later WebDAV phase, which goes through the whole list, makes the same minimal cut |
| Retention.RemoteRetention | src/camvault/storage.py:850-923 | The WebDAV run is what the policy asks for, unless a deletion fails |
| Retention.UnreadableFreeSpace | src/camvault/retention.py:143-156 | With or without an emergency request: when the two stores differ in their cuts, and in what they delete, if free space cannot be read |
| Timeline.VisibleIsTheWindow | src/camvault/web.py:469-472 | What is visible of a record are exactly its instants in the window, with the record's size; no record with such an instant is left out |
| Timeline.SolidGrows | src/camvault/web.py:473-479 | Merging a record within the tolerance leaves no longer hole |
| Timeline.Extends | src/camvault/web.py:475-479 | Merging keeps everything that is claimed of the ranges |
| Timeline.Begins | src/camvault/web.py:480-488 | So does beginning a new range |
| Timeline.RecordingRanges | src/camvault/web.py:463-488 | The ranges are in order, in the window, further apart than the tolerance, cover every visible record, have no longer hole, and each counts the records in it and their bytes |

## Left out

- HTTP, XML, TLS, authentication, URL quoting and path checks; the remote store is a set of named objects.
- Late effects: a server call that the client has given up takes no effect afterwards.
- Windows, where directories are not fsynced: `_sync_directory` does nothing there, and the durability results do not hold.
- File locking, permissions, symbolic links, `.target.json` and its first creation; the binding is taken to match.
- `atomic_upload = false` and the WebDAV backend used without the outbox.
- Damage to stored bits, a remote store that loses finished objects, and two directories with one identifier at the same time.
- Cancelled threads that still run while a new process opens the outbox, and the delays and order of the replay loop.
- SHA-256 and BLAKE2 as functions: digests are taken to be free of collisions, and a stream tag stands for its stream.
- Time zone rules: a batch comes with its local time and its offset from UTC in whole minutes, and with a year of four digits; other times are integers, durations in names microseconds.
- Floating point: rates and durations are reals; infinite and undefined playlist durations do not occur.
- Digits and blanks outside ASCII in names and Range headers.
- A further file in an entry's directory: the entry is uploaded, but its renamed directory is then not removed, and the entry stays pending and blocked.
- Waking at shutdown: a task that waits for the budget sees that the manager is closing at the next release; in `Pipeline` it may see it at once.
- Several cameras at once: `unwritten_bytes` is the sum of what each camera's pipeline reports, and one clean-up of all cameras is one per camera.
- Restarting a manager after `abort`, and cancelling a task other than through `abort`: a batch that waited for the queue may then lie in it unaccounted.
- Reclaim of space on failed writes, error messages, metrics, audio levels of live segments, and sound ranges of the timeline.
- The listing cache, merging of local and remote listings, and record filtering.
- A playlist that changes a duration between two attempts to persist one batch: the attempts then have different names and are two entries here.
- Clean-up of stale transaction files and empty directories in the retention runs.
- Outbox.NoFootageIsLost: holds if the orphan clean-up deletes what it listed in safe states only, because it is false otherwise; nothing in the program sees to it.
- Outbox.EventKeeps: lets the clean-up delete under the same condition, for the same reason.
- RemoteCommit.Server.Put: gives the server's side; the client's count of sent bytes and the digest that it returns are left out, because the spooled files have the declared sizes.
- RemoteCommit.Server.Matches: compares at one instant, because in `RemoteCommit` nobody else acts on the store; the time between the comparison and its answer is in `Outbox`.
- OutboxDelivery.DeliverySucceeds: says that a delivering continuation exists, not that the replay loop's timing reaches it.
- OutboxProgress.DeliveryIsAlwaysPossible: says so too, of a restart and a delivery.
- Container.ForeignChunkFails: assumes of the sealed text in question that it opens with its own nonce and data only, which holds of a real cipher but for a forgery.
- Pipeline.AbortReport: counts a batch twice that is written and not released, as the code does.
- Retention.RemoteRetention: says nothing of the report after a failed deletion, because the code then raises.
