# SyncWire, modelled and proved in Dafny

SyncWire uploads files and synchronises directories over a framed binary protocol. An upload that
is interrupted leaves a *part* file on the server; the next attempt is offered the length and
CRC-32 of what was saved, and the client resumes there if its own prefix has that checksum, or
restarts at zero. The server commits a file by renaming its verified part. A concurrent server
runs these sessions on a pool of workers behind a bounded queue.

This project models that behaviour and proves what it promises:

- **Uploads.** `Receiver` and `Sender` are the two sides as steps over received frames, with every
  system call's outcome an input. `ReceiveFile` and `Sender.SendFile` are the two calls as the
  loops they are, proved to do exactly those steps. `ServerRuns` proves what every run of the
  server keeps against arbitrary clients, failing calls, kills in mid-turn and power loss, which can
  undo a rename until both directories are synchronised: committed paths change only to verified
  content, a success report has a durable commit behind it, a durable commit outlives everything but
  a later commit, acknowledged bytes survive, the partial store stays in its budget, and no committed
  file ever stands where another needs a directory.
- **Both sides together.** `UploadRuns` puts one client and the server on connections that can be
  cut anywhere. A client that reports success has its file durably committed (`SuccessIsCommitted`),
  and whatever happens later the path holds that content or a later commit's
  (`SuccessOutlivesEverything`).
  `Completion` proves, from any saved part and any committed files whatever, exactly when an
  undisturbed upload succeeds, after how many steps, how many bytes it sends and what it commits, and
  exactly when the committed bytes are the source's. `Resumption` proves that over any number of lost
  connections and server kills each byte is sent once, plus at most one chunk per lost connection, and
  that one calm connection then ends the upload within that bound. `Dialogue` shows that the frames of
  the two calls fit each other.
- **Checksum.** `Register` and `Checksum` prove the shift-register CRC-32 a streaming fold, equal to
  the table form, affine under xor, and injective on any 32-bit burst at any length; and that every
  message of five bytes or more shares size and checksum with another, which is why the upload
  theorems say "same size and checksum" unless the saved prefix is known to be right.
- **Framing.** `Wire`, `Frames`, `FrameParser`: the header codec, the byte stream of frames, and the
  incremental parser, whose frames and errors do not depend on how the stream is cut into reads.
- **Synchronisation.** `SyncCodec`, `Planning` and `Scan`: canonical codecs, the merge that plans
  the uploads, the scanner's limits and size accounting. `SyncRuns`: a run, also one that ends by a
  kill, changes only a prefix of the planned paths. `DirectorySync`: both sides as code, with exactly
  when each reports what. `FinalScan` and `HonestSync`: an honest, undisturbed synchronisation succeeds
  exactly if no file of one tree stands where the other needs a directory and the merged tree is within
  the scan limits, which the two manifests decide before the first upload. `ClashingSync` and
  `OverfullSync` have runs that fail on the one and on the other.
- **Concurrency.** `WorkerPool` is the acceptor, queue, workers and shutdown as freely interleaved
  atomic steps; `ServerThreads` is the code of the critical sections.

Premises, stated where they are used: the source file does not change during an upload; sessions on
one destination are serialised, as the destination lock of src/server/client_session.cpp:13-21
makes them; the SHA-256 name of a part identifies its metadata; a client's chunk size is at most the
server's (`UploadSucceedsIff` shows that this is what decides). The directories of the destination are
those its committed files need: a manifest shows no other, so an empty directory or a symbolic link in
the way of an upload is a failed preparation or rename, an outcome that "undisturbed" excludes. Bytes
are numbers below 256; 64-bit and 32-bit values are bounded subset types; a 32-bit checksum register is
a sequence of 32 bits.

Three things in the code differ from what a reader might expect. A chunk that the server refuses as too
large is answered with a transfer result, but the client is waiting for an acknowledgment and reports
an unexpected message type, not the server's reason; `UploadSucceedsIff` says for every upload which
of the outcomes the client reports. The plan compares paths and not directories, so an honest
synchronisation of `a/b` to a destination with the file `a`, or of `a` to one with `a/b`, is planned and
then ends at that upload, with those before it done (`FileAgainstDirectory`). And one without such a
clash can still fail its final check, because the merged tree is scanned under the same limits as the
two trees before it (`DefaultLimitsCanFail`, under the limits the server uses). `HonestSyncSucceedsIff`
gives the exact condition, and the status reported in each of the three cases.

`dafny verify dfyconfig.toml` checks the whole project.

## Model

| member | source | states |
|---|---|---|
| `Checksum.Crc32.Update` | src/common/crc32.cpp:8-16 | the masked shift loop leaves the register that feeding the bytes one after another defines |
| `Checksum.Compute` | src/common/crc32.cpp:22-26 | the one-call form is the checksum of the message |
| `Checksum.PolynomialValue` | src/common/crc32.cpp:13 | the bit pattern used is the constant 0xEDB88320 |
| `Checksum.FeedAppend` | src/common/crc32.cpp:8-16 | updating by a and then by b is updating by their concatenation, for any chunking |
| `Checksum.EqualCrcEqualRegister` | src/common/crc32.cpp:18-20 | equal checksums mean equal registers, so a resumed checksum continues as the true one would |
| `Checksum.CrcOfNothing` | src/common/crc32.cpp:18-20 | the checksum of the empty message is zero, as the offer of an empty part needs |
| `Checksum.FeedIsTableFeed` | src/common/crc32.cpp:8-16 | the bit-serial form equals the table form of section 8 of RFC 1952 |
| `Checksum.FeedIsFeedBits` | src/common/crc32.cpp:8-16 | feeding bytes is feeding their bits, least significant first, into a 32-bit division register |
| `Checksum.CrcAffine` | src/common/crc32.cpp:8-26 | the checksum of the xor of three equally long messages is the xor of their checksums |
| `Checksum.BurstErrorsDetected` | src/common/crc32.cpp:8-20 | messages of any length that differ only within 32 consecutive bits have equal checksums exactly if they are equal |
| `Checksum.WindowErrorsDetected` | src/common/crc32.cpp:8-20 | the same for four consecutive bytes |
| `Checksum.CollisionExists` | src/common/crc32.cpp:8-26 | every message of at least five bytes has a different one of equal length and checksum |
| `Register.BurstDetected` | src/common/crc32.cpp:11-14 | bit strings that agree outside a window of at most 32 bits lead to the same register exactly if they agree inside it, whatever surrounds it |
| `Words.PutField` | src/common/codec.cpp:9-26 | writes the big-endian bytes of the value and changes no other byte |
| `Words.GetField` | src/common/codec.cpp:33-55 | reads back the number those bytes encode |
| `Wire.EncodeHeader` | src/common/codec.cpp:59-70 | the header bytes are the fields in their places |
| `Wire.HeaderRoundTrip` | src/common/codec.cpp:59-118 | a header survives the wire exactly if it is admissible under the payload limit |
| `Wire.HeaderCanonical` | src/common/codec.cpp:72-118 | every accepted 32 bytes are the one encoding of the header they decode to |
| `Frames.SendFrame` | src/common/frame_io.cpp:33-61 | sends exactly the bytes of a sendable frame, or those before the connection failed, and none of any other frame |
| `Frames.Socket.ReceiveFrame` | src/common/frame_io.cpp:63-87 | consumes exactly the bytes of the next frame, or reports the close, the system error or the bad header, with the bytes it got |
| `Frames.StreamRoundTrip` | src/common/frame_io.cpp:33-87 | a stream of sendable frames is received as exactly those frames |
| `Frames.ParseIsReceiveAll` | src/common/frame_io.cpp:63-87 | the one-shot parse agrees with repeated receives on frames and on the header error |
| `Frames.ParseConserves` | src/common/frame_parser.cpp:32-52 | the bytes of the frames and the remainder are the stream |
| `FrameParser.FrameParser.Compact` | src/common/frame_parser.cpp:70-86 | drops only bytes already read, so nothing unread is lost and less than half of what stays is waste; the invariant it keeps bounds all bytes ever moved by the bytes read |
| `FrameParser.FrameParser.ExtractFrames` | src/common/frame_parser.cpp:31-52 | extracts the complete frames of the unread bytes and stops at the first error or incomplete frame |
| `FrameParser.FrameParser.Consume` | src/common/frame_parser.cpp:18-56 | the parser's view after a call is the specified one; unread bytes, physical size and bytes moved keep their bounds |
| `FrameParser.ConsumedAllIsParse` | src/common/frame_parser.cpp:18-56 | any sequence of reads that trips no limit yields the one-shot parse of the whole stream |
| `FrameParser.ChunkingIndependence` | src/common/frame_parser.cpp:18-91 | any way of cutting a stream yields the frames and the error of one parse and of blocking reception, and without an error the same remainder |
| `FrameParser.ByteFeedingSafe` | src/common/frame_parser.cpp:23-27 | feeding byte by byte never hits the buffer limit, for any stream, exactly if the buffer holds a largest frame |
| `Paths.IsSafeRemotePath` | src/common/transfer_codec.cpp:92-120 | the scan accepts exactly the paths all of whose components are legal |
| `Paths.JoinSplit` | src/common/transfer_codec.cpp:103-118 | the components joined by slashes are the path |
| `Paths.SafeStaysBelowRoot` | src/common/transfer_codec.cpp:92-120 | following a safe path never leaves the root and ends strictly below it |
| `Paths.AboveIsAncestor` | src/common/file_transfer.cpp:257-260 | a path followed by a slash begins another exactly if its components are the first, and not all, of the other's |
| `TransferCodec.EncodeUploadMetadata` | src/common/transfer_codec.cpp:122-135 | the appended payload is the encoding of the metadata, empty for an unsafe name |
| `TransferCodec.MetadataRoundTrip` | src/common/transfer_codec.cpp:122-167 | metadata with a safe name comes back; with any other it encodes to a refused payload |
| `TransferCodec.MetadataCanonical` | src/common/transfer_codec.cpp:137-167 | every accepted payload is the encoding of what it decodes to |
| `TransferCodec.ChunkRoundTrip` | src/common/transfer_codec.cpp:169-191 | a chunk comes back, and an empty one is refused |
| `TransferCodec.ChunkCanonical` | src/common/transfer_codec.cpp:178-191 | every accepted chunk payload re-encodes to itself and has data |
| `TransferCodec.OffsetRoundTrip` | src/common/transfer_codec.cpp:193-205 | an acknowledged offset comes back |
| `TransferCodec.ReadyRoundTrip` | src/common/transfer_codec.cpp:207-218 | an offer comes back |
| `TransferCodec.ReadyCanonical` | src/common/transfer_codec.cpp:213-218 | every accepted offer payload re-encodes to itself |
| `TransferCodec.ResultRoundTrip` | src/common/transfer_codec.cpp:220-233 | every result code comes back |
| `PartialStore.WithinPartialBudget` | src/common/file_transfer.cpp:314-345 | the early-exit loop never underflows and decides exactly the sum-and-count test, in any directory order |
| `PartialStore.BudgetDecidesAdmission` | src/common/file_transfer.cpp:314-345 | over a listing of the store, whatever else the directory holds, that test is room for the whole upload beside what the others hold, and that nothing but its own name is other than a regular file |
| `PartialStore.AdmittedStaysInBudget` | src/common/file_transfer.cpp:317-345 | an admitted part can grow to its declared size within both limits |
| `PartialStore.ParentIsFile` | src/common/file_transfer.cpp:257-279 | the loop over the parent directories finds a file among them exactly if some committed path is a directory on the way to the new one |
| `Receiver.CodeFor` | src/common/file_transfer.cpp:186-218 | no status of a refusal is reported as success |
| `Receiver.Judge` | src/common/file_transfer.cpp:687-741 | a chunk is only appended if it is at the expected offset (or the first, at zero), within the chunk size and the declared size |
| `ReceiveFile.ReadPartialPrefix` | src/common/file_transfer.cpp:347-365 | whatever sizes the reads come in, the outcome is decided by the calls, and on success the checksum is that of the saved bytes |
| `ReceiveFile.WriteChunk` | src/common/file_transfer.cpp:743-762 | write, checksum, synchronise, acknowledge, with each failure, is the specified step |
| `ReceiveFile.HandleChunk` | src/common/file_transfer.cpp:707-762 | restart, offset and size checks and the write are the specified turn |
| `ReceiveFile.HandleComplete` | src/common/file_transfer.cpp:695-779 | the end of the transfer commits or refuses as the specified turn does |
| `ReceiveFile.CompleteTransfer` | src/common/file_transfer.cpp:780-815 | synchronise, rename, synchronise the directories and report is the specified commit; the rename fails where the final path is a directory, or a parent a file |
| `ReceiveFile.HandleFrame` | src/common/file_transfer.cpp:686-762 | the dispatch on a received frame is the specified turn |
| `ReceiveFile.OpenTransfer` | src/common/file_transfer.cpp:552-678 | everything before the loop is the specified opening, which refuses the path where a parent is a file |
| `ReceiveFile.ReceiveFile` | src/common/file_transfer.cpp:548-816 | a whole call is the fold of its turns, whatever client and system do |
| `Sessions.SessionIsRun` | src/common/file_transfer.cpp:548-816 | every call of receive_file is a run of the server, so all that runs keep holds of it |
| `ServerRuns.TurnKeeps` | src/common/file_transfer.cpp:681-815 | a turn keeps offset, position, part length and checksum in agreement, touches no other part, and files only by verified commits |
| `ServerRuns.BeginKeeps` | src/common/file_transfer.cpp:564-678 | the opening touches at most the part its request names, only if admitted, and commits nothing |
| `ServerRuns.TornKeeps` | src/common/file_transfer.cpp:717-803 | a kill at any point of a turn leaves a store the next session can start from |
| `ServerRuns.EveryRunIsSafe` | src/common/file_transfer.cpp:548-816 | in every run with failures, kills and power loss that can undo renames: paths change only to verified content, every success has a durable commit, an open transfer is consistent |
| `ServerRuns.DurableCommitStays` | src/common/file_transfer.cpp:787-803 | through any later sessions, failures, kills and power losses the path of a durable commit holds its content or a later commit's |
| `ServerRuns.UnsynchronisedCommitCanBeLost` | src/common/file_transfer.cpp:795-803 | until the directories are synchronised power loss can undo the last commit |
| `ServerRuns.EveryRunInBudget` | src/common/file_transfer.cpp:599-602 | over any sessions, failures and kills the store stays within its file and byte limits |
| `ServerRuns.EveryRunStaysClashFree` | src/common/file_transfer.cpp:257-279 | over any sessions, failures, kills and power losses no committed path is a directory on the way to another |
| `ServerRuns.AcknowledgedIsSynced` | src/common/file_transfer.cpp:743-762 | an acknowledgment is only sent for bytes that are written and synchronised |
| `ServerRuns.AcknowledgedBytesSurvive` | src/common/file_transfer.cpp:642-659 | acknowledged bytes survive any cuts, kills and power losses until a restart, refusal, commit or storage failure gives the part up |
| `Sender.VerifyPrefix` | src/common/file_transfer.cpp:448-462 | the buffered loop resumes at the offer exactly if the source's prefix has the offered checksum |
| `Sender.Negotiate` | src/common/file_transfer.cpp:398-469 | every answer to the first response is the specified one |
| `Sender.CheckAck` | src/common/file_transfer.cpp:496-522 | only an acknowledgment of exactly the bytes sent lets the loop go on |
| `Sender.SendChunks` | src/common/file_transfer.cpp:470-545 | the sending loop, the end and the result are the fold of the client's steps |
| `Sender.SendFile` | src/common/file_transfer.cpp:369-546 | a whole call is the fold of the client's steps |
| `UploadRuns.DoSound` | src/common/file_transfer.cpp:369-816 | every happening on either side, including other clients' sessions, keeps the invariant of the pair |
| `UploadRuns.SuccessIsCommitted` | src/common/file_transfer.cpp:533-545 | whatever happens, a client that reports success has had content of the source's size and checksum committed with both directories synchronised |
| `UploadRuns.SuccessOutlivesEverything` | src/common/file_transfer.cpp:796-815 | whatever happens after a reported success, power losses included, the final path holds the content committed for it or a later commit's |
| `Completion.ExpectedVerifies` | src/common/file_transfer.cpp:461-470 | the content an upload arrives at has the source's size and checksum, whatever part it started from |
| `Completion.ExpectedIsSource` | src/common/file_transfer.cpp:461-470 | it is the source exactly unless a wrong prefix had the right checksum |
| `Completion.DamagedPrefixIsResent` | src/common/file_transfer.cpp:451-470 | a saved prefix damaged only within 32 consecutive bits is never resumed from |
| `Completion.WrongPrefixCanBeKept` | src/common/file_transfer.cpp:461-462 | for every prefix of at least five bytes there is a wrong one that would be kept |
| `Completion.BeginCalm` | src/common/file_transfer.cpp:564-678 | a request with room in the store and no file among its parents is answered with an offer of exactly the usable saved bytes |
| `Completion.ChunkCalm` | src/common/file_transfer.cpp:715-762 | the chunk at the right offset, or a restart, extends the part by exactly its data |
| `Completion.CompleteCalm` | src/common/file_transfer.cpp:765-815 | with nothing in its way the complete part is renamed and success is sent |
| `Completion.CompleteRefused` | src/common/file_transfer.cpp:787-794 | with something in its way the complete part is dropped and a file error sent |
| `Completion.OfferRead` | src/common/file_transfer.cpp:398-470 | the client answers the server's offer with the right chunk |
| `Completion.ChunksNeeded` | src/common/file_transfer.cpp:471-474 | the number of chunks is the remaining size divided by the chunk size, rounded up |
| `Completion.UploadCompletes` | src/common/file_transfer.cpp:369-816 | an undisturbed upload that the server takes, to a path that is not a directory with files, is committed after four steps and two per chunk, having sent exactly the missing bytes and changed nothing else |
| `Completion.UploadEnds` | src/common/file_transfer.cpp:369-816 | an undisturbed upload that the server takes ends after just as many steps also where the final path is a directory with files: then nothing is committed and the client reports the file error after having sent it all |
| `Completion.CommittedBytes` | src/common/file_transfer.cpp:715-779 | the committed bytes are the source's exactly if the saved bytes were refused or were a true prefix |
| `Completion.CommitMayGoUnlearned` | src/common/file_transfer.cpp:787-809 | in every upload that would succeed, a connection lost after the rename leaves the file committed and the client with a transport error |
| `Completion.OversizedSteps` | src/common/file_transfer.cpp:735-741 | a chunk above the server's chunk size ends the transfer without a commit, and the client reports an unexpected message type |
| `Completion.UploadSucceedsIff` | src/common/file_transfer.cpp:564-816 | an undisturbed upload succeeds exactly if the server accepts the request (room in the store, no file among the parents), the first chunk fits its chunk size and the final path is not a directory with files; the client reports a rejection exactly if the first or the last is not so, and an unexpected message type exactly if only the chunk is too large; without success nothing is committed |
| `Resumption.TornPrefix` | src/common/file_transfer.cpp:743-762 | a kill leaves a longer true prefix, or has already renamed the part |
| `Resumption.ForeignLeaves` | src/common/file_transfer.cpp:283-310 | another upload leaves this one's part alone and commits nothing in its name |
| `Resumption.NothingIsResent` | apps/syncwire-client/main.cpp:210-281 | until the commit, over any number of lost connections and kills, the client has sent the missing bytes once and at most one chunk per lost connection more, and the server holds a true prefix |
| `Resumption.InterruptedUploadCompletes` | apps/syncwire-client/main.cpp:210-281 | after any such history one calm connection commits exactly the source, and over all connections the client has then sent no more than that |
| `Resumption.RenameCommitsIff` | src/common/file_transfer.cpp:787-794 | at the end of the file the server commits exactly if nothing is in the way, and else drops the part |
| `Dialogue.HonestSession` | src/common/file_transfer.cpp:548-816 | the honest frames in, the honest replies out: the file committed, or the path refused at once if a parent is a file and at the rename if it is a directory |
| `Dialogue.HonestConversation` | src/common/file_transfer.cpp:369-546 | the honest replies in, the honest frames out; success is reported exactly if nothing is in the way |
| `SyncCodec.AppendEntries` | src/common/sync_codec.cpp:122-133 | succeeds exactly on safe paths in strict order, and then appends their encoding |
| `SyncCodec.DecodeEntries` | src/common/sync_codec.cpp:147-177 | the offset-advancing loop decodes what the recursive definition does, errors included |
| `SyncCodec.EncodeManifestPayload` | src/common/sync_codec.cpp:116-135 | the payload of a valid manifest, or nothing |
| `SyncCodec.DecodeManifestPayload` | src/common/sync_codec.cpp:137-178 | the specified decoding |
| `SyncCodec.ManifestRoundTrip` | src/common/sync_codec.cpp:116-178 | every valid manifest within the entry limit comes back |
| `SyncCodec.ManifestCanonical` | src/common/sync_codec.cpp:137-178 | every accepted payload is the encoding of a valid manifest |
| `SyncCodec.EncodeSyncPlan` | src/common/sync_codec.cpp:214-230 | the payload of a valid plan, or nothing |
| `SyncCodec.DecodeSyncPlan` | src/common/sync_codec.cpp:232-266 | the specified decoding |
| `SyncCodec.PlanRoundTrip` | src/common/sync_codec.cpp:214-266 | every valid plan comes back |
| `SyncCodec.PlanCanonical` | src/common/sync_codec.cpp:232-266 | every accepted payload is the encoding of a valid plan |
| `Planning.BuildSyncPlan` | src/common/sync_codec.cpp:180-212 | the two-index loop computes the merge, its counters modulo 2^32 |
| `Planning.MergeMeaning` | src/common/sync_codec.cpp:180-212 | on sorted manifests the uploads are the source paths without an identical destination record, and the counters partition both manifests |
| `Planning.NeededExactly` | src/common/sync_codec.cpp:180-212 | a path is planned exactly if some source record of it is not in the destination |
| `Planning.NothingNeeded` | src/common/sync_codec.cpp:180-212 | the plan is empty exactly if every source record is in the destination |
| `Planning.PlanAlwaysFits` | src/common/directory_sync.cpp:243-249 | a plan from a manifest that fit a frame is valid and fits, so the server's size check never fires |
| `Scan.ChecksumFile` | src/common/directory_manifest.cpp:30-56 | the buffered loop computes the checksum of the file |
| `Scan.ScanDirectory` | src/common/directory_manifest.cpp:76-150 | accepts exactly the trees within all limits and yields their records sorted by path; else the first file in the way decides the error |
| `Scan.ScanFitsFrame` | src/common/directory_manifest.cpp:124-141 | the running size is the length of the encoded manifest, so a scan within a frame-sized limit fits one frame |
| `Scan.ScanDescribesTree` | src/common/directory_manifest.cpp:76-150 | any traversal order yields the manifest of the tree |
| `Scan.AnyOrderScans` | src/common/directory_manifest.cpp:76-150 | whether a tree scans depends on the tree, not on the order of the traversal |
| `SyncRuns.OnlyPlannedPrefixChanges` | src/common/directory_sync.cpp:260-288 | however a run ends, by a kill in any session too, the destination differs from its start only on a prefix of the planned paths, and every changed file holds the verified content of one of its commits |
| `SyncRuns.HonestUploads` | src/common/directory_sync.cpp:260-288 | with an honest client and no failure the uploads complete up to the first with a file or a directory in its way: those paths end with the source's size and checksum, and no other changes |
| `FinalScan.MergedTreeScansIff` | src/common/directory_sync.cpp:300-303 | a tree in which the source has landed scans exactly if the source's records and the destination's others together are within the entry and size limits |
| `FinalScan.ClearIffNoClash` | src/common/file_transfer.cpp:257-279 | nothing is in the way of any planned upload exactly if no file of either manifest stands where the other needs a directory |
| `FinalScan.HonestSyncLeavesTheRest` | src/common/directory_sync.cpp:238-249 | after an honest run a second synchronisation plans exactly the uploads that the first did not get to, none exactly if the manifests do not clash |
| `FinalScan.HonestScanIff` | src/common/directory_sync.cpp:260-307 | an honest run completes all its uploads exactly if the manifests do not clash; then every source record is present, and the final scan succeeds exactly under the condition on the limits |
| `HonestSync.HonestSyncSucceedsIff` | src/common/directory_sync.cpp:201-318 | a whole honest run of the server reports success exactly if the manifests do not clash and together are within the limits, a scan error exactly if only the latter fails, and an upload error exactly if they clash, with the uploads before the first clash completed; a result is sent on success only |
| `HonestSync.HonestClientSucceedsIff` | src/common/directory_sync.cpp:107-199 | the client's frames in that run are exactly those the server reads, and it reports success exactly if the server does, the upload error with the same count if the server does, and a lost connection if the scan failed |
| `HonestSync.HonestOffers` | src/common/directory_sync.cpp:160-174 | for every planned upload up to the first clash the client sends exactly the frames of the server's session, given the server's replies |
| `HonestSync.HonestServing` | src/common/directory_sync.cpp:260-288 | and the server replies exactly what the client's calls wait for |
| `OverfullSync.FinalCheckCanFail` | src/common/directory_sync.cpp:300-303 | under every limit on entries up to 4096 some honest run without a clash completes all its uploads and then fails its final scan |
| `OverfullSync.DefaultLimitsCanFail` | include/syncwire/common/directory_manifest.hpp:26-30 | so it does under the default limits |
| `ClashingSync.ClashAlwaysFails` | src/common/directory_sync.cpp:260-288 | for any two safe paths of which one is a directory on the way to the other, the synchronisation of the one to a destination with the other fails with nothing uploaded, though both trees scan and fit the default limits |
| `ClashingSync.FileAgainstDirectory` | src/common/file_transfer.cpp:257-279 | so it does for `a` against `a/b`, in both directions |
| `DirectorySync.FindFile` | src/common/directory_sync.cpp:82-89 | the binary search finds the record of the path exactly if there is one |
| `DirectorySync.ReceiveUploads` | src/common/directory_sync.cpp:260-288 | the loop over the plan is the specified sequence of sessions, with request IDs that never wrap |
| `DirectorySync.PlanSync` | src/common/directory_sync.cpp:205-249 | the outcome is the specified one for every request: each refusal exactly on its check with the earlier ones passed, else the merge of the decoded manifest with the destination's, which fits a frame |
| `DirectorySync.CheckDestination` | src/common/directory_sync.cpp:300-307 | the final scan succeeds exactly if the tree is within the limits, and then reports success exactly if every source record is present |
| `DirectorySync.ReceiveDirectorySync` | src/common/directory_sync.cpp:201-318 | status, plan, completed uploads, store and frames of a whole run are the specified ones, whatever its circumstances |
| `DirectorySync.SyncSucceedsIff` | src/common/directory_sync.cpp:201-318 | exactly when a run sends its plan, exactly when it gets to its final check, and that it succeeds exactly if that finds every source record and the result is sent |
| `DirectorySync.OffersOnlyItsOwn` | src/common/directory_sync.cpp:160-174 | whatever plan it is sent, the client uploads only files of its own manifest, each under its own nonzero ID |
| `DirectorySync.SendUploads` | src/common/directory_sync.cpp:160-174 | the client's loop over the plan is the specified sequence of calls |
| `DirectorySync.HonestPlanAccepted` | src/common/directory_sync.cpp:133-154 | the plan an honest server sends passes every check of the client |
| `DirectorySync.SyncDirectory` | src/common/directory_sync.cpp:107-199 | status, completed uploads and frames of a whole call are the specified ones, whatever its circumstances |
| `DirectorySync.ClientSucceedsIff` | src/common/directory_sync.cpp:107-199 | the call succeeds exactly if its own checks, the plan, every upload and the server's final check went well |
| `WorkerPool.NextKeeps` | src/server/concurrent_server.cpp:81-201 | every step of every thread keeps the pool's invariant |
| `WorkerPool.EveryConnectionCounted` | src/server/concurrent_server.cpp:117-187 | in every interleaving each accepted connection is in exactly one counter, the queue or a thread's hands; after the join, in a final counter |
| `WorkerPool.ShutdownMissesNone` | src/server/concurrent_server.cpp:89-131 | in every interleaving a registered number has exactly one owner, and once the active connections are shut down every registered connection has been |
| `WorkerPool.NoneRegistersLater` | src/server/concurrent_server.cpp:112-122 | after that no connection registers any more |
| `WorkerPool.NoConnectionWaitsForSleepers` | src/server/concurrent_server.cpp:97-110 | while a worker sleeps, queued connections are at most the workers about to check plus the undelivered notification |
| `WorkerPool.PeakIsExact` | src/server/concurrent_server.cpp:171-183 | the queue keeps its bound and the observed peak is exactly the longest it has been |
| `WorkerPool.WorkersExit` | src/server/concurrent_server.cpp:148-160 | from the closing of the queue the workers take at most six steps each, in any interleaving, and with none left all have exited |
| `WorkerPool.JoinReturns` | src/server/concurrent_server.cpp:148-160 | from the closing of the queue on the join can always return, with the counters balanced |
| `ServerThreads.Impl.ObserveDepth` | src/server/concurrent_server.cpp:81-87 | the compare-and-swap loop raises the peak to the depth, whatever exchanges fail |
| `ServerThreads.Impl.ShutdownActiveConnections` | src/server/concurrent_server.cpp:89-95 | the scan shuts down every registered connection |
| `ServerThreads.Impl.TakeConnection` | src/server/concurrent_server.cpp:100-110 | the worker's wait is the specified step |
| `ServerThreads.Impl.RegisterOrCancel` | src/server/concurrent_server.cpp:112-122 | register or cancel is the specified step |
| `ServerThreads.Impl.TryEnqueue` | src/server/concurrent_server.cpp:171-179 | enqueues exactly if there is room and the pool is not stopping |
| `ServerThreads.Impl.CloseThePool` | src/server/concurrent_server.cpp:151-157 | closing the queue cancels and closes everything in it |

## Left out

- Authentication, ping, the command line and the retry delays: they would only add easy members. `Resumption` allows any number of reconnects, more than the client's retry limit does.
- Sockets as system calls: a connection is a stream of frames, or in `Frames` and `FrameParser` of bytes, that can be cut; epoll and accept are steps of the acceptor.
- The directory walk: symbolic links, directories and special files; `Scan` starts from the regular files in any order.
- Directories as objects of their own: those made for an upload that is then refused or cut stay behind empty. What an empty directory or a symbolic link does to a later upload is an outcome of `OpenOs.prepares` or `Os.renames`; a committed file among the parents, or a directory with committed files at the final path, is computed.
- The informational fields of the server's results (bytes transferred, resume point, expected and actual checksum; of a synchronisation the numbers of unchanged and server-only files and what the failing call reported), system error numbers and message texts.
- NothingIsResent: an upload refused at its rename because something is in the way loses its part, so a client that missed the refusal would send all of it again; `Ordinary` leaves such a step out, and `RenameCommitsIff` says exactly when it is one.
- EveryRunInBudget: speaks of process kills and not of power loss, because unlinks are not synchronised and power loss can bring an unlinked or a renamed part back.
- Power loss that brings back a part the server had unlinked: `PowerLoss` returns only parts whose rename it undoes.
- UploadRuns: a new connection is taken up once the old session has ended, as the destination lock makes it; a request left unread on a lost connection is served late as a session of its own.
- ReceiveDirectorySync: a run that ends by a kill returns no report; `OnlyPlannedPrefixChanges` covers it.
- EveryConnectionCounted: the 64-bit counters are unbounded numbers.
- WorkersExit: that a session on a shut-down socket returns is a premise: `serve_client_session` can always take its returning step.
- HonestSyncSucceedsIff: that the partial store has room for each planned upload is a premise, on the store at the start of the run; that neither tree has a path that is both file and directory is one too, which every file system meets and every run of the server keeps (`EveryRunStaysClashFree`).
