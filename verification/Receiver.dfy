/**
 * The server side of an upload (src/common/file_transfer.cpp, `receive_file`), one received
 * frame at a time. Every system call that can fail is an input of the step that makes it.
 */
module Receiver {
  import opened Words
  import opened Wire
  import opened Frames
  import opened Bits
  import opened Checksum
  import opened TransferCodec
  import opened PartialStore

  datatype Status =
    | Success | FrameIoError | InvalidRequest | InvalidPath | FileTooLarge
    | FileOpenError | FileReadError | FileWriteError | FileCommitError
    | UnexpectedMessageType | UnexpectedFrame | InvalidRequestId | InvalidTransferId
    | MismatchedRequestId | InvalidPayload | UnexpectedOffset | SizeMismatch
    | ChecksumMismatch | RemoteRejected

  /** `result_code_for_status`: no status of a refusal is ever reported as success. */
  function CodeFor(status: Status): (code: ResultCode)
    ensures code != ResultCode.Success
  {
    match status
    case InvalidPath => ResultCode.InvalidPath
    case FileTooLarge => ResultCode.FileTooLarge
    case UnexpectedOffset => ResultCode.UnexpectedOffset
    case SizeMismatch => ResultCode.SizeMismatch
    case ChecksumMismatch => ResultCode.ChecksumMismatch
    case FileOpenError => FileIoError
    case FileReadError => FileIoError
    case FileWriteError => FileIoError
    case FileCommitError => FileIoError
    case UnexpectedMessageType => ResultCode.UnexpectedFrame
    case InvalidTransferId => ResultCode.UnexpectedFrame
    case MismatchedRequestId => ResultCode.UnexpectedFrame
    case UnexpectedFrame => ResultCode.UnexpectedFrame
    case _ => ResultCode.InvalidRequest
  }

  function Reply(t: MessageType, requestId: u64, transferId: u64, payload: Bytes): (f: Frame)
    requires |payload| < U32_LIMIT
  {
    Frame(MakeHeader(t, |payload|, requestId, transferId), payload)
  }

  function ResultFrame(requestId: u64, transferId: u64, code: ResultCode): Frame
  {
    Reply(TransferResult, requestId, transferId, EncodeResult(code))
  }

  /** How a blocking receive or send on the connection can fail. */
  datatype Io = PeerGone | SystemError | Malformed

  datatype Incoming = Arrived(frame: Frame) | Failed(io: Io)

  /** The transfer in progress: what `receive_file` keeps in its locals and in the open part file. */
  datatype Session = Session(
    meta: UploadMetadata,
    id: u64,
    offset: nat,
    position: nat,      // the file position of the part file's descriptor
    register: Word,     // the running checksum
    firstChunk: bool)

  datatype Phase = Open(session: Session) | Closed(status: Status)

  /** A rename of a part file to its final path, and whether both directories were synchronised after it. */
  datatype Commit = Commit(meta: UploadMetadata, id: u64, content: Bytes, durable: bool)

  /** Everything one step does: the store, the transfer, the frames it sends and the commit it makes. */
  datatype Step = Step(disk: Disk, phase: Phase, sent: seq<Frame>, commits: seq<Commit>)

  /** Outcomes of the system calls of one turn of the loop. */
  datatype Os = Os(
    truncates: bool,
    seeks: bool,
    writes: bool,
    written: nat,      // bytes that reached the file when the write failed
    syncs: bool,
    syncsAgain: bool,  // the sync made when the connection is lost
    unlinks: bool,
    renames: bool,
    syncsDirectories: bool,
    sends: bool)

  const HEALTHY: Os := Os(true, true, true, 0, true, true, true, true, true, true)

  // ---------------------------------------------------------------------------
  // The part file.
  // ---------------------------------------------------------------------------

  function SetPart(disk: Disk, m: UploadMetadata, p: Part): Disk
  {
    disk.(parts := disk.parts[m := p])
  }

  function DropPart(disk: Disk, m: UploadMetadata): Disk
  {
    disk.(parts := disk.parts - {m})
  }

  /** `write` at a file position: overwrites, extends, or fills a gap with zeros. */
  function WriteAt(content: Bytes, position: nat, data: Bytes): Bytes
  {
    if position > |content| then content + seq(position - |content|, _ => 0) + data
    else content[..position] + data + (if position + |data| < |content| then content[position + |data|..] else [])
  }

  /** `ftruncate` to zero and `lseek` to the start, with the locals that go with them. */
  function Rewound(s: Session): Session
  {
    s.(offset := 0, position := 0, register := ONES)
  }

  // ---------------------------------------------------------------------------
  // The loop.
  // ---------------------------------------------------------------------------

  /** What a frame asks for, before any system call; `restart` says the part is truncated first. */
  datatype Verdict =
    | Refuse(status: Status, restart: bool)
    | Append(data: Bytes, restart: bool)
    | Finish

  function Judge(s: Session, f: Frame, l: TransferLimits): (v: Verdict)
    ensures v.Append? ==>
      && 0 < |v.data| <= l.chunkSize
      && var at := if v.restart then 0 else s.offset;
         && at + |v.data| <= s.meta.fileSize
         && at < U64_LIMIT && f.payload == EncodeChunk(at, v.data)
    ensures v.Append? && v.restart ==> s.firstChunk && s.offset != 0
  {
    if f.header.requestId != s.id || f.header.transferId != s.id then Refuse(Status.UnexpectedFrame, false)
    else if f.header.messageType == TransferComplete then
      if f.payload != [] then Refuse(InvalidPayload, false)
      else if s.offset != s.meta.fileSize then Refuse(Status.SizeMismatch, false)
      else if WordNat(Xor(s.register, ONES)) != s.meta.checksum then Refuse(Status.ChecksumMismatch, false)
      else Finish
    else if f.header.messageType != MessageType.FileChunk then Refuse(UnexpectedMessageType, false)
    else
      match DecodeChunk(f.payload)
      case Err(_) => Refuse(InvalidPayload, false)
      case Ok(Chunk(at, data)) =>
        var restart := s.firstChunk && s.offset != 0 && at == 0;
        var offset := if restart then 0 else s.offset;
        if at != offset then Refuse(Status.UnexpectedOffset, restart)
        else if |data| > l.chunkSize || offset > s.meta.fileSize || |data| > s.meta.fileSize - offset then
          Refuse(Status.SizeMismatch, restart)
        else
          ChunkCanonical(f.payload);
          Append(data, restart)
  }

  /** `cleanup` before the rename, then the refusal is reported. */
  function Rejected(disk: Disk, s: Session, status: Status, os: Os): Step
  {
    Step(if os.unlinks then DropPart(disk, s.meta) else disk,
         Closed(if os.sends then status else FrameIoError),
         if os.sends then [ResultFrame(s.id, s.id, CodeFor(status))] else [],
         [])
  }

  /** A lost connection keeps the part once it is synchronised; malformed input discards it. */
  function Interrupted(disk: Disk, s: Session, io: Io, syncs: bool, unlinks: bool): Step
  {
    var dropped := if unlinks then DropPart(disk, s.meta) else disk;
    if io == Malformed then Step(dropped, Closed(FrameIoError), [], [])
    else if !syncs then Step(dropped, Closed(FileWriteError), [], [])
    else Step(disk, Closed(FrameIoError), [], [])
  }

  /** The chunk is written, added to the checksum, synchronised and acknowledged. */
  function Appended(disk: Disk, s: Session, data: Bytes, os: Os): Step
    requires s.meta in disk.parts && s.offset + |data| <= s.meta.fileSize
  {
    var part := disk.parts[s.meta];
    var taken := if os.written < |data| then data[..os.written] else data;
    if !os.writes then
      Rejected(SetPart(disk, s.meta, part.(content := WriteAt(part.content, s.position, taken))), s, FileWriteError, os)
    else
      var content := WriteAt(part.content, s.position, data);
      var s' := s.(offset := s.offset + |data|, position := s.position + |data|, register := Feed(s.register, data));
      if !os.syncs then
        Rejected(SetPart(disk, s.meta, part.(content := content)), s', FileWriteError, os)
      else
        var disk' := SetPart(disk, s.meta, Part(content, |content|));
        if !os.sends then Interrupted(disk', s', SystemError, os.syncsAgain, os.unlinks)
        else Step(disk', Open(s'), [Reply(Acknowledgment, s.id, s.id, EncodeOffset(s'.offset))], [])
  }

  /**
   * The verified part is synchronised and renamed, and success is reported once both directories are
   * synchronised. A rename cannot put a file where a directory is, nor below another file.
   */
  function Finished(disk: Disk, s: Session, os: Os): Step
    requires s.meta in disk.parts
  {
    if !os.syncs || !os.renames || InTheWay(disk.files, s.meta.filename) then Rejected(disk, s, FileCommitError, os)
    else
      var content := disk.parts[s.meta].content;
      var renamed := Disk(disk.parts - {s.meta}, disk.files[s.meta.filename := content]);
      var commit := Commit(s.meta, s.id, content, os.syncsDirectories);
      var status := if os.syncsDirectories then Status.Success else FileCommitError;
      var code := if os.syncsDirectories then ResultCode.Success else CodeFor(FileCommitError);
      Step(renamed,
           Closed(if os.sends then status else FrameIoError),
           if os.sends then [ResultFrame(s.id, s.id, code)] else [],
           [commit])
  }

  /** One turn of the loop in `receive_file`. */
  function Turn(disk: Disk, s: Session, input: Incoming, l: TransferLimits, os: Os): (r: Step)
    requires s.meta in disk.parts
  {
    if input.Failed? then Interrupted(disk, s, input.io, os.syncs, os.unlinks)
    else
      var v := Judge(s, input.frame, l);
      if v.Finish? then Finished(disk, s, os)
      else if v.restart && !os.truncates then Rejected(disk, s, FileWriteError, os)
      else
        var disk' := if v.restart then SetPart(disk, s.meta, Part([], 0)) else disk;
        if v.restart && !os.seeks then Rejected(disk', s, FileWriteError, os)
        else
          var s' := if v.restart then Rewound(s) else s;
          if v.Refuse? then Rejected(disk', s', v.status, os)
          else Appended(disk', s'.(firstChunk := false), v.data, os)
  }

  // ---------------------------------------------------------------------------
  // Before the loop.
  // ---------------------------------------------------------------------------

  /**
   * What `prepare_destination` meets on its way, besides committed files: nothing, a symbolic link or
   * a special file, or a failing call.
   */
  datatype Prepared = DestinationReady | DestinationInvalid | DestinationFailed

  const READ_SIZE: nat := 0x1_0000

  /** One `read` of the saved bytes: how many it delivered, an interruption, or a failure. */
  datatype ReadCall = Delivered(count: nat) | Retry | ReadFailed

  /** Whether reading `remaining` bytes succeeds; calls beyond those listed deliver all they are asked for. */
  predicate ReadsBack(remaining: nat, calls: seq<ReadCall>)
    decreases |calls|
  {
    if remaining == 0 || calls == [] then true
    else if calls[0].Retry? then ReadsBack(remaining, calls[1..])
    else if calls[0].ReadFailed? || calls[0].count == 0 then false
    else ReadsBack(remaining - Taken(remaining, calls[0].count), calls[1..])
  }

  /** A call delivers at most what is asked for, which is at most one buffer. */
  function Taken(remaining: nat, count: nat): (n: nat)
    ensures n <= remaining && n <= count
    ensures 0 < remaining && 0 < count ==> 0 < n
  {
    var requested := if remaining < READ_SIZE then remaining else READ_SIZE;
    if count < requested then count else requested
  }

  /** Outcomes of the system calls made before the loop. */
  datatype OpenOs = OpenOs(
    prepares: Prepared,
    tidy: bool,        // the partial directory can be read and holds nothing but part files
    opens: bool,
    checks: bool,      // the part is a private regular file and its lock was free
    truncates: bool,
    readCalls: seq<ReadCall>,
    sends: bool,
    syncs: bool,
    unlinks: bool)

  const HEALTHY_OPEN: OpenOs := OpenOs(DestinationReady, true, true, true, true, [], true, true, true)

  /** A refusal before the offer carries transfer ID zero and leaves the part file alone. */
  function RefusedEarly(disk: Disk, requestId: u64, status: Status, sends: bool): Step
  {
    Step(disk,
         Closed(if sends then status else FrameIoError),
         if sends then [ResultFrame(requestId, 0, CodeFor(status))] else [],
         [])
  }

  /** The status for a request whose payload does not decode. */
  function MetadataStatus(e: TransferCodecError): Status
  {
    if e == UnsafeFilename || e == EmptyFilename || e == FilenameTooLong then Status.InvalidPath else InvalidPayload
  }

  predicate WellFormedRequest(f: Frame, l: TransferLimits)
  {
    && f.header.messageType == UploadRequest && f.header.transferId == 0 && f.header.requestId != 0
    && ValidLimits(l)
  }

  /** `openat` with O_CREAT: an absent part appears empty. */
  function Created(disk: Disk, m: UploadMetadata): (disk': Disk)
    ensures m in disk'.parts
  {
    if m in disk.parts then disk else SetPart(disk, m, Part([], 0))
  }

  /** The saved content is longer than the declared size and cannot be a prefix. */
  predicate Oversized(disk: Disk, m: UploadMetadata)
    requires m in disk.parts
  {
    |disk.parts[m].content| > m.fileSize
  }

  /** The offer: where the transfer would resume, and the checksum of the bytes before that. */
  function OfferFrame(s: Session): Frame
    requires s.offset < U64_LIMIT
  {
    WordRoundTrip(Xor(s.register, ONES));
    Reply(MessageType.TransferReady, s.id, s.id, EncodeReady(Ready(s.offset, WordNat(Xor(s.register, ONES)))))
  }

  /** The part file is open: oversized content is cut, the rest is read back into the checksum, and offered. */
  function Offered(disk: Disk, m: UploadMetadata, id: u64, os: OpenOs): Step
    requires m in disk.parts
  {
    var cut := Oversized(disk, m);
    if cut && !os.truncates then RefusedEarly(disk, id, FileWriteError, os.sends)
    else
      var disk' := if cut then SetPart(disk, m, Part([], 0)) else disk;
      var content := disk'.parts[m].content;
      if !ReadsBack(|content|, os.readCalls) then RefusedEarly(disk', id, FileReadError, os.sends)
      else
        var s := Session(m, id, |content|, |content|, Feed(ONES, content), true);
        if os.sends then Step(disk', Open(s), [OfferFrame(s)], [])
        else Interrupted(disk', s, SystemError, os.syncs, os.unlinks)
  }

  /** `receive_file` up to and including the offer. */
  ghost function Begin(disk: Disk, f: Frame, l: TransferLimits, os: OpenOs): (r: Step)
  {
    var id := f.header.requestId;
    if !WellFormedRequest(f, l) then RefusedEarly(disk, id, Status.InvalidRequest, os.sends)
    else
      var decoded := DecodeMetadata(f.payload);
      if decoded.Err? then RefusedEarly(disk, id, MetadataStatus(decoded.error), os.sends)
      else
        var m := decoded.value;
        if m.fileSize > l.maxFileSize then RefusedEarly(disk, id, Status.FileTooLarge, os.sends)
        else if os.prepares == DestinationInvalid then RefusedEarly(disk, id, Status.InvalidPath, os.sends)
        else if os.prepares == DestinationFailed then RefusedEarly(disk, id, FileOpenError, os.sends)
        else if Blocked(disk.files, m.filename) then RefusedEarly(disk, id, Status.InvalidPath, os.sends)
        else if !os.tidy || !Admits(disk.parts, m, l) then RefusedEarly(disk, id, FileOpenError, os.sends)
        else if !os.opens then RefusedEarly(disk, id, FileOpenError, os.sends)
        else if !os.checks then RefusedEarly(Created(disk, m), id, FileOpenError, os.sends)
        else Offered(Created(disk, m), m, id, os)
  }
}
