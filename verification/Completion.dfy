/**
 * A connection on which nothing goes wrong: from any saved part, the upload reaches its end in a
 * known number of steps, and exactly when it succeeds and what it commits is known beforehand.
 */
module Completion {
  import opened Words
  import opened Wire
  import opened Frames
  import opened Paths
  import opened Bits
  import opened Checksum
  import opened TransferCodec
  import opened PartialStore
  import opened Receiver
  import opened ReceiveFile
  import opened ServerRuns
  import opened Sender
  import opened UploadRuns
  import Register

  // ---------------------------------------------------------------------------
  // What a resumed upload produces.
  // ---------------------------------------------------------------------------

  /** The saved bytes have the checksum of the source's prefix of that length. */
  predicate Accepted(saved: Bytes, source: Bytes)
  {
    |saved| <= |source| && Crc(saved) == Crc(source[..|saved|])
  }

  /** The content an upload of `source` commits when it starts from `saved`. */
  function Expected(saved: Bytes, source: Bytes): (content: Bytes)
  {
    if Accepted(saved, source) then saved + source[|saved|..] else source
  }

  /** Where the upload resumes. */
  function From(saved: Bytes, source: Bytes): nat
  {
    if Accepted(saved, source) then |saved| else 0
  }

  lemma ExpectedVerifies(saved: Bytes, source: Bytes)
    ensures var e := Expected(saved, source);
      && |e| == |source| && Crc(e) == Crc(source)
      && e[From(saved, source)..] == source[From(saved, source)..]
      && (Accepted(saved, source) ==> e[..From(saved, source)] == saved)
  {
    hide WordNat, FeedByte, Feed;
    if Accepted(saved, source) {
      var k := |saved|;
      EqualCrcEqualRegister(saved, source[..k]);
      FeedAppend(ONES, saved, source[k..]);
      FeedAppend(ONES, source[..k], source[k..]);
      assert source[..k] + source[k..] == source;
      assert (saved + source[k..])[..k] == saved;
    }
  }

  /** The committed bytes are the source's exactly unless a wrong prefix passed the checksum comparison. */
  lemma ExpectedIsSource(saved: Bytes, source: Bytes)
    ensures Expected(saved, source) == source <==> !Accepted(saved, source) || saved == source[..|saved|]
  {
    hide Crc;
    if Accepted(saved, source) {
      var k := |saved|;
      assert Expected(saved, source)[..k] == saved;
      assert source[..k] + source[k..] == source;
    }
  }

  /** A saved prefix damaged only within 32 consecutive bits is never resumed from: the source is committed. */
  lemma DamagedPrefixIsResent(saved: Bytes, source: Bytes, start: nat)
    requires |saved| <= |source| && saved != source[..|saved|]
    requires Register.AgreeOutsideBurst(MessageBits(saved), MessageBits(source[..|saved|]), start)
    ensures From(saved, source) == 0 && Expected(saved, source) == source
  {
    hide Crc, MessageBits;
    BurstErrorsDetected(saved, source[..|saved|], start);
  }

  /** But not every wrong prefix is noticed: each of at least five bytes has a twin that would be kept. */
  lemma WrongPrefixCanBeKept(source: Bytes, k: nat) returns (saved: Bytes)
    requires 5 <= k <= |source|
    ensures |saved| == k && From(saved, source) == k && Expected(saved, source) != source
    ensures |Expected(saved, source)| == |source| && Crc(Expected(saved, source)) == Crc(source)
  {
    hide Crc;
    saved := CollisionExists(source[..k]);
    ExpectedIsSource(saved, source);
    ExpectedVerifies(saved, source);
  }

  // ---------------------------------------------------------------------------
  // The server's part.
  // ---------------------------------------------------------------------------

  function RequestFrame(u: Upload): Frame
    requires |u.source| < U64_LIMIT && Safe(u.filename)
  {
    SafeLength(u.filename);
    Reply(UploadRequest, u.requestId, 0, EncodeMetadata(MetadataOf(u)))
  }

  /** The client's own checks pass. */
  ghost predicate Startable(u: Upload)
  {
    Representable(u) && u.requestId != 0 && Safe(u.filename) && ValidLimits(u.limits)
      && |u.source| <= u.limits.maxFileSize
  }

  /** The upload is within the server's limits, and there is room for it among the parts. */
  ghost predicate HasRoom(l: TransferLimits, parts: Parts, m: UploadMetadata)
  {
    ValidLimits(l) && m.fileSize <= l.maxFileSize && Admits(parts, m, l)
  }

  /** The server's checks of the request pass: room, and no file in place of a parent directory. */
  ghost predicate Accepts(l: TransferLimits, disk: Disk, m: UploadMetadata)
  {
    HasRoom(l, disk.parts, m) && !Blocked(disk.files, m.filename)
  }

  /** The saved bytes that will be offered: nothing if there are none or too many. */
  function Saved(parts: Parts, m: UploadMetadata): (saved: Bytes)
    ensures |saved| <= m.fileSize
  {
    if m in parts && |parts[m].content| <= m.fileSize then parts[m].content else []
  }

  function Offering(u: Upload, saved: Bytes): Session
    requires |u.source| < U64_LIMIT
  {
    Session(MetadataOf(u), u.requestId, |saved|, |saved|, Feed(ONES, saved), true)
  }

  /** Only the part of `m` may differ. */
  ghost predicate SameElsewhere(disk: Disk, disk': Disk, m: UploadMetadata)
  {
    disk'.parts - {m} == disk.parts - {m} && disk'.files == disk.files
  }

  lemma BeginCalm(u: Upload, l: TransferLimits, disk: Disk)
    requires Startable(u) && Accepts(l, disk, MetadataOf(u))
    ensures var m := MetadataOf(u);
      var saved := Saved(disk.parts, m);
      var s, r := Offering(u, saved), Begin(disk, RequestFrame(u), l, HEALTHY_OPEN);
      && r.phase == Open(s) && r.sent == [OfferFrame(s)] && r.commits == []
      && SameElsewhere(disk, r.disk, m) && m in r.disk.parts && r.disk.parts[m].content == saved
  {
    hide DecodeMetadata, EncodeMetadata, Admits, Blocked, Feed, Crc, EncodeReady, WordNat;
    MetadataRoundTrip(MetadataOf(u));
  }

  /** A request the server does not accept is answered at once, and nothing changes. */
  lemma BeginRefuses(u: Upload, l: TransferLimits, disk: Disk) returns (status: Status)
    requires Startable(u) && !Accepts(l, disk, MetadataOf(u))
    ensures Begin(disk, RequestFrame(u), l, HEALTHY_OPEN)
         == Step(disk, Closed(status), [ResultFrame(u.requestId, 0, CodeFor(status))], [])
  {
    hide DecodeMetadata, EncodeMetadata, Admits, Blocked, Feed, Crc;
    MetadataRoundTrip(MetadataOf(u));
    var m := MetadataOf(u);
    status := if !ValidLimits(l) then Status.InvalidRequest
              else if m.fileSize > l.maxFileSize then Status.FileTooLarge
              else if Blocked(disk.files, m.filename) then Status.InvalidPath
              else FileOpenError;
  }

  function ChunkFrame(u: Upload, id: u64, o: nat): Frame
    requires |u.source| < U64_LIMIT && ValidLimits(u.limits) && o <= |u.source|
  {
    Reply(MessageType.FileChunk, u.requestId, id, EncodeChunk(o, NextChunk(u, o)))
  }

  function AckFrame(id: u64, o: u64): Frame
  {
    Reply(Acknowledgment, id, id, EncodeOffset(o))
  }

  /** The server holds `e[..o]`, or is about to restart at zero. */
  ghost predicate Holds(u: Upload, disk: Disk, s: Session, e: Bytes, o: nat)
    requires Representable(u)
  {
    && SessionOk(disk, s) && s.meta == MetadataOf(u) && s.id == u.requestId
    && |e| == |u.source| && o <= |u.source| && e[o..] == u.source[o..]
    && ((s.offset == o && disk.parts[s.meta].content == e[..o]) || (o == 0 && s.firstChunk && 0 < s.offset))
  }

  lemma ChunkJudged(u: Upload, l: TransferLimits, disk: Disk, s: Session, e: Bytes, o: nat)
    requires Startable(u) && Holds(u, disk, s, e, o) && o < |u.source|
    ensures var data := NextChunk(u, o);
      && data == e[o..o + |data|] && 0 < |data|
      && Judge(s, ChunkFrame(u, u.requestId, o), l) ==
           if |data| <= l.chunkSize then Append(data, s.offset != o) else Refuse(Status.SizeMismatch, s.offset != o)
  {
    hide Feed, Crc, EncodeChunk, DecodeChunk, WordNat;
    var data := NextChunk(u, o);
    ChunkRoundTrip(o, data);
    assert data == u.source[o..][..|data|] == e[o..][..|data|];
  }

  /** A chunk that is accepted extends what is kept of the part by its data. */
  lemma AppendTurn(disk: Disk, s: Session, f: Frame, l: TransferLimits, data: Bytes, restart: bool)
    requires SessionOk(disk, s) && Judge(s, f, l) == Append(data, restart)
    ensures var content := (if restart then [] else disk.parts[s.meta].content) + data;
      var r := Turn(disk, s, Arrived(f), l, HEALTHY);
      && |content| < U64_LIMIT && r.disk == SetPart(disk, s.meta, Part(content, |content|)) && r.phase.Open?
      && r.phase.session.offset == |content| && r.sent == [AckFrame(s.id, |content|)] && r.commits == []
  {
    hide Feed, Judge, WriteAt, PutUint;
    WriteAtEnd(disk.parts[s.meta].content, data);
    WriteAtEnd([], data);
    var content := (if restart then [] else disk.parts[s.meta].content) + data;
    var p := Part(content, |content|);
    assert disk.parts[s.meta := Part([], 0)][s.meta := p] == disk.parts[s.meta := p];
  }

  lemma ChunkCalm(u: Upload, l: TransferLimits, disk: Disk, s: Session, e: Bytes, o: nat)
    requires PartsOk(disk.parts)
    requires Startable(u) && Holds(u, disk, s, e, o) && o < |u.source| && |NextChunk(u, o)| <= l.chunkSize
    ensures var o' := o + |NextChunk(u, o)|;
      var r := Turn(disk, s, Arrived(ChunkFrame(u, u.requestId, o)), l, HEALTHY);
      && r.phase.Open? && r.sent == [AckFrame(u.requestId, o')] && r.commits == []
      && SameElsewhere(disk, r.disk, s.meta)
      && Holds(u, r.disk, r.phase.session, e, o') && r.phase.session.offset == o'
  {
    hide Feed, Crc, Judge, Turn, PutUint, ChunkFrame, AckFrame, NextChunk;
    var data, f := NextChunk(u, o), ChunkFrame(u, u.requestId, o);
    ChunkBounds(u, o);
    ChunkJudged(u, l, disk, s, e, o);
    AppendTurn(disk, s, f, l, data, s.offset != o);
    TurnKeeps(disk, s, Arrived(f), l, HEALTHY);
    TurnStays(disk, s, Arrived(f), l, HEALTHY);
    assert e[..o] + data == e[..o + |data|];
    assert [] + data == data && e[..0] == [];
    assert e[o + |data|..] == e[o..][|data|..] == u.source[o..][|data|..] == u.source[o + |data|..];
  }

  /** A chunk larger than the server's chunk size ends the transfer, and the part is gone. */
  lemma ChunkRefused(u: Upload, l: TransferLimits, disk: Disk, s: Session, e: Bytes, o: nat)
    requires Startable(u) && Holds(u, disk, s, e, o) && o < |u.source| && |NextChunk(u, o)| > l.chunkSize
    ensures var r := Turn(disk, s, Arrived(ChunkFrame(u, u.requestId, o)), l, HEALTHY);
      && r.phase == Closed(Status.SizeMismatch) && r.commits == []
      && r.sent == [ResultFrame(u.requestId, u.requestId, ResultCode.SizeMismatch)]
      && r.disk == DropPart(disk, s.meta)
  {
    hide Feed, Crc, EncodeChunk, DecodeChunk, Judge, PutUint, ChunkFrame;
    ChunkJudged(u, l, disk, s, e, o);
    assert SetPart(disk, s.meta, Part([], 0)).parts - {s.meta} == disk.parts - {s.meta};
  }

  function CompleteFrame(u: Upload): Frame
  {
    Reply(TransferComplete, u.requestId, u.requestId, [])
  }

  lemma CompleteCalm(u: Upload, l: TransferLimits, disk: Disk, s: Session, e: Bytes)
    requires Startable(u) && Holds(u, disk, s, e, |u.source|) && s.offset == |u.source| && Crc(e) == Crc(u.source)
    requires !InTheWay(disk.files, u.filename)
    ensures Turn(disk, s, Arrived(CompleteFrame(u)), l, HEALTHY) ==
      Step(Disk(disk.parts - {s.meta}, disk.files[u.filename := e]), Closed(Status.Success),
           [ResultFrame(u.requestId, u.requestId, ResultCode.Success)], [Commit(s.meta, u.requestId, e, true)])
  {
    hide Feed, WordNat, EncodeResult;
    assert e[..|u.source|] == e;
  }

  /** With something in the way the rename fails: the complete part is dropped and the refusal sent. */
  lemma CompleteRefused(u: Upload, l: TransferLimits, disk: Disk, s: Session, e: Bytes)
    requires Startable(u) && Holds(u, disk, s, e, |u.source|) && s.offset == |u.source| && Crc(e) == Crc(u.source)
    requires InTheWay(disk.files, u.filename)
    ensures Turn(disk, s, Arrived(CompleteFrame(u)), l, HEALTHY) ==
      Step(DropPart(disk, s.meta), Closed(FileCommitError), [ResultFrame(u.requestId, u.requestId, FileIoError)], [])
  {
    hide Feed, WordNat, EncodeResult, InTheWay;
    assert e[..|u.source|] == e;
  }

  // ---------------------------------------------------------------------------
  // The client's part.
  // ---------------------------------------------------------------------------

  lemma OfferRead(u: Upload, saved: Bytes)
    requires Startable(u) && |saved| <= |u.source|
    ensures var from := From(saved, u.source);
      && from <= |u.source|
      && OnFrame(u, AwaitReady, Arrived(OfferFrame(Offering(u, saved))), CLIENT_HEALTHY)
         == Advance(u, u.requestId, from, from, CLIENT_HEALTHY)
  {
    hide Feed, WordNat, EncodeReady, DecodeReady, Advance;
    CrcRange(saved);
    ReadyRoundTrip(Ready(|saved|, Crc(saved)));
    OfferShape(u, saved);
    CrcOfNothing();
  }

  lemma OfferShape(u: Upload, saved: Bytes)
    requires Representable(u) && |saved| <= |u.source|
    ensures Crc(saved) < U32_LIMIT
    ensures OfferFrame(Offering(u, saved))
         == Reply(MessageType.TransferReady, u.requestId, u.requestId, EncodeReady(Ready(|saved|, Crc(saved))))
  {
    hide Feed, WordNat, EncodeReady;
    CrcRange(saved);
  }

  lemma AckRead(u: Upload, o: nat, from: nat)
    requires Startable(u) && o <= |u.source|
    ensures OnFrame(u, AwaitAck(u.requestId, o, from), Arrived(AckFrame(u.requestId, o)), CLIENT_HEALTHY)
         == Advance(u, u.requestId, o, from, CLIENT_HEALTHY)
  {
    hide Advance, EncodeOffset, DecodeOffset;
    OffsetRoundTrip(o);
  }

  lemma SuccessRead(u: Upload, from: nat)
    requires Startable(u)
    ensures OnFrame(u, AwaitResult(u.requestId, |u.source|, from),
                    Arrived(ResultFrame(u.requestId, u.requestId, ResultCode.Success)), CLIENT_HEALTHY)
         == Move(Ended(Outcome(Status.Success, |u.source|, from, None)), [])
  {
    ResultRoundTrip(ResultCode.Success);
  }

  lemma FailureRead(u: Upload, from: nat)
    requires Startable(u)
    ensures OnFrame(u, AwaitResult(u.requestId, |u.source|, from),
                    Arrived(ResultFrame(u.requestId, u.requestId, FileIoError)), CLIENT_HEALTHY)
         == Move(Ended(Outcome(RemoteRejected, |u.source|, from, Some(FileIoError))), [])
  {
    ResultRoundTrip(FileIoError);
  }

  lemma OversizeRead(u: Upload, o: nat, from: nat)
    requires Startable(u) && o <= |u.source|
    ensures OnFrame(u, AwaitAck(u.requestId, o, from),
                    Arrived(ResultFrame(u.requestId, u.requestId, ResultCode.SizeMismatch)), CLIENT_HEALTHY)
         == Fail(UnexpectedMessageType)
  {
  }

  lemma RefusalRead(u: Upload, status: Status)
    requires Startable(u)
    ensures var code := CodeFor(status);
      OnFrame(u, AwaitReady, Arrived(ResultFrame(u.requestId, 0, code)), CLIENT_HEALTHY)
        == Move(Ended(Outcome(RemoteRejected, 0, 0, Some(code))), [])
  {
    ResultRoundTrip(CodeFor(status));
  }

  // ---------------------------------------------------------------------------
  // Both together.
  // ---------------------------------------------------------------------------

  /** The server reads if there is something to read, else the client does, and all calls succeed. */
  ghost function CalmNext(u: Upload, l: TransferLimits, files: map<Path, Bytes>, w: World): (w': World)
    requires Sound(u, files, w)
    ensures Sound(u, files, w')
  {
    var h := if w.toServer != [] then ServerReads(HEALTHY_OPEN, HEALTHY) else ClientReads(CLIENT_HEALTHY);
    DoSound(u, l, files, w, h);
    Do(u, l, w, h)
  }

  ghost function Calm(u: Upload, l: TransferLimits, files: map<Path, Bytes>, w: World, n: nat): (w': World)
    requires Sound(u, files, w)
    ensures Sound(u, files, w')
    decreases n
  {
    if n == 0 then w else Calm(u, l, files, CalmNext(u, l, files, w), n - 1)
  }

  /** What the transfer is heading for, and what was there when it started. */
  datatype Goal = Goal(
    expected: Bytes,
    from: nat,
    others: Parts,
    files: map<Path, Bytes>,
    commits: seq<Commit>,
    sent: nat)

  ghost predicate OnCourse(u: Upload, w: World, g: Goal)
    requires Representable(u)
  {
    && w.linked && PartsOk(w.server.disk.parts)
    && w.server.disk.parts - {MetadataOf(u)} == g.others && w.server.disk.files == g.files
    && w.server.commits == g.commits
    && |g.expected| == |u.source| && Crc(g.expected) == Crc(u.source)
  }

  /** The client has just sent the chunk at `o`, or the end of the file. */
  ghost predicate Transferring(u: Upload, w: World, g: Goal, o: nat)
    requires Representable(u) && ValidLimits(u.limits)
  {
    && OnCourse(u, w, g) && w.server.session.Some? && Holds(u, w.server.disk, w.server.session.value, g.expected, o)
    && w.toClient == [] && g.from <= o <= |u.source|
    && if o < |u.source| then
         && w.toServer == [ChunkFrame(u, u.requestId, o)]
         && w.client == AwaitAck(u.requestId, o + |NextChunk(u, o)|, g.from)
         && w.chunkBytes == g.sent + o + |NextChunk(u, o)| - g.from
       else
         && w.toServer == [CompleteFrame(u)] && w.server.session.value.offset == o
         && w.client == AwaitResult(u.requestId, o, g.from)
         && w.chunkBytes == g.sent + o - g.from
  }

  /** The server has acknowledged everything up to `o`. */
  ghost predicate Acked(u: Upload, w: World, g: Goal, o: nat)
    requires Representable(u)
  {
    && OnCourse(u, w, g) && w.server.session.Some? && Holds(u, w.server.disk, w.server.session.value, g.expected, o)
    && w.server.session.value.offset == o && g.from <= o <= |u.source|
    && w.toServer == [] && w.toClient == [AckFrame(u.requestId, o)]
    && w.client == AwaitAck(u.requestId, o, g.from)
    && w.chunkBytes == g.sent + o - g.from
  }

  /** The file is committed and the client knows. */
  ghost predicate Done(u: Upload, w: World, g: Goal)
    requires Representable(u)
  {
    && w.client == Ended(Outcome(Status.Success, |u.source|, g.from, None))
    && w.toServer == [] && w.toClient == [] && w.server.session.None?
    && w.server.disk == Disk(g.others, g.files[u.filename := g.expected])
    && w.server.commits == g.commits + [Commit(MetadataOf(u), u.requestId, g.expected, true)]
    && g.from <= |u.source| && w.chunkBytes == g.sent + |u.source| - g.from
  }

  /** The file is complete but cannot be put in its place: the part is gone and the client knows. */
  ghost predicate Foiled(u: Upload, w: World, g: Goal)
    requires Representable(u)
  {
    && w.client == Ended(Outcome(RemoteRejected, |u.source|, g.from, Some(FileIoError)))
    && w.toServer == [] && w.toClient == [] && w.server.session.None?
    && w.server.disk == Disk(g.others, g.files) && w.server.commits == g.commits
    && g.from <= |u.source| && w.chunkBytes == g.sent + |u.source| - g.from
  }

  lemma DataInOne(f: Frame)
    ensures DataIn([f]) == if f.header.messageType == MessageType.FileChunk && |f.payload| >= CHUNK_OFFSET
                           then |f.payload| - CHUNK_OFFSET else 0
  {
    assert [f][1..] == [];
  }

  lemma Advances(u: Upload, w: World, g: Goal, o: nat)
    requires Startable(u) && OnCourse(u, w, g) && w.server.session.Some?
    requires Holds(u, w.server.disk, w.server.session.value, g.expected, o)
    requires o == |u.source| ==> w.server.session.value.offset == o
    requires w.toServer == [] && w.toClient == [] && g.from <= o <= |u.source| && w.chunkBytes == g.sent + o - g.from
    ensures Transferring(u, Moved(w, Advance(u, u.requestId, o, g.from, CLIENT_HEALTHY)), g, o)
  {
    hide Crc, PutUint, SessionOk, DataIn;
    var m := Advance(u, u.requestId, o, g.from, CLIENT_HEALTHY);
    assert m.sent == [m.sent[0]];
    DataInOne(m.sent[0]);
    assert [] + m.sent == m.sent;
  }

  lemma ChunkStep(u: Upload, l: TransferLimits, files: map<Path, Bytes>, w: World, g: Goal, o: nat)
    requires Sound(u, files, w) && Startable(u) && Transferring(u, w, g, o) && o < |u.source|
      && |NextChunk(u, o)| <= l.chunkSize
    ensures Acked(u, CalmNext(u, l, files, w), g, o + |NextChunk(u, o)|)
  {
    hide Crc, Turn, Holds, ChunkFrame, AckFrame, Asks, Announces, Verified, Replay, Backed, NextChunk;
    var st := w.server;
    HoldsSession(u, st.disk, st.session.value, g.expected, o);
    TurnKeeps(st.disk, st.session.value, Arrived(w.toServer[0]), l, HEALTHY);
    ChunkBounds(u, o);
    ChunkCalm(u, l, st.disk, st.session.value, g.expected, o);
    assert w.toServer[1..] == [];
    var r := Turn(st.disk, st.session.value, Arrived(w.toServer[0]), l, HEALTHY);
    assert st.commits + [] == st.commits && [] + r.sent == r.sent;
  }

  lemma HoldsSession(u: Upload, disk: Disk, s: Session, e: Bytes, o: nat)
    requires Representable(u) && Holds(u, disk, s, e, o)
    ensures SessionOk(disk, s) && s.meta == MetadataOf(u) && s.id == u.requestId
  {
  }

  lemma ChunkBounds(u: Upload, o: nat)
    requires ValidLimits(u.limits) && o < |u.source|
    ensures 0 < |NextChunk(u, o)| && o + |NextChunk(u, o)| <= |u.source|
    ensures |NextChunk(u, o)| == Min(u.limits.chunkSize, |u.source| - o)
  {
  }

  lemma AckStep(u: Upload, l: TransferLimits, files: map<Path, Bytes>, w: World, g: Goal, o: nat)
    requires Sound(u, files, w) && Startable(u) && Acked(u, w, g, o)
    ensures Transferring(u, CalmNext(u, l, files, w), g, o)
  {
    hide Crc, OnFrame, Holds, AckFrame, Advance, Asks, Announces, Inv, Turn, Begin, Transferring;
    AckRead(u, o, g.from);
    assert w.toClient[1..] == [];
    Advances(u, w.(toClient := []), g, o);
    assert w.toClient[0] == AckFrame(u.requestId, o);
    assert CalmNext(u, l, files, w) == Moved(w.(toClient := []), Advance(u, u.requestId, o, g.from, CLIENT_HEALTHY));
  }

  lemma FinishSteps(u: Upload, l: TransferLimits, files: map<Path, Bytes>, w: World, g: Goal)
    requires Sound(u, files, w) && Startable(u) && Transferring(u, w, g, |u.source|)
    requires !InTheWay(g.files, u.filename)
    ensures Done(u, Calm(u, l, files, w, 2), g)
  {
    hide Crc, Turn, Holds, CompleteFrame, ResultFrame, Asks, Announces, Inv, OnFrame, Begin, InTheWay;
    var st := w.server;
    var s := st.session.value;
    HoldsSession(u, st.disk, s, g.expected, |u.source|);
    CompleteCalm(u, l, st.disk, s, g.expected);
    var w1 := CalmNext(u, l, files, w);
    assert w.toServer[1..] == [] && w1.toServer == [];
    var success := ResultFrame(u.requestId, u.requestId, ResultCode.Success);
    assert w1.toClient == [success];
    SuccessRead(u, g.from);
    var w2 := CalmNext(u, l, files, w1);
    assert w1.toClient[1..] == [];
    assert w1.toServer + [] == [];
    assert Calm(u, l, files, w, 2) == Calm(u, l, files, w1, 1) == Calm(u, l, files, w2, 0) == w2;
  }

  lemma FoiledSteps(u: Upload, l: TransferLimits, files: map<Path, Bytes>, w: World, g: Goal)
    requires Sound(u, files, w) && Startable(u) && Transferring(u, w, g, |u.source|)
    requires InTheWay(g.files, u.filename)
    ensures Foiled(u, Calm(u, l, files, w, 2), g)
  {
    hide Crc, Turn, Holds, CompleteFrame, ResultFrame, Asks, Announces, Inv, OnFrame, Begin, InTheWay;
    var st := w.server;
    var s := st.session.value;
    HoldsSession(u, st.disk, s, g.expected, |u.source|);
    CompleteRefused(u, l, st.disk, s, g.expected);
    var w1 := CalmNext(u, l, files, w);
    assert st.commits + [] == st.commits;
    assert w.toServer[1..] == [] && w1.toServer == [];
    var refusal := ResultFrame(u.requestId, u.requestId, FileIoError);
    assert w1.toClient == [refusal];
    FailureRead(u, g.from);
    var w2 := CalmNext(u, l, files, w1);
    assert w1.toClient[1..] == [];
    assert w1.toServer + [] == [];
    assert Calm(u, l, files, w, 2) == Calm(u, l, files, w1, 1) == Calm(u, l, files, w2, 0) == w2;
  }

  lemma CalmTwice(u: Upload, l: TransferLimits, files: map<Path, Bytes>, w: World, n: nat)
    requires Sound(u, files, w)
    ensures Calm(u, l, files, w, n + 2) == Calm(u, l, files, CalmNext(u, l, files, CalmNext(u, l, files, w)), n)
    ensures Calm(u, l, files, w, 2) == CalmNext(u, l, files, CalmNext(u, l, files, w))
  {
    hide CalmNext, Sound;
    var w1 := CalmNext(u, l, files, w);
    assert Calm(u, l, files, w, n + 2)
         == Calm(u, l, files, w1, n + 1) == Calm(u, l, files, CalmNext(u, l, files, w1), n);
    assert Calm(u, l, files, w, 2) == Calm(u, l, files, w1, 1) == Calm(u, l, files, CalmNext(u, l, files, w1), 0);
  }

  /** How many chunks the rest of the file takes. */
  function Chunks(u: Upload, o: nat): (n: nat)
    requires ValidLimits(u.limits)
    decreases |u.source| - o
  {
    if o >= |u.source| then 0 else 1 + Chunks(u, o + Min(u.limits.chunkSize, |u.source| - o))
  }

  lemma {:induction false} ChunksNeeded(u: Upload, o: nat)
    requires ValidLimits(u.limits) && o <= |u.source|
    ensures (Chunks(u, o) - 1) * u.limits.chunkSize < |u.source| - o <= Chunks(u, o) * u.limits.chunkSize
      || (o == |u.source| && Chunks(u, o) == 0)
    decreases |u.source| - o
  {
    var size := u.limits.chunkSize;
    if o < |u.source| {
      var step := Min(size, |u.source| - o);
      ChunksNeeded(u, o + step);
      var rest: int := Chunks(u, o + step);
      assert Chunks(u, o) == 1 + rest;
      assert (1 + rest) * size == size + rest * size;
      assert (rest - 1) * size == rest * size - size;
    }
  }

  lemma {:induction false} CalmAppend(u: Upload, l: TransferLimits, files: map<Path, Bytes>, w: World, m: nat, n: nat)
    requires Sound(u, files, w)
    ensures Calm(u, l, files, w, m + n) == Calm(u, l, files, Calm(u, l, files, w, m), n)
    decreases m
  {
    hide CalmNext, Sound;
    if m != 0 {
      CalmAppend(u, l, files, CalmNext(u, l, files, w), m - 1, n);
    }
  }

  /** The client sends what is left of the file, and then says so. */
  lemma {:induction false} ReachesEnd(u: Upload, l: TransferLimits, files: map<Path, Bytes>, w: World, g: Goal, o: nat)
    requires Sound(u, files, w) && Startable(u) && Transferring(u, w, g, o)
    requires Min(u.limits.chunkSize, |u.source| - g.from) <= l.chunkSize
    ensures Transferring(u, Calm(u, l, files, w, 2 * Chunks(u, o)), g, |u.source|)
    decreases |u.source| - o
  {
    hide Sound, OnCourse, Holds, ChunkFrame, CompleteFrame, CalmNext, NextChunk;
    if o < |u.source| {
      ChunkBounds(u, o);
      var o' := o + |NextChunk(u, o)|;
      ChunkStep(u, l, files, w, g, o);
      AckStep(u, l, files, CalmNext(u, l, files, w), g, o');
      ReachesEnd(u, l, files, CalmNext(u, l, files, CalmNext(u, l, files, w)), g, o');
      CalmTwice(u, l, files, w, 2 * Chunks(u, o'));
      assert Chunks(u, o) == 1 + Chunks(u, o');
    }
  }

  /** Once the client is sending, it sends the rest, and the file is committed unless something is in the way. */
  lemma Transfers(u: Upload, l: TransferLimits, files: map<Path, Bytes>, w: World, g: Goal, o: nat)
    requires Sound(u, files, w) && Startable(u) && Transferring(u, w, g, o)
    requires Min(u.limits.chunkSize, |u.source| - g.from) <= l.chunkSize
    ensures var w' := Calm(u, l, files, w, 2 * Chunks(u, o) + 2);
      if InTheWay(g.files, u.filename) then Foiled(u, w', g) else Done(u, w', g)
  {
    hide Sound, Transferring, Calm, Done, Foiled, InTheWay;
    ReachesEnd(u, l, files, w, g, o);
    var w1 := Calm(u, l, files, w, 2 * Chunks(u, o));
    if InTheWay(g.files, u.filename) {
      FoiledSteps(u, l, files, w1, g);
    } else {
      FinishSteps(u, l, files, w1, g);
    }
    CalmAppend(u, l, files, w, 2 * Chunks(u, o), 2);
  }

  /** A fresh connection on which the request has been sent. */
  ghost predicate Connected(u: Upload, w: World)
  {
    && Startable(u) && w.linked && w.client == AwaitReady && w.server.session.None?
    && w.toServer == [RequestFrame(u)] && w.toClient == []
  }

  lemma ConnectConnects(u: Upload, l: TransferLimits, files: map<Path, Bytes>, w: World)
    requires Sound(u, files, w) && Startable(u) && !w.linked && w.server.session.None?
    ensures var w' := Do(u, l, w, Connect(CLIENT_HEALTHY));
      Connected(u, w') && w'.server == w.server && w'.chunkBytes == w.chunkBytes
  {
    hide Crc, EncodeMetadata, Inv, Asks, Announces, DataIn;
    var sent := Start(u, CLIENT_HEALTHY).sent;
    assert [] + sent == sent && sent == [RequestFrame(u)];
    DataInOne(RequestFrame(u));
  }

  ghost function GoalOf(u: Upload, w: World): (g: Goal)
    requires Representable(u)
    ensures g.from <= |u.source|
  {
    var m, disk := MetadataOf(u), w.server.disk;
    var saved := Saved(disk.parts, m);
    Goal(Expected(saved, u.source), From(saved, u.source), disk.parts - {m}, disk.files, w.server.commits, w.chunkBytes)
  }

  /** Between the offer and the client's answer to it, nothing else can happen. */
  ghost predicate AtOffer(u: Upload, w: World, g: Goal, saved: Bytes)
    requires Representable(u)
  {
    && |saved| <= |u.source| && OnCourse(u, w, g) && w.server.session == Some(Offering(u, saved))
    && Holds(u, w.server.disk, Offering(u, saved), g.expected, g.from) && g.from == From(saved, u.source)
    && w.toServer == [] && w.toClient == [OfferFrame(Offering(u, saved))] && w.client == AwaitReady
    && w.chunkBytes == g.sent
  }

  lemma OfferHolds(u: Upload, disk: Disk, saved: Bytes)
    requires Startable(u) && MetadataOf(u) in disk.parts && disk.parts[MetadataOf(u)].content == saved
      && |saved| <= |u.source|
    ensures var g := Expected(saved, u.source);
      && Holds(u, disk, Offering(u, saved), g, From(saved, u.source))
      && |g| == |u.source| && Crc(g) == Crc(u.source)
  {
    hide Crc, Feed;
    ExpectedVerifies(saved, u.source);
    assert saved == [] ==> u.source[..0] == saved;
  }

  lemma BeginStep(u: Upload, l: TransferLimits, files: map<Path, Bytes>, w: World)
    requires Sound(u, files, w) && Connected(u, w) && Accepts(l, w.server.disk, MetadataOf(u))
    ensures AtOffer(u, CalmNext(u, l, files, w), GoalOf(u, w), Saved(w.server.disk.parts, MetadataOf(u)))
  {
    hide Crc, Begin, RequestFrame, OfferFrame, Feed, Asks, Announces, Verified, Replay, Backed, Admits, Holds,
      Expected, From;
    var st, m := w.server, MetadataOf(u);
    var saved := Saved(st.disk.parts, m);
    BeginKeeps(st.disk, w.toServer[0], l, HEALTHY_OPEN);
    BeginCalm(u, l, st.disk);
    var r := Begin(st.disk, w.toServer[0], l, HEALTHY_OPEN);
    MetadataRoundTrip(m);
    RequestDecodes(u);
    OfferHolds(u, r.disk, saved);
    RequestIsRequest(u);
    assert w.toServer[1..] == [] && [] + r.sent == r.sent && st.commits + [] == st.commits;
  }

  lemma RequestDecodes(u: Upload)
    requires Startable(u)
    ensures DecodeMetadata(RequestFrame(u).payload) == Ok(MetadataOf(u))
  {
    hide Crc, DecodeMetadata, EncodeMetadata;
    MetadataRoundTrip(MetadataOf(u));
  }

  lemma RequestIsRequest(u: Upload)
    requires Startable(u)
    ensures RequestFrame(u).header.messageType == UploadRequest
  {
  }

  lemma OfferStep(u: Upload, l: TransferLimits, files: map<Path, Bytes>, w: World, g: Goal, saved: Bytes)
    requires Sound(u, files, w) && Startable(u) && AtOffer(u, w, g, saved)
    ensures Transferring(u, CalmNext(u, l, files, w), g, g.from)
  {
    hide Crc, OnFrame, Holds, OfferFrame, Advance, Asks, Announces, Inv, Turn, Begin, Transferring, From;
    OfferRead(u, saved);
    FromEnd(u, saved);
    assert w.toClient[1..] == [];
    assert w.toClient[0] == OfferFrame(Offering(u, saved));
    Advances(u, w.(toClient := []), g, g.from);
    assert CalmNext(u, l, files, w)
         == Moved(w.(toClient := []), Advance(u, u.requestId, g.from, g.from, CLIENT_HEALTHY));
  }

  lemma FromEnd(u: Upload, saved: Bytes)
    requires |saved| <= |u.source|
    ensures From(saved, u.source) == |u.source| ==> |saved| == |u.source|
  {
  }

  /** The server takes the whole file: it accepts the request, and the first chunk is not too large for it. */
  ghost predicate Takes(u: Upload, l: TransferLimits, w: World)
    requires Representable(u)
  {
    Accepts(l, w.server.disk, MetadataOf(u)) && Min(u.limits.chunkSize, |u.source| - GoalOf(u, w).from) <= l.chunkSize
  }

  /** And it can put it in its place: that is not a directory with files. */
  ghost predicate Welcome(u: Upload, l: TransferLimits, w: World)
    requires Representable(u)
  {
    Takes(u, l, w) && !Occupied(w.server.disk.files, u.filename)
  }

  lemma WelcomeIsFree(u: Upload, l: TransferLimits, w: World)
    requires Representable(u) && Takes(u, l, w)
    ensures InTheWay(w.server.disk.files, u.filename) <==> Occupied(w.server.disk.files, u.filename)
  {
  }

  /**
   * An upload that the server takes on a calm connection ends after exactly four steps and two for
   * each chunk. It is committed: the client reports success, it has sent exactly the bytes after the
   * resume point, the final path holds the expected content, the part is gone, and nothing else has
   * changed. Only if the final path is a directory with files, nothing is committed, and the client
   * reports the server's file error after having sent it all.
   */
  lemma UploadEnds(u: Upload, l: TransferLimits, files: map<Path, Bytes>, w: World)
    requires Sound(u, files, w) && Connected(u, w) && Takes(u, l, w)
    ensures var g := GoalOf(u, w);
      var w' := Calm(u, l, files, w, 4 + 2 * Chunks(u, g.from));
      if Occupied(w.server.disk.files, u.filename) then Foiled(u, w', g) else Done(u, w', g)
  {
    hide Sound, Accepts, AtOffer, Transferring, CalmNext, Calm, Done, Foiled, GoalOf, InTheWay, Occupied;
    var g := GoalOf(u, w);
    WelcomeIsFree(u, l, w);
    GoalKeeps(u, w);
    BeginStep(u, l, files, w);
    OfferStep(u, l, files, CalmNext(u, l, files, w), g, Saved(w.server.disk.parts, MetadataOf(u)));
    Transfers(u, l, files, CalmNext(u, l, files, CalmNext(u, l, files, w)), g, g.from);
    CalmTwice(u, l, files, w, 2 * Chunks(u, g.from) + 2);
  }

  lemma UploadCompletes(u: Upload, l: TransferLimits, files: map<Path, Bytes>, w: World)
    requires Sound(u, files, w) && Connected(u, w) && Welcome(u, l, w)
    ensures Done(u, Calm(u, l, files, w, 4 + 2 * Chunks(u, GoalOf(u, w).from)), GoalOf(u, w))
  {
    hide Sound, Takes, Connected, Calm, Done, GoalOf;
    UploadEnds(u, l, files, w);
  }

  /**
   * A client need not learn of its commit: in every upload that would succeed, a connection lost
   * after the rename leaves the file committed and the client with a transport error.
   */
  lemma CommitMayGoUnlearned(u: Upload, l: TransferLimits, files: map<Path, Bytes>, w: World)
    requires Sound(u, files, w) && Connected(u, w) && Welcome(u, l, w)
    ensures var g := GoalOf(u, w);
      var w' := History(u, l, files, Calm(u, l, files, w, 2 + 2 * Chunks(u, g.from)),
                        [ServerReads(HEALTHY_OPEN, HEALTHY), Cut(0, 0), ClientNotices]);
      && w'.client == Fail(FrameIoError).client
      && w'.server.commits == w.server.commits + [Commit(MetadataOf(u), u.requestId, g.expected, true)]
      && w'.server.disk.files == w.server.disk.files[u.filename := g.expected]
  {
    hide Sound, Accepts, AtOffer, CalmNext, Calm, GoalOf, Transferring, InTheWay, Occupied;
    var g := GoalOf(u, w);
    WelcomeIsFree(u, l, w);
    BeginStep(u, l, files, w);
    OfferStep(u, l, files, CalmNext(u, l, files, w), g, Saved(w.server.disk.parts, MetadataOf(u)));
    var w2 := CalmNext(u, l, files, CalmNext(u, l, files, w));
    ReachesEnd(u, l, files, w2, g, g.from);
    CalmTwice(u, l, files, w, 2 * Chunks(u, g.from));
    GoalKeeps(u, w);
    CutAfterRename(u, l, files, Calm(u, l, files, w2, 2 * Chunks(u, g.from)), g);
  }

  lemma GoalKeeps(u: Upload, w: World)
    requires Representable(u)
    ensures var g := GoalOf(u, w); g.commits == w.server.commits && g.files == w.server.disk.files
  {
  }

  lemma CutAfterRename(u: Upload, l: TransferLimits, files: map<Path, Bytes>, w: World, g: Goal)
    requires Sound(u, files, w) && Startable(u) && Transferring(u, w, g, |u.source|) && !InTheWay(g.files, u.filename)
    ensures var w' := History(u, l, files, w, [ServerReads(HEALTHY_OPEN, HEALTHY), Cut(0, 0), ClientNotices]);
      && w'.client == Fail(FrameIoError).client
      && w'.server.commits == g.commits + [Commit(MetadataOf(u), u.requestId, g.expected, true)]
      && w'.server.disk.files == g.files[u.filename := g.expected]
  {
    hide Crc, Turn, Holds, CompleteFrame, ResultFrame, Asks, Announces, Inv, Begin, History, Sound, Do, InTheWay;
    var hs := [ServerReads(HEALTHY_OPEN, HEALTHY), Cut(0, 0), ClientNotices];
    assert hs[1..] == [Cut(0, 0), ClientNotices] && hs[1..][1..] == [ClientNotices] && [ClientNotices][1..] == [];
    HistoryStep(u, l, files, w, hs);
    var w1 := Do(u, l, w, hs[0]);
    HistoryStep(u, l, files, w1, hs[1..]);
    var w2 := Do(u, l, w1, Cut(0, 0));
    HistoryStep(u, l, files, w2, [ClientNotices]);
    var w3 := Do(u, l, w2, ClientNotices);
    HistoryEnd(u, l, files, w3);
    RenameStep(u, l, files, w, g);
    LoseConnectionStep(u, l, w1);
  }

  lemma HistoryStep(u: Upload, l: TransferLimits, files: map<Path, Bytes>, w: World, hs: seq<Happening>)
    requires Sound(u, files, w) && hs != []
    ensures ClientOk(u, w.client) && SessionHeld(w) && Sound(u, files, Do(u, l, w, hs[0]))
    ensures History(u, l, files, w, hs) == History(u, l, files, Do(u, l, w, hs[0]), hs[1..])
  {
    hide Do, Inv, Asks, Announces;
    HeldWorld(u, files, w);
    DoSound(u, l, files, w, hs[0]);
  }

  lemma HistoryEnd(u: Upload, l: TransferLimits, files: map<Path, Bytes>, w: World)
    requires Sound(u, files, w)
    ensures History(u, l, files, w, []) == w
  {
    hide Sound, Do;
  }

  lemma RenameStep(u: Upload, l: TransferLimits, files: map<Path, Bytes>, w: World, g: Goal)
    requires Sound(u, files, w) && SessionHeld(w) && Startable(u) && Transferring(u, w, g, |u.source|)
    requires !InTheWay(g.files, u.filename)
    ensures var w1 := Do(u, l, w, ServerReads(HEALTHY_OPEN, HEALTHY));
      && w1.linked && w1.client == w.client && SessionHeld(w1)
      && w1.server.commits == g.commits + [Commit(MetadataOf(u), u.requestId, g.expected, true)]
      && w1.server.disk.files == g.files[u.filename := g.expected]
  {
    hide Crc, Turn, Holds, CompleteFrame, ResultFrame, Asks, Announces, Inv, Begin;
    HoldsSession(u, w.server.disk, w.server.session.value, g.expected, |u.source|);
    CompleteCalm(u, l, w.server.disk, w.server.session.value, g.expected);
  }

  lemma LoseConnectionStep(u: Upload, l: TransferLimits, w: World)
    requires ClientOk(u, w.client) && SessionHeld(w) && w.linked && w.client.AwaitResult?
    ensures var w2 := Do(u, l, w, Cut(0, 0));
      && SessionHeld(w2) && w2.client == w.client
      && var w3 := Do(u, l, w2, ClientNotices); w3.client == Fail(FrameIoError).client && w3.server == w.server
  {
    hide DataIn;
  }

  /** The committed bytes are the source's exactly unless a wrong prefix had the checksum of the right one. */
  lemma CommittedBytes(u: Upload, l: TransferLimits, files: map<Path, Bytes>, w: World)
    requires Sound(u, files, w) && Connected(u, w) && Welcome(u, l, w)
    ensures var saved := Saved(w.server.disk.parts, MetadataOf(u));
      var w' := Calm(u, l, files, w, 4 + 2 * Chunks(u, GoalOf(u, w).from));
      && u.filename in w'.server.disk.files
      && (w'.server.disk.files[u.filename] == u.source <==> !Accepted(saved, u.source) || saved == u.source[..|saved|])
  {
    hide Sound, Welcome, Calm, Crc, Expected, From;
    ExpectedIsSource(Saved(w.server.disk.parts, MetadataOf(u)), u.source);
    UploadCompletes(u, l, files, w);
  }

  // ---------------------------------------------------------------------------
  // Exactly when it succeeds.
  // ---------------------------------------------------------------------------

  /** Nothing is under way, and nothing has been committed. */
  ghost predicate GaveUp(w: World, w0: World, status: Status)
  {
    && w.client.Ended? && w.client.outcome.status == status
    && w.toServer == [] && w.toClient == []
    && w.server.commits == w0.server.commits && w.server.disk.files == w0.server.disk.files
  }

  lemma {:induction false} Settled(u: Upload, l: TransferLimits, files: map<Path, Bytes>, w: World, n: nat)
    requires Sound(u, files, w) && w.toServer == [] && w.toClient == []
    ensures Calm(u, l, files, w, n) == w
    decreases n
  {
    hide Inv, Asks, Announces, Turn, Begin;
    if n != 0 {
      Settled(u, l, files, w, n - 1);
    }
  }

  lemma RefusedSteps(u: Upload, l: TransferLimits, files: map<Path, Bytes>, w: World)
    requires Sound(u, files, w) && Connected(u, w) && !Accepts(l, w.server.disk, MetadataOf(u))
    ensures var w' := CalmNext(u, l, files, CalmNext(u, l, files, w));
      GaveUp(w', w, RemoteRejected) && w'.server.disk == w.server.disk
  {
    hide Crc, Begin, RequestFrame, ResultFrame, Accepts, Inv, Asks, Announces, OnFrame, Turn;
    var st := w.server;
    var status := BeginRefuses(u, l, st.disk);
    RequestIsRequest(u);
    var refusal := ResultFrame(u.requestId, 0, CodeFor(status));
    var w1 := CalmNext(u, l, files, w);
    assert w.toServer[1..] == [] && st.commits + [] == st.commits;
    assert w1.toServer == [] && w1.toClient == [refusal] && w1.server.commits == st.commits
      && w1.server.disk == st.disk;
    RefusalRead(u, status);
    assert w1.toClient[1..] == [] && w1.toServer + [] == [];
  }

  lemma OversizedSteps(u: Upload, l: TransferLimits, files: map<Path, Bytes>, w: World, g: Goal, o: nat)
    requires Sound(u, files, w) && Startable(u) && Transferring(u, w, g, o) && o < |u.source|
      && |NextChunk(u, o)| > l.chunkSize
    ensures var w' := CalmNext(u, l, files, CalmNext(u, l, files, w));
      GaveUp(w', w, UnexpectedMessageType) && w'.server.disk.parts == g.others
  {
    hide Crc, Turn, Transferring, ResultFrame, Inv, Asks, Announces, OnFrame, Begin, NextChunk;
    ChunkBounds(u, o);
    OversizedStep(u, l, files, w, g, o);
    var w1 := CalmNext(u, l, files, w);
    OversizeRead(u, o + |NextChunk(u, o)|, g.from);
    assert w1.toClient[1..] == [] && w1.toServer + [] == [];
  }

  lemma OversizedStep(u: Upload, l: TransferLimits, files: map<Path, Bytes>, w: World, g: Goal, o: nat)
    requires Sound(u, files, w) && Startable(u) && Transferring(u, w, g, o) && o < |u.source|
      && |NextChunk(u, o)| > l.chunkSize
    ensures var w1 := CalmNext(u, l, files, w);
      && w1.toServer == [] && w1.toClient == [ResultFrame(u.requestId, u.requestId, ResultCode.SizeMismatch)]
      && w1.client == AwaitAck(u.requestId, o + |NextChunk(u, o)|, g.from) && w1.linked
      && w1.server.commits == w.server.commits && w1.server.disk == Disk(g.others, w.server.disk.files)
  {
    hide Crc, Turn, Holds, ChunkFrame, ResultFrame, Inv, Asks, Announces, OnFrame, Begin, NextChunk;
    var st := w.server;
    HoldsSession(u, st.disk, st.session.value, g.expected, o);
    ChunkRefused(u, l, st.disk, st.session.value, g.expected, o);
    assert w.toServer[1..] == [] && st.commits + [] == st.commits;
  }

  /** How an upload that starts in `w` has ended in `w'`. */
  ghost predicate Decided(u: Upload, l: TransferLimits, w: World, w': World)
    requires Representable(u)
  {
    var g, disk := GoalOf(u, w), w.server.disk;
    var accepts, occupied := Accepts(l, disk, MetadataOf(u)), Occupied(disk.files, u.filename);
    && w'.client.Ended?
    && (w'.client.outcome.status == Status.Success <==> Welcome(u, l, w))
    && (w'.client.outcome.status == RemoteRejected <==> !accepts || (Takes(u, l, w) && occupied))
    && (w'.client.outcome.status == UnexpectedMessageType <==> accepts && !Takes(u, l, w))
    && (Welcome(u, l, w) ==> Done(u, w', g))
    && (Takes(u, l, w) && occupied ==> Foiled(u, w', g))
    && (w'.client.outcome.status != Status.Success ==>
          w'.server.commits == w.server.commits && w'.server.disk.files == w.server.disk.files)
  }

  /**
   * On a calm connection the upload succeeds exactly when the server accepts the request (which it
   * does not if a file stands in place of a parent directory), the first chunk is not larger than the
   * server's chunk size, and the final path is not a directory with files. Otherwise nothing is
   * committed: a request that is not accepted, and a file that cannot be put in its place, are reported
   * as rejected, but the refusal of a chunk only as a message of an unexpected type.
   */
  lemma UploadSucceedsIff(u: Upload, l: TransferLimits, files: map<Path, Bytes>, w: World)
    requires Sound(u, files, w) && Connected(u, w)
    ensures Decided(u, l, w, Calm(u, l, files, w, 4 + 2 * Chunks(u, GoalOf(u, w).from)))
  {
    hide Sound, Accepts, Calm, Connected, Crc, Chunks, GoalOf, Done, Foiled, MetadataOf, Occupied;
    assert Startable(u) by { ConnectedStarts(u, w); }
    var g := GoalOf(u, w);
    GoalKeeps(u, w);
    if !Accepts(l, w.server.disk, MetadataOf(u)) {
      RefusedEnd(u, l, files, w, 2 * Chunks(u, g.from) + 2);
    } else if !Takes(u, l, w) {
      OversizedEnd(u, l, files, w, 2 * Chunks(u, g.from));
    } else {
      UploadEnds(u, l, files, w);
      EndsKnown(u, Calm(u, l, files, w, 4 + 2 * Chunks(u, g.from)), g);
    }
  }

  lemma EndsKnown(u: Upload, w: World, g: Goal)
    requires Representable(u)
    ensures Done(u, w, g) ==> w.client.Ended? && w.client.outcome.status == Status.Success
    ensures Foiled(u, w, g) ==>
      && w.client.Ended? && w.client.outcome.status == RemoteRejected
      && w.server.commits == g.commits && w.server.disk.files == g.files
  {
  }

  lemma RefusedEnd(u: Upload, l: TransferLimits, files: map<Path, Bytes>, w: World, n: nat)
    requires Sound(u, files, w) && Connected(u, w) && !Accepts(l, w.server.disk, MetadataOf(u))
    ensures GaveUp(Calm(u, l, files, w, n + 2), w, RemoteRejected)
  {
    hide Sound, Accepts, Connected, CalmNext, Calm;
    RefusedSteps(u, l, files, w);
    CalmTwice(u, l, files, w, n);
    Settled(u, l, files, CalmNext(u, l, files, CalmNext(u, l, files, w)), n);
  }

  lemma OversizedEnd(u: Upload, l: TransferLimits, files: map<Path, Bytes>, w: World, n: nat)
    requires Sound(u, files, w) && Connected(u, w) && Accepts(l, w.server.disk, MetadataOf(u))
    requires Min(u.limits.chunkSize, |u.source| - GoalOf(u, w).from) > l.chunkSize
    ensures GaveUp(Calm(u, l, files, w, n + 4), w, UnexpectedMessageType)
  {
    hide Sound, Accepts, Connected, CalmNext, Calm, AtOffer, Transferring, NextChunk, GoalOf, Crc;
    assert Startable(u) by { ConnectedStarts(u, w); }
    var g := GoalOf(u, w);
    var w1 := CalmNext(u, l, files, w);
    var w2 := CalmNext(u, l, files, w1);
    BeginStep(u, l, files, w);
    OfferStep(u, l, files, w1, g, Saved(w.server.disk.parts, MetadataOf(u)));
    ChunkBounds(u, g.from);
    OversizedSteps(u, l, files, w2, g, g.from);
    CourseKept(u, w2, g, g.from);
    GoalKeeps(u, w);
    CalmTwice(u, l, files, w, n + 2);
    CalmTwice(u, l, files, w2, n);
    Settled(u, l, files, CalmNext(u, l, files, CalmNext(u, l, files, w2)), n);
  }

  lemma ConnectedStarts(u: Upload, w: World)
    requires Connected(u, w)
    ensures Startable(u)
  {
  }

  lemma CourseKept(u: Upload, w: World, g: Goal, o: nat)
    requires Startable(u) && Transferring(u, w, g, o)
    ensures w.server.commits == g.commits && w.server.disk.files == g.files
  {
  }
}
