/**
 * The two calls together: what `send_file` sends to a server that answers like `receive_file`, and
 * what `receive_file` answers to a client that sends like `send_file`, fit each other exactly.
 */
module Dialogue {
  import opened Words
  import opened Frames
  import opened Checksum
  import opened TransferCodec
  import opened PartialStore
  import opened Receiver
  import opened ReceiveFile
  import opened ServerRuns
  import opened Sender
  import opened Completion

  /** The frames of an honest client from `o` on, each answered by healthy system calls. */
  function HonestRounds(u: Upload, o: nat): seq<Round>
    requires |u.source| < U64_LIMIT && ValidLimits(u.limits) && o <= |u.source|
    decreases |u.source| - o
  {
    if o == |u.source| then [Round(Arrived(CompleteFrame(u)), HEALTHY)]
    else [Round(Arrived(ChunkFrame(u, u.requestId, o)), HEALTHY)] + HonestRounds(u, o + |NextChunk(u, o)|)
  }

  /** The frames of a server that takes all that follows `o`, and its result. */
  function Replies(u: Upload, o: nat, code: ResultCode): seq<Frame>
    requires |u.source| < U64_LIMIT && ValidLimits(u.limits) && o <= |u.source|
    decreases |u.source| - o
  {
    if o == |u.source| then [ResultFrame(u.requestId, u.requestId, code)]
    else [AckFrame(u.requestId, o + |NextChunk(u, o)|)] + Replies(u, o + |NextChunk(u, o)|, code)
  }

  /** The store after the whole file has arrived. */
  function Landed(u: Upload, disk: Disk, e: Bytes): Disk
    requires |u.source| < U64_LIMIT
  {
    Disk(disk.parts - {MetadataOf(u)}, disk.files[u.filename := e])
  }

  /** How the server ends a session in which it got the whole file. */
  function ResultOf(u: Upload, disk: Disk): ResultCode
  {
    if InTheWay(disk.files, u.filename) then FileIoError else ResultCode.Success
  }

  ghost predicate EndedWith(u: Upload, disk: Disk, e: Bytes, r: Step)
    requires |u.source| < U64_LIMIT
  {
    if InTheWay(disk.files, u.filename) then
      r.phase == Closed(FileCommitError) && r.disk == DropPart(disk, MetadataOf(u)) && r.commits == []
    else
      && r.phase == Closed(Status.Success) && r.disk == Landed(u, disk, e)
      && r.commits == [Commit(MetadataOf(u), u.requestId, e, true)]
  }

  lemma {:induction false} HonestTurns(u: Upload, l: TransferLimits, disk: Disk, s: Session, e: Bytes, o: nat)
    requires PartsOk(disk.parts) && Startable(u) && u.limits.chunkSize <= l.chunkSize && o <= |u.source|
    requires Holds(u, disk, s, e, o) && (o == |u.source| ==> s.offset == o) && Crc(e) == Crc(u.source)
    ensures s.meta in disk.parts
    ensures var r := Turns(disk, s, HonestRounds(u, o), l);
      EndedWith(u, disk, e, r) && r.sent == Replies(u, o, ResultOf(u, disk))
    decreases |u.source| - o
  {
    hide Crc, Turn, ChunkFrame, CompleteFrame, Holds, NextChunk, AckFrame, ResultFrame, InTheWay;
    HoldsSession(u, disk, s, e, o);
    var rounds := HonestRounds(u, o);
    if o == |u.source| {
      if InTheWay(disk.files, u.filename) {
        CompleteRefused(u, l, disk, s, e);
      } else {
        CompleteCalm(u, l, disk, s, e);
      }
    } else {
      ChunkBounds(u, o);
      ChunkCalm(u, l, disk, s, e, o);
      var r := Turn(disk, s, rounds[0].input, l, HEALTHY);
      TurnKeeps(disk, s, rounds[0].input, l, HEALTHY);
      TurnStays(disk, s, rounds[0].input, l, HEALTHY);
      var o' := o + |NextChunk(u, o)|;
      assert rounds[1..] == HonestRounds(u, o');
      HonestTurns(u, l, r.disk, r.phase.session, e, o');
    }
  }

  /** The rounds of an honest upload to a store that may hold a part of it; none follow a refusal. */
  ghost function HonestUpload(u: Upload, disk: Disk): seq<Round>
    requires Startable(u)
  {
    if Blocked(disk.files, u.filename) then [] else HonestRounds(u, From(Saved(disk.parts, MetadataOf(u)), u.source))
  }

  /** What the server answers to it: the offer, the acknowledgments and the result, or the refusal at once. */
  ghost function HonestReplies(u: Upload, disk: Disk): seq<Frame>
    requires Startable(u)
  {
    var saved := Saved(disk.parts, MetadataOf(u));
    if Blocked(disk.files, u.filename) then [ResultFrame(u.requestId, 0, ResultCode.InvalidPath)]
    else [OfferFrame(Offering(u, saved))] + Replies(u, From(saved, u.source), ResultOf(u, disk))
  }

  /**
   * The server's side of the dialogue: the honest frames in, the honest replies out, and the file
   * committed, unless a file or a directory is in the way.
   */
  lemma HonestSession(u: Upload, l: TransferLimits, disk: Disk)
    requires PartsOk(disk.parts) && Startable(u) && u.limits.chunkSize <= l.chunkSize
    requires HasRoom(l, disk.parts, MetadataOf(u))
    ensures var r := WholeSession(disk, RequestFrame(u), l, HEALTHY_OPEN, HonestUpload(u, disk));
      var e := Expected(Saved(disk.parts, MetadataOf(u)), u.source);
      && r.sent == HonestReplies(u, disk) && |e| == |u.source| && Crc(e) == Crc(u.source)
      && if Blocked(disk.files, u.filename) then
           r.phase == Closed(Status.InvalidPath) && r.disk == disk && r.commits == []
         else
           EndedWith(u, disk, e, r)
  {
    hide Crc, Begin, RequestFrame, Feed, HonestRounds, Replies, From, Expected, Blocked, Admits, EndedWith, ResultOf;
    ExpectedVerifies(Saved(disk.parts, MetadataOf(u)), u.source);
    if Blocked(disk.files, u.filename) {
      BlockedAtOnce(u, l, disk);
    } else {
      OpenSession(u, l, disk);
    }
  }

  lemma BlockedAtOnce(u: Upload, l: TransferLimits, disk: Disk)
    requires Startable(u) && HasRoom(l, disk.parts, MetadataOf(u)) && Blocked(disk.files, u.filename)
    ensures Begin(disk, RequestFrame(u), l, HEALTHY_OPEN)
         == Step(disk, Closed(Status.InvalidPath), [ResultFrame(u.requestId, 0, ResultCode.InvalidPath)], [])
  {
    hide DecodeMetadata, EncodeMetadata, Admits, Blocked, Feed, Crc;
    MetadataRoundTrip(MetadataOf(u));
  }

  lemma OpenSession(u: Upload, l: TransferLimits, disk: Disk)
    requires PartsOk(disk.parts) && Startable(u) && u.limits.chunkSize <= l.chunkSize && Accepts(l, disk, MetadataOf(u))
    ensures var saved := Saved(disk.parts, MetadataOf(u));
      var e, from := Expected(saved, u.source), From(saved, u.source);
      && from <= |u.source|
      && var r := WholeSession(disk, RequestFrame(u), l, HEALTHY_OPEN, HonestRounds(u, from));
         EndedWith(u, disk, e, r) && r.sent == [OfferFrame(Offering(u, saved))] + Replies(u, from, ResultOf(u, disk))
  {
    hide Crc, Begin, Turns, Holds, RequestFrame, OfferFrame, Accepts, HonestRounds, Replies, From, Expected,
      Feed, SessionOk, Verified, Replay, Backed, Admits, Fits, DecodeMetadata, InTheWay;
    var m := MetadataOf(u);
    var saved := Saved(disk.parts, m);
    BeginCalm(u, l, disk);
    BeginKeeps(disk, RequestFrame(u), l, HEALTHY_OPEN);
    RequestDecodes(u);
    var r := Begin(disk, RequestFrame(u), l, HEALTHY_OPEN);
    OfferHolds(u, r.disk, saved);
    FromEnd(u, saved);
    FromBound(saved, u.source);
    HonestTurns(u, l, r.disk, r.phase.session, Expected(saved, u.source), From(saved, u.source));
  }

  lemma FromBound(saved: Bytes, source: Bytes)
    requires |saved| <= |source|
    ensures From(saved, source) <= |source|
  {
  }

  /** The frames as the client's receives, with healthy calls in between. */
  function Script(frames: seq<Frame>): (script: seq<Exchange>)
    ensures |script| == |frames|
  {
    seq(|frames|, i requires 0 <= i < |frames| => Exchange(Arrived(frames[i]), CLIENT_HEALTHY))
  }

  function FramesOf(rounds: seq<Round>): seq<Frame>
    requires forall r :: r in rounds ==> r.input.Arrived?
  {
    seq(|rounds|, i requires 0 <= i < |rounds| => rounds[i].input.frame)
  }

  lemma {:induction false} RoundsArrive(u: Upload, o: nat)
    requires |u.source| < U64_LIMIT && ValidLimits(u.limits) && o <= |u.source|
    ensures forall r :: r in HonestRounds(u, o) ==> r.input.Arrived?
    decreases |u.source| - o
  {
    hide ChunkFrame, CompleteFrame;
    if o < |u.source| {
      RoundsArrive(u, o + |NextChunk(u, o)|);
    }
  }

  /** The outcome for a client whose file the server got and answered with this result. */
  function OutcomeOf(u: Upload, from: nat, code: ResultCode): Outcome
  {
    if code == ResultCode.Success then Outcome(Status.Success, |u.source|, from, None)
    else Outcome(RemoteRejected, |u.source|, from, Some(code))
  }

  lemma {:induction false} HonestSending(u: Upload, o: nat, from: nat, code: ResultCode)
    requires Startable(u) && o <= |u.source| && (code == ResultCode.Success || code == FileIoError)
    ensures (
      RoundsArrive(u, o);
      Remaining(u, u.requestId, o, from, CLIENT_HEALTHY, Script(Replies(u, o, code)))
        == Move(Ended(OutcomeOf(u, from, code)), FramesOf(HonestRounds(u, o))))
    decreases |u.source| - o
  {
    hide Crc, ChunkFrame, CompleteFrame, AckFrame, ResultFrame, OnFrame, OnAck, OnReady;
    RoundsArrive(u, o);
    var script, rounds := Script(Replies(u, o, code)), HonestRounds(u, o);
    if o == |u.source| {
      SuccessRead(u, from);
      FailureRead(u, from);
      CompleteShape(u, from);
      assert script == [Exchange(Arrived(ResultFrame(u.requestId, u.requestId, code)), CLIENT_HEALTHY)];
      assert FramesOf(rounds) == [CompleteFrame(u)];
    } else {
      ChunkBounds(u, o);
      var o' := o + |NextChunk(u, o)|;
      AckRead(u, o', from);
      ChunkShape(u, o, from);
      HonestSending(u, o', from, code);
      RoundsArrive(u, o');
      assert script[0] == Exchange(Arrived(AckFrame(u.requestId, o')), CLIENT_HEALTHY);
      assert script[1..] == Script(Replies(u, o', code));
      assert FramesOf(rounds) == [ChunkFrame(u, u.requestId, o)] + FramesOf(HonestRounds(u, o'));
    }
  }

  lemma CompleteShape(u: Upload, from: nat)
    requires Startable(u)
    ensures Advance(u, u.requestId, |u.source|, from, CLIENT_HEALTHY)
         == Move(AwaitResult(u.requestId, |u.source|, from), [CompleteFrame(u)])
  {
  }

  lemma ChunkShape(u: Upload, o: nat, from: nat)
    requires Startable(u) && o < |u.source|
    ensures Advance(u, u.requestId, o, from, CLIENT_HEALTHY)
         == Move(AwaitAck(u.requestId, o + |NextChunk(u, o)|, from), [ChunkFrame(u, u.requestId, o)])
  {
  }

  /** What the client reports of an honest dialogue. */
  ghost function HonestOutcome(u: Upload, disk: Disk): Outcome
    requires Startable(u)
  {
    if Blocked(disk.files, u.filename) then Outcome(RemoteRejected, 0, 0, Some(ResultCode.InvalidPath))
    else OutcomeOf(u, From(Saved(disk.parts, MetadataOf(u)), u.source), ResultOf(u, disk))
  }

  lemma UploadArrives(u: Upload, disk: Disk)
    requires Startable(u)
    ensures forall r :: r in HonestUpload(u, disk) ==> r.input.Arrived?
  {
    hide HonestRounds, Crc;
    FromBound(Saved(disk.parts, MetadataOf(u)), u.source);
    RoundsArrive(u, From(Saved(disk.parts, MetadataOf(u)), u.source));
  }

  /**
   * The client's side of the dialogue: the honest replies in, the honest frames out. It reports success
   * exactly if nothing is in the way, and else the server's reason.
   */
  lemma HonestConversation(u: Upload, disk: Disk)
    requires Startable(u)
    ensures (
      UploadArrives(u, disk);
      Conversation(u, CLIENT_HEALTHY, Script(HonestReplies(u, disk)))
        == Move(Ended(HonestOutcome(u, disk)), [RequestFrame(u)] + FramesOf(HonestUpload(u, disk))))
    ensures HonestOutcome(u, disk).status == Status.Success <==> !InTheWay(disk.files, u.filename)
  {
    hide Crc, OnFrame, OfferFrame, HonestRounds, Replies, From, EncodeMetadata, Advance, Blocked, ResultFrame;
    var saved := Saved(disk.parts, MetadataOf(u));
    var from, code := From(saved, u.source), ResultOf(u, disk);
    UploadArrives(u, disk);
    var script := Script(HonestReplies(u, disk));
    if Blocked(disk.files, u.filename) {
      RefusalRead(u, Status.InvalidPath);
      assert script[0] == Exchange(Arrived(ResultFrame(u.requestId, 0, ResultCode.InvalidPath)), CLIENT_HEALTHY);
      assert [RequestFrame(u)] + [] == [RequestFrame(u)];
    } else {
      FromBound(saved, u.source);
      RoundsArrive(u, from);
      OfferRead(u, saved);
      HonestSending(u, from, from, code);
      assert script[0] == Exchange(Arrived(OfferFrame(Offering(u, saved))), CLIENT_HEALTHY);
      assert script[1..] == Script(Replies(u, from, code));
    }
  }
}
