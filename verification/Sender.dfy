/** The client side of an upload (src/common/file_transfer.cpp, `send_file`), one received frame at a time. */
module Sender {
  import opened Words
  import opened Wire
  import opened Frames
  import opened Paths
  import opened Checksum
  import opened TransferCodec
  import opened PartialStore
  import opened Receiver

  /** What the client uploads; the source file does not change during the transfer. */
  datatype Upload = Upload(source: Bytes, filename: Path, requestId: u64, limits: TransferLimits)

  ghost predicate Representable(u: Upload)
  {
    |u.source| < U64_LIMIT
  }

  /** The metadata `read_source_metadata` computes. */
  function MetadataOf(u: Upload): (m: UploadMetadata)
    requires |u.source| < U64_LIMIT
  {
    CrcRange(u.source);
    UploadMetadata(u.filename, |u.source|, Crc(u.source))
  }

  /** The part of `FileTransferResult` a caller of `send_file` looks at. */
  datatype Outcome = Outcome(status: Status, transferred: nat, resumedFrom: nat, remote: Option<ResultCode>)

  datatype Client =
    | AwaitReady
    | AwaitAck(transferId: u64, offset: nat, resumedFrom: nat)
    | AwaitResult(transferId: u64, offset: nat, resumedFrom: nat)
    | Ended(outcome: Outcome)

  datatype Move = Move(client: Client, sent: seq<Frame>)

  /** Outcomes of the client's own system calls between two receives. */
  datatype ClientOs = ClientOs(opens: bool, readsPrefix: bool, seeks: bool, readsChunk: bool, sends: bool)

  const CLIENT_HEALTHY: ClientOs := ClientOs(true, true, true, true, true)

  function Fail(status: Status, transferred: nat := 0): Move
  {
    Move(Ended(Outcome(status, transferred, 0, None)), [])
  }

  function Min(a: nat, b: nat): nat { if a < b then a else b }

  ghost predicate ClientOk(u: Upload, client: Client)
  {
    && Representable(u) && (!client.Ended? ==> ValidLimits(u.limits))
    && (client.AwaitAck? || client.AwaitResult? ==> client.offset <= |u.source|)
  }

  // ---------------------------------------------------------------------------
  // The steps.
  // ---------------------------------------------------------------------------

  /** Everything before the first receive. */
  function Start(u: Upload, os: ClientOs): Move
  {
    if u.requestId == 0 then Fail(InvalidRequestId)
    else if !Safe(u.filename) then Fail(Status.InvalidPath)
    else if !ValidLimits(u.limits) then Fail(Status.InvalidRequest)
    else if |u.source| > u.limits.maxFileSize then Fail(Status.FileTooLarge)
    else if !os.opens then Fail(FileOpenError)
    else if !os.readsChunk then Fail(FileReadError)
    else if !os.sends then Fail(FrameIoError)
    else
      SafeLength(u.filename);
      Move(AwaitReady, [Reply(UploadRequest, u.requestId, 0, EncodeMetadata(MetadataOf(u)))])
  }

  /** The bytes of the next chunk. */
  function NextChunk(u: Upload, offset: nat): (data: Bytes)
    requires offset <= |u.source|
  {
    u.source[offset..offset + Min(u.limits.chunkSize, |u.source| - offset)]
  }

  /** The head of the sending loop: the next chunk, or the end of the file. */
  function Advance(u: Upload, transferId: u64, offset: nat, resumedFrom: nat, os: ClientOs): (r: Move)
    requires Representable(u) && ValidLimits(u.limits) && offset <= |u.source|
    ensures ClientOk(u, r.client)
  {
    if offset < |u.source| then
      var data := NextChunk(u, offset);
      if !os.readsChunk then Fail(FileReadError, offset)
      else if !os.sends then Fail(FrameIoError)
      else Move(AwaitAck(transferId, offset + |data|, resumedFrom),
                [Reply(MessageType.FileChunk, u.requestId, transferId, EncodeChunk(offset, data))])
    else if !os.sends then Fail(FrameIoError)
    else Move(AwaitResult(transferId, offset, resumedFrom), [Reply(TransferComplete, u.requestId, transferId, [])])
  }

  /** Where sending starts: the offered offset if the client's own prefix has the offered checksum, else zero. */
  function ResumePoint(u: Upload, r: Checkpoint): (offset: nat)
    requires r.offset <= |u.source|
  {
    if Crc(u.source[..r.offset]) == r.prefixChecksum then r.offset else 0
  }

  function RemoteOutcome(f: Frame): Outcome
  {
    var decoded := DecodeResult(f.payload);
    if decoded.Err? then Outcome(InvalidPayload, 0, 0, None)
    else if decoded.value == ResultCode.Success then Outcome(Status.Success, 0, 0, None)
    else Outcome(RemoteRejected, 0, 0, Some(decoded.value))
  }

  function OnReady(u: Upload, f: Frame, os: ClientOs): (r: Move)
    requires Representable(u) && ValidLimits(u.limits)
    ensures ClientOk(u, r.client)
  {
    if f.header.requestId != u.requestId then Fail(MismatchedRequestId)
    else if f.header.messageType == TransferResult then
      if f.header.transferId != 0 then Fail(InvalidTransferId)
      else
        var o := RemoteOutcome(f);
        Move(Ended(if o.status == Status.Success then o.(status := Status.UnexpectedFrame) else o), [])
    else if f.header.messageType != MessageType.TransferReady then Fail(UnexpectedMessageType)
    else
      var decoded := DecodeReady(f.payload);
      if decoded.Err? then Fail(InvalidPayload)
      else
        var r := decoded.value;
        if r.offset > |u.source| || (r.offset == 0 && r.prefixChecksum != 0) then Fail(Status.UnexpectedOffset)
        else if f.header.transferId == 0 then Fail(InvalidTransferId)
        else if !os.opens then Fail(FileOpenError)
        else if r.offset > 0 && !os.readsPrefix then Fail(FileReadError)
        else
          var from := ResumePoint(u, r);
          if from == 0 && !os.seeks then Fail(FileReadError)
          else Advance(u, f.header.transferId, from, from, os)
  }

  /** `receive_expected_frame`: what is wrong with the frame, if anything. */
  function Unexpected(u: Upload, transferId: u64, t: MessageType, f: Frame): Option<Status>
  {
    if f.header.requestId != u.requestId then Some(MismatchedRequestId)
    else if f.header.transferId != transferId then Some(InvalidTransferId)
    else if f.header.messageType != t then Some(UnexpectedMessageType)
    else None
  }

  function OnAck(u: Upload, transferId: u64, offset: nat, resumedFrom: nat, f: Frame, os: ClientOs): (r: Move)
    requires Representable(u) && ValidLimits(u.limits) && offset <= |u.source|
    ensures ClientOk(u, r.client)
  {
    var wrong := Unexpected(u, transferId, Acknowledgment, f);
    if wrong.Some? then Fail(wrong.value)
    else
      var decoded := DecodeOffset(f.payload);
      if decoded.Err? then Fail(InvalidPayload, offset)
      else if decoded.value != offset then Fail(Status.UnexpectedOffset, offset)
      else Advance(u, transferId, offset, resumedFrom, os)
  }

  function OnResult(u: Upload, transferId: u64, offset: nat, resumedFrom: nat, f: Frame): Move
  {
    var wrong := Unexpected(u, transferId, TransferResult, f);
    if wrong.Some? then Fail(wrong.value)
    else Move(Ended(RemoteOutcome(f).(transferred := offset, resumedFrom := resumedFrom)), [])
  }

  /** One receive of the client and everything up to the next. */
  function OnFrame(u: Upload, client: Client, input: Incoming, os: ClientOs): (r: Move)
    requires ClientOk(u, client)
    ensures ClientOk(u, r.client)
  {
    if client.Ended? then Move(client, [])
    else if input.Failed? then Fail(FrameIoError)
    else
      match client
      case AwaitReady => OnReady(u, input.frame, os)
      case AwaitAck(id, offset, from) => OnAck(u, id, offset, from, input.frame, os)
      case AwaitResult(id, offset, from) => OnResult(u, id, offset, from, input.frame)
  }

  // ---------------------------------------------------------------------------
  // A whole call, as a fold and as the code.
  // ---------------------------------------------------------------------------

  datatype Exchange = Exchange(input: Incoming, os: ClientOs)

  /** When the script ends, the server is gone. */
  function ExchangeAt(script: seq<Exchange>): Exchange
  {
    if script == [] then Exchange(Failed(PeerGone), CLIENT_HEALTHY) else script[0]
  }

  function Converse(u: Upload, client: Client, script: seq<Exchange>): (r: Move)
    requires ClientOk(u, client)
    ensures r.client.Ended?
    decreases |script|
  {
    var now := ExchangeAt(script);
    var r := OnFrame(u, client, now.input, now.os);
    if r.client.Ended? then r else
      var rest := Converse(u, r.client, script[1..]);
      Move(rest.client, r.sent + rest.sent)
  }

  function Conversation(u: Upload, os: ClientOs, script: seq<Exchange>): (r: Move)
    requires Representable(u)
    ensures r.client.Ended?
  {
    var r := Start(u, os);
    if r.client.Ended? then r else
      var rest := Converse(u, r.client, script);
      Move(rest.client, r.sent + rest.sent)
  }

  /** The prefix is read in buffers of one chunk and checksummed. */
  method VerifyPrefix(u: Upload, r: Checkpoint) returns (from: nat)
    requires ValidLimits(u.limits) && r.offset <= |u.source|
    ensures from == ResumePoint(u, r)
  {
    hide FeedByte;
    var checksum := new Crc32();
    var prefixRead := 0;
    while prefixRead < r.offset
      invariant prefixRead <= r.offset
      invariant checksum.state == Feed(ONES, u.source[..prefixRead])
    {
      var requested := Min(r.offset - prefixRead, u.limits.chunkSize);
      FeedAppend(ONES, u.source[..prefixRead], u.source[prefixRead..prefixRead + requested]);
      assert u.source[..prefixRead] + u.source[prefixRead..prefixRead + requested]
           == u.source[..prefixRead + requested];
      checksum.Update(u.source[prefixRead..prefixRead + requested]);
      prefixRead := prefixRead + requested;
    }
    var value := checksum.Value();
    from := if value == r.prefixChecksum then r.offset else 0;
  }

  /** From the server's first response to the point where sending starts. */
  method Negotiate(u: Upload, f: Frame, os: ClientOs) returns (failed: Option<Outcome>, transferId: u64, from: nat)
    requires Representable(u) && ValidLimits(u.limits)
    ensures from <= |u.source|
    ensures OnReady(u, f, os)
         == if failed.Some? then Move(Ended(failed.value), []) else Advance(u, transferId, from, from, os)
  {
    hide Advance, DecodeReady, RemoteOutcome, ResumePoint;
    transferId, from := f.header.transferId, 0;
    if f.header.requestId != u.requestId {
      return Some(Outcome(MismatchedRequestId, 0, 0, None)), transferId, from;
    }
    if f.header.messageType == TransferResult {
      if f.header.transferId != 0 {
        return Some(Outcome(InvalidTransferId, 0, 0, None)), transferId, from;
      }
      var rejection := RemoteOutcome(f);
      if rejection.status == Status.Success {
        rejection := rejection.(status := Status.UnexpectedFrame);
      }
      return Some(rejection), transferId, from;
    }
    if f.header.messageType != MessageType.TransferReady {
      return Some(Outcome(UnexpectedMessageType, 0, 0, None)), transferId, from;
    }
    var decoded := DecodeReady(f.payload);
    if decoded.Err? {
      return Some(Outcome(InvalidPayload, 0, 0, None)), transferId, from;
    }
    var checkpoint := decoded.value;
    if checkpoint.offset > |u.source| || (checkpoint.offset == 0 && checkpoint.prefixChecksum != 0) {
      return Some(Outcome(Status.UnexpectedOffset, 0, 0, None)), transferId, from;
    }
    if transferId == 0 {
      return Some(Outcome(InvalidTransferId, 0, 0, None)), transferId, from;
    }
    if !os.opens {
      return Some(Outcome(FileOpenError, 0, 0, None)), transferId, from;
    }
    if checkpoint.offset > 0 && !os.readsPrefix {
      return Some(Outcome(FileReadError, 0, 0, None)), transferId, from;
    }
    from := VerifyPrefix(u, checkpoint);
    ResumeBound(u, checkpoint);
    if from == 0 && !os.seeks {
      return Some(Outcome(FileReadError, 0, 0, None)), transferId, from;
    }
    failed := None;
  }

  lemma ResumeBound(u: Upload, r: Checkpoint)
    requires r.offset <= |u.source|
    ensures ResumePoint(u, r) <= |u.source|
  {
  }

  /** What remains of a call whose loop is at `offset`. */
  function Remaining(u: Upload, transferId: u64, offset: nat, from: nat, os: ClientOs, script: seq<Exchange>): Move
    requires Representable(u) && ValidLimits(u.limits) && offset <= |u.source|
  {
    var r := Advance(u, transferId, offset, from, os);
    if r.client.Ended? then r else
      var rest := Converse(u, r.client, script);
      Move(rest.client, r.sent + rest.sent)
  }

  function Prepend(sent: seq<Frame>, m: Move): Move
  {
    Move(m.client, sent + m.sent)
  }

  /** The rest of a call after the chunk at `offset` has been sent. */
  lemma AfterChunk(u: Upload, transferId: u64, offset: nat, from: nat, os: ClientOs, script: seq<Exchange>)
    requires Representable(u) && ValidLimits(u.limits) && offset < |u.source| && os.readsChunk && os.sends
    ensures |EncodeChunk(offset, NextChunk(u, offset))| < U32_LIMIT
    ensures var data, now := NextChunk(u, offset), ExchangeAt(script);
      var chunk := [Reply(MessageType.FileChunk, u.requestId, transferId, EncodeChunk(offset, data))];
      var offset' := offset + |data|;
      && offset < offset' <= |u.source|
      && var r := Remaining(u, transferId, offset, from, os, script);
         && (now.input.Failed? ==> r == Move(Fail(FrameIoError).client, chunk))
         && (now.input.Arrived? ==>
               var acked := OnAck(u, transferId, offset', from, now.input.frame, now.os);
               && (acked.client.Ended? && acked.sent == [] ==> r == Move(acked.client, chunk))
               && (acked == Advance(u, transferId, offset', from, now.os) ==>
                     r == Prepend(chunk, Remaining(u, transferId, offset', from, now.os, script[1..]))))
  {
    hide OnAck, PutUint;
  }

  /** The acknowledgment must be for exactly the bytes sent so far. */
  method CheckAck(u: Upload, transferId: u64, offset: nat, from: nat, f: Frame, os: ClientOs)
    returns (failed: Option<Outcome>)
    requires Representable(u) && ValidLimits(u.limits) && offset <= |u.source|
    ensures OnAck(u, transferId, offset, from, f, os)
         == if failed.Some? then Move(Ended(failed.value), []) else Advance(u, transferId, offset, from, os)
  {
    hide Advance, DecodeOffset;
    var wrong := Unexpected(u, transferId, Acknowledgment, f);
    if wrong.Some? {
      return Some(Outcome(wrong.value, 0, 0, None));
    }
    var decoded := DecodeOffset(f.payload);
    if decoded.Err? {
      return Some(Outcome(InvalidPayload, offset, 0, None));
    }
    if decoded.value != offset {
      return Some(Outcome(Status.UnexpectedOffset, offset, 0, None));
    }
    return None;
  }

  /** A chunk that cannot be read or sent ends the call. */
  lemma ChunkFails(u: Upload, transferId: u64, offset: nat, from: nat, os: ClientOs, script: seq<Exchange>)
    requires Representable(u) && ValidLimits(u.limits) && offset < |u.source|
    ensures !os.readsChunk ==> Remaining(u, transferId, offset, from, os, script) == Fail(FileReadError, offset)
    ensures os.readsChunk && !os.sends ==> Remaining(u, transferId, offset, from, os, script) == Fail(FrameIoError)
  {
  }

  /** The sending loop, the end of the transfer and the final result. */
  method SendChunks(u: Upload, transferId: u64, from: nat, os: ClientOs, script: seq<Exchange>)
    returns (outcome: Outcome, sent: seq<Frame>)
    requires Representable(u) && ValidLimits(u.limits) && from <= |u.source|
    ensures Remaining(u, transferId, from, from, os, script) == Move(Ended(outcome), sent)
  {
    hide EncodeChunk, OnAck, NextChunk, Remaining, Advance;
    ghost var whole := Remaining(u, transferId, from, from, os, script);
    var offset, now, left := from, os, script;
    sent := [];
    while offset < |u.source|
      invariant from <= offset <= |u.source|
      invariant whole == Prepend(sent, Remaining(u, transferId, offset, from, now, left))
    {
      var data := NextChunk(u, offset);
      ChunkFails(u, transferId, offset, from, now, left);
      if !now.readsChunk {
        return Outcome(FileReadError, offset, 0, None), sent;
      }
      if !now.sends {
        return Outcome(FrameIoError, 0, 0, None), sent;
      }
      AfterChunk(u, transferId, offset, from, now, left);
      var chunk := Reply(MessageType.FileChunk, u.requestId, transferId, EncodeChunk(offset, data));
      ghost var before := sent;
      sent := sent + [chunk];
      offset := offset + |data|;
      var got := ExchangeAt(left);
      now := got.os;
      if got.input.Failed? {
        return Outcome(FrameIoError, 0, 0, None), sent;
      }
      var failed := CheckAck(u, transferId, offset, from, got.input.frame, now);
      if failed.Some? {
        return failed.value, sent;
      }
      left := left[1..];
      ghost var rest := Remaining(u, transferId, offset, from, now, left);
      assert before + ([chunk] + rest.sent) == sent + rest.sent;
    }
    var more;
    outcome, more := FinishSending(u, transferId, offset, from, now, left);
    sent := sent + more;
  }

  method FinishSending(u: Upload, transferId: u64, offset: nat, from: nat, os: ClientOs, script: seq<Exchange>)
    returns (outcome: Outcome, sent: seq<Frame>)
    requires Representable(u) && ValidLimits(u.limits) && offset == |u.source|
    ensures Remaining(u, transferId, offset, from, os, script) == Move(Ended(outcome), sent)
  {
    hide RemoteOutcome;
    sent := [];
    if !os.sends {
      return Outcome(FrameIoError, 0, 0, None), sent;
    }
    sent := [Reply(TransferComplete, u.requestId, transferId, [])];
    var last := ExchangeAt(script);
    if last.input.Failed? {
      return Outcome(FrameIoError, 0, 0, None), sent;
    }
    var wrong := Unexpected(u, transferId, TransferResult, last.input.frame);
    if wrong.Some? {
      return Outcome(wrong.value, 0, 0, None), sent;
    }
    outcome := RemoteOutcome(last.input.frame).(transferred := offset, resumedFrom := from);
  }

  /** `send_file`: the call does exactly what the fold of its steps says. */
  method SendFile(u: Upload, os: ClientOs, script: seq<Exchange>) returns (outcome: Outcome, sent: seq<Frame>)
    requires Representable(u)
    ensures Conversation(u, os, script) == Move(Ended(outcome), sent)
  {
    hide OnReady, OnAck, OnResult, PutUint;
    sent := [];
    if u.requestId == 0 {
      return Outcome(InvalidRequestId, 0, 0, None), sent;
    }
    var safe := IsSafeRemotePath(u.filename);
    if !safe {
      return Outcome(Status.InvalidPath, 0, 0, None), sent;
    }
    if !ValidLimits(u.limits) {
      return Outcome(Status.InvalidRequest, 0, 0, None), sent;
    }
    if |u.source| > u.limits.maxFileSize {
      return Outcome(Status.FileTooLarge, 0, 0, None), sent;
    }
    if !os.opens || !os.readsChunk {
      return Outcome(if !os.opens then FileOpenError else FileReadError, 0, 0, None), sent;
    }
    if !os.sends {
      return Outcome(FrameIoError, 0, 0, None), sent;
    }
    SafeLength(u.filename);
    sent := [Reply(UploadRequest, u.requestId, 0, EncodeMetadata(MetadataOf(u)))];
    var first := ExchangeAt(script);
    if first.input.Failed? {
      return Outcome(FrameIoError, 0, 0, None), sent;
    }
    var failed, transferId, from := Negotiate(u, first.input.frame, first.os);
    if failed.Some? {
      return failed.value, sent;
    }
    var more;
    outcome, more := SendChunks(u, transferId, from, first.os, if script == [] then [] else script[1..]);
    sent := sent + more;
  }
}
